/**
 The synthetic datasets (tools/gen_synthetic_data.py) and what the importer makes
 of them. Random draws and generated names are parameters.
 */
module Generator {
  import opened Text
  import opened Dates
  import opened Records
  import opened Validation
  import opened Transform
  import opened Jobs
  import opened Storage
  import opened Importer

  // ── Links ──────────────────────────────────────────────────────────────

  ghost function GuardiansOf(links: seq<LinkRow>, s: string): set<string>
  {
    set l | l in links && l.student == s :: l.guardian
  }

  /** Links without repetition between listed people, with one or two guardians for each student so far. */
  ghost predicate Linked(links: seq<LinkRow>, students: seq<string>, guardians: seq<string>)
  {
    && (forall i, j :: 0 <= i < j < |links| ==> links[i] != links[j])
    && (forall l :: l in links ==> l.student in students && l.guardian in guardians)
    && forall s :: s in students ==> 1 <= |GuardiansOf(links, s)| <= 2
  }

  lemma GuardiansAdded(links: seq<LinkRow>, l: LinkRow, s: string)
    ensures GuardiansOf(links + [l], s) == GuardiansOf(links, s) + if l.student == s then {l.guardian} else {}
  {
  }

  lemma NoGuardiansYet(links: seq<LinkRow>, students: seq<string>, guardians: seq<string>, s: string)
    requires Linked(links, students, guardians) && s !in students
    ensures GuardiansOf(links, s) == {}
  {
  }

  /** The links of one more student: one, or two to different guardians. */
  lemma LinkOne(links: seq<LinkRow>, students: seq<string>, guardians: seq<string>, s: string, g: string)
    requires Linked(links, students, guardians) && s !in students && g in guardians
    ensures Linked(links + [LinkRow(s, g)], students + [s], guardians)
  {
    NoGuardiansYet(links, students, guardians, s);
    forall t | t in students + [s] ensures 1 <= |GuardiansOf(links + [LinkRow(s, g)], t)| <= 2 {
      GuardiansAdded(links, LinkRow(s, g), t);
      if t != s {
        assert t in students;
        assert GuardiansOf(links + [LinkRow(s, g)], t) == GuardiansOf(links, t);
      } else {
        assert GuardiansOf(links + [LinkRow(s, g)], t) == {g};
      }
    }
  }

  lemma LinkTwo(links: seq<LinkRow>, students: seq<string>, guardians: seq<string>, s: string, g: string, h: string)
    requires Linked(links, students, guardians) && s !in students && g in guardians && h in guardians && g != h
    ensures Linked(links + [LinkRow(s, g)] + [LinkRow(s, h)], students + [s], guardians)
  {
    LinkOne(links, students, guardians, s, g);
    NoGuardiansYet(links, students, guardians, s);
    var once := links + [LinkRow(s, g)];
    forall t | t in students + [s] ensures 1 <= |GuardiansOf(once + [LinkRow(s, h)], t)| <= 2 {
      GuardiansAdded(links, LinkRow(s, g), t);
      GuardiansAdded(once, LinkRow(s, h), t);
      if t != s {
        assert GuardiansOf(once + [LinkRow(s, h)], t) == GuardiansOf(once, t);
      } else {
        assert GuardiansOf(once + [LinkRow(s, h)], t) == {g, h};
      }
    }
  }

  ghost predicate Distinct(ids: seq<string>)
  {
    forall i, j :: 0 <= i < j < |ids| ==> ids[i] != ids[j]
  }

  /**
   `generate_links`, for any random choices: every student gets a first guardian
   and some of them a second one, which is drawn among the others.
   */
  method GenerateLinks(students: seq<string>, guardians: seq<string>) returns (links: seq<LinkRow>)
    requires guardians != [] && Distinct(students)
    ensures Linked(links, students, guardians)
  {
    links := [];
    var seen: set<(string, string)> := {};
    for i := 0 to |students|
      invariant Linked(links, students[..i], guardians)
      invariant forall p :: p in seen <==> LinkRow(p.0, p.1) in links
    {
      var s := students[i];
      assert students[..i + 1] == students[..i] + [s] && s !in students[..i];
      var pick: nat :| pick < |guardians|;
      var g := guardians[pick];
      ghost var before := links;
      if (s, g) !in seen {
        links, seen := links + [LinkRow(s, g)], seen + {(s, g)};
      }
      LinkOne(before, students[..i], guardians, s, g);
      if * {
        var others := Others(guardians, g);
        if others != [] {
          var second: nat :| second < |others|;
          var h := others[second];
          assert h in others;
          LinkTwo(before, students[..i], guardians, s, g, h);
          if (s, h) !in seen {
            links, seen := links + [LinkRow(s, h)], seen + {(s, h)};
          }
        }
      }
    }
    assert students[..|students|] == students;
  }

  /** `[g for g in guardian_ids if g != gid]`. */
  function Others(ids: seq<string>, id: string): (others: seq<string>)
    ensures forall x :: x in others <==> x in ids && x != id
  {
    if ids == [] then []
    else
      var rest := Others(ids[..|ids| - 1], id);
      assert ids == ids[..|ids| - 1] + [ids[|ids| - 1]];
      if ids[|ids| - 1] == id then rest else rest + [ids[|ids| - 1]]
  }

  // ── People ─────────────────────────────────────────────────────────────

  const BIRTH_YEAR_MIN := 2010
  const BIRTH_YEAR_MAX := 2015

  type NineDigits = d: string | |d| == 9 && AllDigits(d) witness "000000000"

  datatype Draw = Draw(id: string, last: string, first: string, middle: string, email: string,
                       digits: NineDigits, birth: Date, relation: string)

  /** What the random sources guarantee, and what is asked of the name and email generator. */
  ghost predicate Drawn(d: Draw)
  {
    && IsUuid(d.id) && TrimSpace(d.last) != "" && TrimSpace(d.first) != "" && MatchesEmail(TrimSpace(d.email))
    && BIRTH_YEAR_MIN <= d.birth.year <= BIRTH_YEAR_MAX && 1 <= d.birth.month <= 12 && 1 <= d.birth.day <= 28
    && d.relation in RELATION_TYPES
  }

  /** `+7 9XX XXX XX XX`. */
  function PhoneRu(d: NineDigits): string
  {
    "+7 9" + d[..2] + " " + d[2..5] + " " + d[5..7] + " " + d[7..]
  }

  function StudentRecord(d: Draw): Record
  {
    map["id" := d.id, "last_name" := d.last, "first_name" := d.first, "middle_name" := d.middle,
        "email" := d.email, "phone" := PhoneRu(d.digits), "birth_date" := Format(d.birth)]
  }

  function GuardianRecord(d: Draw): Record
  {
    map["id" := d.id, "last_name" := d.last, "first_name" := d.first, "middle_name" := d.middle,
        "email" := d.email, "phone" := PhoneRu(d.digits), "relation_type" := d.relation]
  }

  function LinkRecord(l: LinkRow): Record
  {
    map["student_id" := l.student, "guardian_id" := l.guardian]
  }

  lemma {:induction false} DigitsTogether(a: string, b: string)
    ensures DigitsOf(a + b) == DigitsOf(a) + DigitsOf(b)
  {
    if b == "" {
      assert a + b == a;
    } else {
      var n := |b| - 1;
      DigitsTogether(a, b[..n]);
      assert (a + b)[..|a + b| - 1] == a + b[..n];
    }
  }

  lemma {:induction false} DigitsOfDigits(d: string)
    requires AllDigits(d)
    ensures DigitsOf(d) == d
  {
    if d != "" {
      DigitsOfDigits(d[..|d| - 1]);
    }
  }

  lemma DigitsAfter(a: string, d: string)
    requires AllDigits(d)
    ensures DigitsOf(a + d) == DigitsOf(a) + d && DigitsOf(a + d + " ") == DigitsOf(a) + d
  {
    DigitsTogether(a, d);
    DigitsOfDigits(d);
    DigitsTogether(a + d, " ");
  }

  lemma PrefixDigits()
    ensures DigitsOf("+7 9") == "79"
  {
    DigitsTogether("+7 ", "9");
    assert "+7 " + "9" == "+7 9";
  }

  lemma PhoneDigits(d: NineDigits)
    ensures DigitsOf(PhoneRu(d)) == "79" + d
  {
    var a := "+7 9" + d[..2] + " ";
    var b := a + d[2..5] + " ";
    var c := b + d[5..7] + " ";
    PrefixDigits();
    DigitsAfter("+7 9", d[..2]);
    DigitsAfter(a, d[2..5]);
    DigitsAfter(b, d[5..7]);
    DigitsAfter(c, d[7..]);
    assert PhoneRu(d) == c + d[7..];
    assert d == d[..2] + d[2..5] + d[5..7] + d[7..];
  }

  /** The digits of a generated phone number are 7, 9 and the nine drawn ones, so it passes the ten-digit check. */
  lemma PhoneHasDigits(d: NineDigits)
    ensures DigitsOf(PhoneRu(d)) == "79" + d && TrimSpace(PhoneRu(d)) == PhoneRu(d)
  {
    PhoneDigits(d);
    TrimKeeps(PhoneRu(d));
  }

  /** What is to be stored of a drawn student: every text without the blanks around it. */
  function DrawnStudent(d: Draw): StudentData
  {
    StudentData(TrimSpace(d.last), TrimSpace(d.first),
                if TrimSpace(d.middle) == "" then None else Some(TrimSpace(d.middle)),
                Some(TrimSpace(d.email)), Some(PhoneRu(d.digits)), Some(d.birth))
  }

  function DrawnGuardian(d: Draw): GuardianData
  {
    GuardianData(TrimSpace(d.last), TrimSpace(d.first),
                 if TrimSpace(d.middle) == "" then None else Some(TrimSpace(d.middle)),
                 Some(TrimSpace(d.email)), Some(PhoneRu(d.digits)), Some(d.relation))
  }

  lemma DrawnIsStorable(d: Draw)
    requires Drawn(d)
    ensures StorableStudent(Row(d.id, DrawnStudent(d)))
    ensures StorableGuardian(Row(d.id, DrawnGuardian(d)))
  {
    PhoneHasDigits(d.digits);
    TrimmedIff(TrimSpace(d.last));
    TrimmedIff(TrimSpace(d.first));
    TrimmedIff(TrimSpace(d.middle));
    TrimmedIff(TrimSpace(d.email));
    TrimmedIff(PhoneRu(d.digits));
    TrimTwice(d.last);
    TrimTwice(d.first);
    TrimTwice(d.middle);
    TrimTwice(d.email);
  }

  lemma StudentRecordNames(d: Draw)
    requires Drawn(d)
    ensures var data := DrawnStudent(d);
            && Named(StudentRecord(d), d.id, data.last, data.first)
            && Contact(StudentRecord(d), data.middle, data.email, data.phone)
            && Column(StudentRecord(d), "birth_date") == TrimSpace(Format(d.birth))
  {
    PhoneHasDigits(d.digits);
    UuidIsTrimmed(d.id);
  }

  lemma StudentRecordSpells(d: Draw)
    requires Drawn(d)
    ensures SpellsStudent(StudentRecord(d), Row(d.id, DrawnStudent(d)))
  {
    StudentRecordNames(d);
    PrintedIsTrimmed(d.birth);
  }

  lemma GuardianRecordSpells(d: Draw)
    requires Drawn(d)
    ensures SpellsGuardian(GuardianRecord(d), Row(d.id, DrawnGuardian(d)))
  {
    GuardianRecordNames(d);
    RelationStays(d.relation);
  }

  lemma GuardianRecordNames(d: Draw)
    requires Drawn(d)
    ensures var data := DrawnGuardian(d);
            && Named(GuardianRecord(d), d.id, data.last, data.first)
            && Contact(GuardianRecord(d), data.middle, data.email, data.phone)
            && Column(GuardianRecord(d), "relation_type") == TrimSpace(d.relation)
  {
    PhoneHasDigits(d.digits);
    UuidIsTrimmed(d.id);
  }

  /** A generated student passes validation, and the row is what was drawn. */
  lemma StudentIsValid(d: Draw)
    requires Drawn(d)
    ensures ValidateStudent(StudentRecord(d)) == Ok(Row(d.id, DrawnStudent(d)))
  {
    DrawnIsStorable(d);
    StudentRecordSpells(d);
    StudentAccepted(StudentRecord(d), Row(d.id, DrawnStudent(d)));
  }

  lemma GuardianIsValid(d: Draw)
    requires Drawn(d)
    ensures ValidateGuardian(GuardianRecord(d)) == Ok(Row(d.id, DrawnGuardian(d)))
  {
    DrawnIsStorable(d);
    GuardianRecordSpells(d);
    GuardianAccepted(GuardianRecord(d), Row(d.id, DrawnGuardian(d)));
  }

  lemma LinkIsValid(l: LinkRow)
    requires IsUuid(l.student) && IsUuid(l.guardian)
    ensures ValidateLink(LinkRecord(l)) == Ok(l)
  {
  }

  // ── Importing what was generated ───────────────────────────────────────

  function DrawIds(ds: seq<Draw>): (ids: seq<string>)
    ensures |ids| == |ds|
  {
    seq(|ds|, i requires 0 <= i < |ds| => ds[i].id)
  }

  /** Valid draws with ids that differ as the database compares them. */
  ghost predicate AllDrawn(ds: seq<Draw>)
  {
    && (forall i :: 0 <= i < |ds| ==> Drawn(ds[i]))
    && forall i, j :: 0 <= i < j < |ds| ==> Canon(ds[i].id) != Canon(ds[j].id)
  }

  function DrawnStudents(ds: seq<Draw>): (contents: seq<StudentData>)
    ensures |contents| == |ds|
  {
    seq(|ds|, i requires 0 <= i < |ds| => DrawnStudent(ds[i]))
  }

  function DrawnGuardians(ds: seq<Draw>): (contents: seq<GuardianData>)
    ensures |contents| == |ds|
  {
    seq(|ds|, i requires 0 <= i < |ds| => DrawnGuardian(ds[i]))
  }

  function StudentFile(ds: seq<Draw>): (recs: seq<Record>)
    ensures |recs| == |ds|
  {
    seq(|ds|, i requires 0 <= i < |ds| => StudentRecord(ds[i]))
  }

  function GuardianFile(ds: seq<Draw>): (recs: seq<Record>)
    ensures |recs| == |ds|
  {
    seq(|ds|, i requires 0 <= i < |ds| => GuardianRecord(ds[i]))
  }

  function LinkFile(ls: seq<LinkRow>): (recs: seq<Record>)
    ensures |recs| == |ls|
  {
    seq(|ls|, i requires 0 <= i < |ls| => LinkRecord(ls[i]))
  }

  lemma {:induction false} NoFaults(v: Verdicts)
    requires forall i :: 0 <= i < |v| ==> v[i].None?
    ensures Faults(v) == []
  {
    if v != [] {
      NoFaults(v[..|v| - 1]);
    }
  }

  lemma {:induction false} AllAccepted<D>(c: Checked<D>)
    requires forall i :: 0 <= i < |c| ==> c[i].Ok?
    ensures |Accepted(c)| == |c| && forall i :: 0 <= i < |c| ==> Accepted(c)[i] == c[i].value
  {
    if c != [] {
      AllAccepted(c[..|c| - 1]);
    }
  }

  lemma {:induction false} AllTried(c: Checked<LinkRow>)
    requires forall i :: 0 <= i < |c| ==> c[i].Ok?
    ensures |Tried(c, {})| == |c| && forall i :: 0 <= i < |c| ==> Tried(c, {})[i] == c[i].value
  {
    if c != [] {
      AllTried(c[..|c| - 1]);
    }
  }

  lemma NotNamedBefore<D>(rows: seq<Row<D>>, n: nat)
    requires n < |rows| && forall i :: 0 <= i < n ==> Canon(rows[i].id) != Canon(rows[n].id)
    ensures Canon(rows[n].id) !in Ids(rows[..n])
  {
  }

  /** Rows with new, distinct ids are all inserted. */
  lemma {:induction false} NewRowsAreAdded<D>(t: map<Uuid, D>, rows: seq<Row<D>>)
    requires forall i :: 0 <= i < |rows| ==> Canon(rows[i].id) !in t
    requires forall i, j :: 0 <= i < j < |rows| ==> Canon(rows[i].id) != Canon(rows[j].id)
    ensures Added(t, rows) == |rows|
  {
    if rows != [] {
      var n := |rows| - 1;
      NewRowsAreAdded(t, rows[..n]);
      PutAllKeys(t, rows[..n]);
      NotNamedBefore(rows, n);
    }
  }

  lemma NewRowsAreKept<D>(t: map<Uuid, D>, rows: seq<Row<D>>, i: nat)
    requires i < |rows| && Canon(rows[i].id) !in t
    requires forall i, j :: 0 <= i < j < |rows| ==> Canon(rows[i].id) != Canon(rows[j].id)
    ensures Canon(rows[i].id) in PutAll(t, rows) && PutAll(t, rows)[Canon(rows[i].id)] == rows[i].data
  {
    FirstRowWins(t, rows, i);
  }

  function Pair(l: LinkRow): (Uuid, Uuid)
  {
    (Canon(l.student), Canon(l.guardian))
  }

  /** Links with new, distinct pairs and existing endpoints are all inserted. */
  lemma {:induction false} NewLinksAreAdded(core: Core, ls: seq<LinkRow>)
    requires forall l :: l in ls ==> Pair(l).0 in core.students && Pair(l).1 in core.guardians && Pair(l) !in core.links
    requires forall i, j :: 0 <= i < j < |ls| ==> Pair(ls[i]) != Pair(ls[j])
    ensures LinksAdded(core, ls) == |ls|
  {
    if ls != [] {
      var n := |ls| - 1;
      assert ls[n] in ls;
      forall l | l in ls[..n] ensures l in ls && Pair(l) != Pair(ls[n]) {
        var i :| 0 <= i < n && ls[..n][i] == l;
        assert ls[i] == l;
      }
      NewLinksAreAdded(core, ls[..n]);
      PutLinksPairs(core, ls[..n]);
      assert Pair(ls[n]) !in Linkable(core, ls[..n]);
    }
  }

  lemma {:induction false} StudentsAllPass(ds: seq<Draw>)
    requires AllDrawn(ds)
    ensures var c := CheckStudents(StudentFile(ds));
            && Faults(RowVerdicts(c)) == [] && |Accepted(c)| == |ds|
            && forall i :: 0 <= i < |ds| ==> Accepted(c)[i] == Row(DrawIds(ds)[i], DrawnStudents(ds)[i])
  {
    var c := CheckStudents(StudentFile(ds));
    forall i | 0 <= i < |ds| ensures c[i] == Ok(Row(DrawIds(ds)[i], DrawnStudents(ds)[i])) {
      StudentIsValid(ds[i]);
    }
    NoFaults(RowVerdicts(c));
    AllAccepted(c);
  }

  lemma {:induction false} GuardiansAllPass(ds: seq<Draw>)
    requires AllDrawn(ds)
    ensures var c := CheckGuardians(GuardianFile(ds));
            && Faults(RowVerdicts(c)) == [] && |Accepted(c)| == |ds|
            && forall i :: 0 <= i < |ds| ==> Accepted(c)[i] == Row(DrawIds(ds)[i], DrawnGuardians(ds)[i])
  {
    var c := CheckGuardians(GuardianFile(ds));
    forall i | 0 <= i < |ds| ensures c[i] == Ok(Row(DrawIds(ds)[i], DrawnGuardians(ds)[i])) {
      GuardianIsValid(ds[i]);
    }
    NoFaults(RowVerdicts(c));
    AllAccepted(c);
  }

  lemma LinksAllPass(ls: seq<LinkRow>)
    requires forall l :: l in ls ==> IsUuid(l.student) && IsUuid(l.guardian)
    ensures var c := CheckLinks(LinkFile(ls)); Tried(c, {}) == ls && forall i :: 0 <= i < |ls| ==> c[i] == Ok(ls[i])
  {
    var c := CheckLinks(LinkFile(ls));
    forall i | 0 <= i < |ls| ensures c[i] == Ok(ls[i]) {
      assert ls[i] in ls;
      LinkIsValid(ls[i]);
    }
    AllTried(c);
  }

  /** The pair of a generated link names no other link, even as the database compares ids. */
  lemma PairsDiffer(students: seq<Draw>, guardians: seq<Draw>, links: seq<LinkRow>, i: nat, j: nat)
    requires AllDrawn(students) && AllDrawn(guardians) && Linked(links, DrawIds(students), DrawIds(guardians))
    requires i < j < |links|
    ensures Pair(links[i]) != Pair(links[j])
  {
    assert links[i] in links && links[j] in links;
    if Pair(links[i]) == Pair(links[j]) {
      SameCanonSameId(students, links[i].student, links[j].student);
      SameCanonSameId(guardians, links[i].guardian, links[j].guardian);
    }
  }

  lemma SameCanonSameId(ds: seq<Draw>, a: string, b: string)
    requires AllDrawn(ds) && a in DrawIds(ds) && b in DrawIds(ds) && Canon(a) == Canon(b)
    ensures a == b
  {
  }

  function GeneratedFiles(students: seq<Draw>, guardians: seq<Draw>, links: seq<LinkRow>): Files
  {
    Check(Directory(Parsed(StudentFile(students)), Parsed(GuardianFile(guardians)), Parsed(LinkFile(links))))
  }

  const EMPTY := Core(map[], map[], {})

  /** The table holds exactly these ids, each with its contents. */
  ghost predicate Holds<D>(t: map<Uuid, D>, ids: seq<string>, contents: seq<D>)
    requires |ids| == |contents|
  {
    && (forall id :: id in t <==> exists i :: 0 <= i < |ids| && Canon(ids[i]) == id)
    && forall i :: 0 <= i < |ids| ==> Canon(ids[i]) in t && t[Canon(ids[i])] == contents[i]
  }

  ghost predicate PeopleStored(core: Core, students: seq<Draw>, guardians: seq<Draw>)
  {
    && Holds(core.students, DrawIds(students), DrawnStudents(students))
    && Holds(core.guardians, DrawIds(guardians), DrawnGuardians(guardians))
  }

  /** Inserted into an empty table, rows with distinct ids are all held. */
  lemma {:induction false} RowsAreHeld<D>(rows: seq<Row<D>>, ids: seq<string>, contents: seq<D>)
    requires |rows| == |ids| == |contents|
    requires forall i :: 0 <= i < |rows| ==> rows[i] == Row(ids[i], contents[i])
    requires forall i, j :: 0 <= i < j < |ids| ==> Canon(ids[i]) != Canon(ids[j])
    ensures Added(map[], rows) == |rows| && Holds(PutAll(map[], rows), ids, contents)
  {
    NewRowsAreAdded(map[], rows);
    PutAllKeys(map[], rows);
    forall i | 0 <= i < |rows|
      ensures Canon(ids[i]) in PutAll(map[], rows) && PutAll(map[], rows)[Canon(ids[i])] == contents[i]
    {
      NewRowsAreKept(map[], rows, i);
    }
    forall r | r in rows ensures exists i :: 0 <= i < |ids| && Canon(ids[i]) == Canon(r.id) {
      var i :| 0 <= i < |rows| && rows[i] == r;
      assert Canon(ids[i]) == Canon(r.id);
    }
  }

  lemma StudentsAreAllAdded(ds: seq<Draw>)
    requires AllDrawn(ds)
    ensures var rows := Accepted(CheckStudents(StudentFile(ds)));
            Added(map[], rows) == |ds| && Holds(PutAll(map[], rows), DrawIds(ds), DrawnStudents(ds))
  {
    StudentsAllPass(ds);
    RowsAreHeld(Accepted(CheckStudents(StudentFile(ds))), DrawIds(ds), DrawnStudents(ds));
  }

  lemma GuardiansAreAllAdded(ds: seq<Draw>)
    requires AllDrawn(ds)
    ensures var rows := Accepted(CheckGuardians(GuardianFile(ds)));
            Added(map[], rows) == |ds| && Holds(PutAll(map[], rows), DrawIds(ds), DrawnGuardians(ds))
  {
    GuardiansAllPass(ds);
    RowsAreHeld(Accepted(CheckGuardians(GuardianFile(ds))), DrawIds(ds), DrawnGuardians(ds));
  }

  lemma EndpointsExist(core: Core, students: seq<Draw>, guardians: seq<Draw>, links: seq<LinkRow>, l: LinkRow)
    requires AllDrawn(students) && AllDrawn(guardians) && Linked(links, DrawIds(students), DrawIds(guardians))
    requires PeopleStored(core, students, guardians) && l in links
    ensures IsUuid(l.student) && IsUuid(l.guardian) && Pair(l).0 in core.students && Pair(l).1 in core.guardians
  {
  }

  lemma LinksHaveNoFaults(core: Core, links: seq<LinkRow>)
    requires forall l :: l in links ==>
               IsUuid(l.student) && IsUuid(l.guardian) && Pair(l).0 in core.students && Pair(l).1 in core.guardians
    ensures Faults(LinkVerdicts(core, CheckLinks(LinkFile(links)), {})) == []
    ensures Tried(CheckLinks(LinkFile(links)), {}) == links
  {
    LinksAllPass(links);
    assert forall i :: 0 <= i < |links| ==> links[i] in links;
    NoFaults(LinkVerdicts(core, CheckLinks(LinkFile(links)), {}));
  }

  /** Once the people are stored, every generated link finds its endpoints and is new. */
  lemma LinksAreAllAdded(core: Core, students: seq<Draw>, guardians: seq<Draw>, links: seq<LinkRow>)
    requires AllDrawn(students) && AllDrawn(guardians) && Linked(links, DrawIds(students), DrawIds(guardians))
    requires core.links == {} && PeopleStored(core, students, guardians)
    ensures LinksAdded(core, links) == |links|
    ensures Faults(LinkVerdicts(core, CheckLinks(LinkFile(links)), {})) == []
    ensures Tried(CheckLinks(LinkFile(links)), {}) == links
  {
    forall l | l in links
      ensures IsUuid(l.student) && IsUuid(l.guardian) && Pair(l).0 in core.students && Pair(l).1 in core.guardians
    {
      EndpointsExist(core, students, guardians, links, l);
    }
    LinksHaveNoFaults(core, links);
    forall i, j | 0 <= i < j < |links| ensures Pair(links[i]) != Pair(links[j]) {
      PairsDiffer(students, guardians, links, i, j);
    }
    NewLinksAreAdded(core, links);
  }

  /** Imported into empty tables, no row of the files is at fault and every one is inserted. */
  ghost predicate ImportsClean(files: Files)
  {
    var ds := Validated(files);
    && files.students.Parsed? && Faults(RowVerdicts(files.students.rows)) == []
    && files.guardians.Parsed? && Faults(RowVerdicts(files.guardians.rows)) == []
    && files.links.Parsed? && Faults(LinkVerdicts(EntitiesStored(EMPTY, ds), files.links.rows, {})) == []
    && Added(EMPTY.students, ds.students) == |files.students.rows|
    && Added(EMPTY.guardians, ds.guardians) == |files.guardians.rows|
    && LinksAdded(EntitiesStored(EMPTY, ds), ds.links) == |files.links.rows|
  }

  /** The tables once the accepted rows of both files are stored. */
  function Stored(c: Checked<StudentRow>, d: Checked<GuardianRow>): Core
  {
    Core(PutAll(EMPTY.students, Accepted(c)), PutAll(EMPTY.guardians, Accepted(d)), {})
  }

  /** The same, from the verdict on each file. */
  lemma CleanFiles(c: Checked<StudentRow>, d: Checked<GuardianRow>, l: Checked<LinkRow>)
    requires Faults(RowVerdicts(c)) == [] && Added(EMPTY.students, Accepted(c)) == |c|
    requires Faults(RowVerdicts(d)) == [] && Added(EMPTY.guardians, Accepted(d)) == |d|
    requires Faults(LinkVerdicts(Stored(c, d), l, {})) == [] && LinksAdded(Stored(c, d), Tried(l, {})) == |l|
    ensures ImportsClean(Files(Parsed(c), Parsed(d), Parsed(l)))
  {
  }

  lemma PeopleAreStored(students: seq<Draw>, guardians: seq<Draw>)
    requires AllDrawn(students) && AllDrawn(guardians)
    ensures PeopleStored(Stored(CheckStudents(StudentFile(students)), CheckGuardians(GuardianFile(guardians))),
                         students, guardians)
  {
    StudentsAreAllAdded(students);
    GuardiansAreAllAdded(guardians);
  }

  lemma PeopleAreClean(students: seq<Draw>, guardians: seq<Draw>)
    requires AllDrawn(students) && AllDrawn(guardians)
    ensures var c := CheckStudents(StudentFile(students));
            Faults(RowVerdicts(c)) == [] && Added(EMPTY.students, Accepted(c)) == |c|
    ensures var d := CheckGuardians(GuardianFile(guardians));
            Faults(RowVerdicts(d)) == [] && Added(EMPTY.guardians, Accepted(d)) == |d|
  {
    StudentsAllPass(students);
    GuardiansAllPass(guardians);
    StudentsAreAllAdded(students);
    GuardiansAreAllAdded(guardians);
  }

  lemma FilesAsChecked(students: seq<Draw>, guardians: seq<Draw>, links: seq<LinkRow>)
    ensures GeneratedFiles(students, guardians, links)
            == Files(Parsed(CheckStudents(StudentFile(students))), Parsed(CheckGuardians(GuardianFile(guardians))),
                     Parsed(CheckLinks(LinkFile(links))))
  {
  }

  /** A generated dataset imports clean, whatever was drawn. */
  lemma GeneratedFilesImportClean(students: seq<Draw>, guardians: seq<Draw>, links: seq<LinkRow>)
    requires AllDrawn(students) && AllDrawn(guardians) && Linked(links, DrawIds(students), DrawIds(guardians))
    ensures ImportsClean(GeneratedFiles(students, guardians, links))
  {
    var c, d := CheckStudents(StudentFile(students)), CheckGuardians(GuardianFile(guardians));
    PeopleAreClean(students, guardians);
    PeopleAreStored(students, guardians);
    LinksAreAllAdded(Stored(c, d), students, guardians, links);
    CleanFiles(c, d, CheckLinks(LinkFile(links)));
    FilesAsChecked(students, guardians, links);
  }

  /** Exactly the generated links are stored. */
  ghost predicate HoldsLinks(stored: set<(Uuid, Uuid)>, links: seq<LinkRow>)
  {
    forall p :: p in stored <==> exists l :: l in links && p == (Canon(l.student), Canon(l.guardian))
  }

  /** The same tables in two steps: the people, then the links. */
  lemma ImportedInSteps(c: Checked<StudentRow>, d: Checked<GuardianRow>, l: Checked<LinkRow>)
    ensures Import(EMPTY, Validated(Files(Parsed(c), Parsed(d), Parsed(l)))) == PutLinks(Stored(c, d), Tried(l, {}))
  {
  }

  lemma LinksAreStored(core: Core, students: seq<Draw>, guardians: seq<Draw>, links: seq<LinkRow>)
    requires AllDrawn(students) && AllDrawn(guardians) && Linked(links, DrawIds(students), DrawIds(guardians))
    requires core.links == {} && PeopleStored(core, students, guardians)
    ensures PeopleStored(PutLinks(core, links), students, guardians) && HoldsLinks(PutLinks(core, links).links, links)
  {
    PutLinksMeaning(core, links);
    forall l | l in links ensures (Canon(l.student), Canon(l.guardian)) in Linkable(core, links) {
      EndpointsExist(core, students, guardians, links, l);
    }
  }

  /**
   From the draws to the tables: importing a generated dataset into empty tables
   stores every person under its id, with the names, the email and the phone
   that were drawn, and exactly the links that were generated.
   */
  lemma GeneratedPeopleAreStored(students: seq<Draw>, guardians: seq<Draw>, links: seq<LinkRow>)
    requires AllDrawn(students) && AllDrawn(guardians) && Linked(links, DrawIds(students), DrawIds(guardians))
    ensures var core := Import(EMPTY, Validated(GeneratedFiles(students, guardians, links)));
            PeopleStored(core, students, guardians) && HoldsLinks(core.links, links)
  {
    var c, d := CheckStudents(StudentFile(students)), CheckGuardians(GuardianFile(guardians));
    PeopleAreStored(students, guardians);
    LinksAreAllAdded(Stored(c, d), students, guardians, links);
    LinksAreStored(Stored(c, d), students, guardians, links);
    ImportedInSteps(c, d, CheckLinks(LinkFile(links)));
    FilesAsChecked(students, guardians, links);
  }

  /** A clean dataset, imported into empty tables by an undisturbed run. */
  method ImportClean(store: Store, files: Files, job: JobId, heard: int -> Reply) returns (report: Report)
    requires store.Valid() && store.Tables() == EMPTY && ImportsClean(files)
    modifies store`students, store`guardians, store`links, store`jobs
    ensures AllInserted(report.students, |files.students.rows|)
    ensures AllInserted(report.guardians, |files.guardians.rows|)
    ensures AllInserted(report.links, |files.links.rows|)
    ensures store.Tables() == Import(EMPTY, Validated(files))
  {
    var ok;
    report, ok := Importer.Run(store, files, Trouble(None, None, {}, None), job, heard);
  }

  /** A report on `n` rows without a failure and without a skip. */
  ghost predicate AllInserted(rep: EntityReport?, n: nat)
    reads rep
  {
    rep != null && rep.total == n && rep.inserted == n && rep.failed == 0 && rep.skipped == 0
  }

  /**
   Generating the links and importing everything: every row is reported as
   inserted, and the tables hold what was drawn.
   */
  method GenerateAndImport(store: Store, students: seq<Draw>, guardians: seq<Draw>, job: JobId, heard: int -> Reply)
    returns (links: seq<LinkRow>, report: Report)
    requires store.Valid() && store.Tables() == EMPTY
    requires AllDrawn(students) && AllDrawn(guardians) && guardians != []
    modifies store`students, store`guardians, store`links, store`jobs
    ensures Linked(links, DrawIds(students), DrawIds(guardians))
    ensures AllInserted(report.students, |students|) && AllInserted(report.guardians, |guardians|)
    ensures AllInserted(report.links, |links|)
    ensures PeopleStored(store.Tables(), students, guardians) && HoldsLinks(store.links, links)
  {
    links := GenerateLinks(DrawIds(students), DrawIds(guardians));
    GeneratedFilesImportClean(students, guardians, links);
    GeneratedPeopleAreStored(students, guardians, links);
    report := ImportClean(store, GeneratedFiles(students, guardians, links), job, heard);
  }
}
