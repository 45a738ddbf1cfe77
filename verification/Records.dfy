/**
 The rows of `core.students`, `core.guardians` and `core.student_guardian`, and
 the idempotent inserts into them (worker/internal/store/store.go). Encryption
 of the personal fields is a lossless pair, so rows hold their plaintext.
 */
module Records {
  import opened Text
  import opened Dates

  /** A `uuid` column: PostgreSQL compares these by value, so hex digits are in lower case. */
  type Uuid = string

  function Canon(id: string): Uuid
  {
    Lower(id)
  }

  datatype Row<+D> = Row(id: string, data: D)

  datatype StudentData = StudentData(
    last: string, first: string, middle: Option<string>,
    email: Option<string>, phone: Option<string>, birth: Option<Date>)

  datatype GuardianData = GuardianData(
    last: string, first: string, middle: Option<string>,
    email: Option<string>, phone: Option<string>, relation: Option<string>)

  type StudentRow = Row<StudentData>
  type GuardianRow = Row<GuardianData>
  datatype LinkRow = LinkRow(student: string, guardian: string)

  datatype Core = Core(
    students: map<Uuid, StudentData>,
    guardians: map<Uuid, GuardianData>,
    links: set<(Uuid, Uuid)>)

  /** The two foreign keys of `core.student_guardian`. */
  ghost predicate Referential(core: Core)
  {
    forall l :: l in core.links ==> l.0 in core.students && l.1 in core.guardians
  }

  // ── INSERT … ON CONFLICT (id) DO NOTHING ───────────────────────────────

  function Put<D>(t: map<Uuid, D>, r: Row<D>): map<Uuid, D>
  {
    if Canon(r.id) in t then t else t[Canon(r.id) := r.data]
  }

  /** Inserting rows one at a time. */
  function PutAll<D>(t: map<Uuid, D>, rows: seq<Row<D>>): map<Uuid, D>
  {
    if rows == [] then t else Put(PutAll(t, rows[..|rows| - 1]), rows[|rows| - 1])
  }

  /** How many of those inserts affect a row. */
  function Added<D>(t: map<Uuid, D>, rows: seq<Row<D>>): nat
  {
    if rows == [] then 0
    else
      var before := rows[..|rows| - 1];
      Added(t, before) + if Canon(rows[|rows| - 1].id) in PutAll(t, before) then 0 else 1
  }

  ghost function Ids<D>(rows: seq<Row<D>>): set<Uuid>
  {
    set r | r in rows :: Canon(r.id)
  }

  /** Row `i` is the first one that carries its id. */
  ghost predicate FirstOfId<D>(rows: seq<Row<D>>, i: int)
    requires 0 <= i < |rows|
  {
    forall j :: 0 <= j < i ==> Canon(rows[j].id) != Canon(rows[i].id)
  }

  lemma IdsSnoc<D>(rows: seq<Row<D>>, r: Row<D>)
    ensures Ids(rows + [r]) == Ids(rows) + {Canon(r.id)}
  {
  }

  lemma {:induction false} PutAllKeys<D>(t: map<Uuid, D>, rows: seq<Row<D>>)
    ensures PutAll(t, rows).Keys == t.Keys + Ids(rows)
    ensures forall id :: id in t ==> PutAll(t, rows)[id] == t[id]
  {
    if rows == [] {
      assert Ids(rows) == {};
    } else {
      var n := |rows| - 1;
      PutAllKeys(t, rows[..n]);
      IdsSnoc(rows[..n], rows[n]);
      assert rows == rows[..n] + [rows[n]];
    }
  }

  lemma SizeWithOne<T>(s: set<T>, known: set<T>, x: T)
    ensures |s + {x} - known| == |s - known| + if x in s || x in known then 0 else 1
  {
    if x in s || x in known {
      assert s + {x} - known == s - known;
    } else {
      assert s + {x} - known == (s - known) + {x};
    }
  }

  lemma LastId<D>(rows: seq<Row<D>>)
    requires rows != []
    ensures Ids(rows) == Ids(rows[..|rows| - 1]) + {Canon(rows[|rows| - 1].id)}
  {
  }

  lemma {:induction false} AddedMeaning<D>(t: map<Uuid, D>, rows: seq<Row<D>>)
    ensures Added(t, rows) == |Ids(rows) - t.Keys|
  {
    if rows == [] {
      assert Ids(rows) == {};
    } else {
      var n := |rows| - 1;
      AddedMeaning(t, rows[..n]);
      PutAllKeys(t, rows[..n]);
      LastId(rows);
      SizeWithOne(Ids(rows[..n]), t.Keys, Canon(rows[n].id));
    }
  }

  lemma {:induction false} FirstRowWins<D>(t: map<Uuid, D>, rows: seq<Row<D>>, i: nat)
    requires i < |rows| && Canon(rows[i].id) !in t && FirstOfId(rows, i)
    ensures Canon(rows[i].id) in PutAll(t, rows) && PutAll(t, rows)[Canon(rows[i].id)] == rows[i].data
  {
    var n := |rows| - 1;
    PutAllKeys(t, rows[..n]);
    if i < n {
      FirstRowWins(t, rows[..n], i);
    } else {
      forall q | q in rows[..n] ensures Canon(q.id) != Canon(rows[n].id) {
        var j :| 0 <= j < n && rows[..n][j] == q;
        assert rows[j] == q;
      }
    }
  }

  /**
   What a list of inserts does to a table, without running it: ids already there
   keep their row, every other id gets the first row that names it, and the
   count is the number of distinct ids that were not there.
   */
  lemma PutAllMeaning<D>(t: map<Uuid, D>, rows: seq<Row<D>>)
    ensures PutAll(t, rows).Keys == t.Keys + Ids(rows)
    ensures forall id :: id in t ==> PutAll(t, rows)[id] == t[id]
    ensures forall i {:trigger rows[i]} :: 0 <= i < |rows| && Canon(rows[i].id) !in t && FirstOfId(rows, i)
              ==> Canon(rows[i].id) in PutAll(t, rows) && PutAll(t, rows)[Canon(rows[i].id)] == rows[i].data
    ensures Added(t, rows) == |Ids(rows) - t.Keys|
  {
    PutAllKeys(t, rows);
    AddedMeaning(t, rows);
    forall i {:trigger rows[i]} | 0 <= i < |rows| && Canon(rows[i].id) !in t && FirstOfId(rows, i)
      ensures Canon(rows[i].id) in PutAll(t, rows) && PutAll(t, rows)[Canon(rows[i].id)] == rows[i].data
    {
      FirstRowWins(t, rows, i);
    }
  }

  lemma {:induction false} PutAllConcat<D>(t: map<Uuid, D>, a: seq<Row<D>>, b: seq<Row<D>>)
    ensures PutAll(t, a + b) == PutAll(PutAll(t, a), b)
    ensures Added(t, a + b) == Added(t, a) + Added(PutAll(t, a), b)
  {
    if b == [] {
      assert a + b == a;
    } else {
      var n := |b| - 1;
      PutAllConcat(t, a, b[..n]);
      assert (a + b)[..|a + b| - 1] == a + b[..n];
    }
  }

  /** Rows whose ids are all present change nothing and count nothing. */
  lemma {:induction false} PutAllPresent<D>(t: map<Uuid, D>, rows: seq<Row<D>>)
    requires Ids(rows) <= t.Keys
    ensures PutAll(t, rows) == t
    ensures Added(t, rows) == 0
  {
    if rows != [] {
      var n := |rows| - 1;
      assert rows[n] in rows;
      forall r | r in rows[..n] ensures Canon(r.id) in t {
        assert r in rows;
      }
      PutAllPresent(t, rows[..n]);
    }
  }

  /** Committing a prefix and then the whole list is committing the whole list; the counts add up. */
  lemma PutAllAfterPrefix<D>(t: map<Uuid, D>, rows: seq<Row<D>>, n: nat)
    requires n <= |rows|
    ensures PutAll(PutAll(t, rows[..n]), rows) == PutAll(t, rows)
    ensures Added(t, rows[..n]) + Added(PutAll(t, rows[..n]), rows) == Added(t, rows)
  {
    var stopped := PutAll(t, rows[..n]);
    assert rows == rows[..n] + rows[n..];
    PutAllConcat(t, rows[..n], rows[n..]);
    PutAllConcat(stopped, rows[..n], rows[n..]);
    PutAllKeys(t, rows[..n]);
    PutAllPresent(stopped, rows[..n]);
  }

  lemma {:induction false} AddedBound<D>(t: map<Uuid, D>, rows: seq<Row<D>>)
    ensures Added(t, rows) <= |rows|
  {
    if rows != [] {
      AddedBound(t, rows[..|rows| - 1]);
    }
  }

  // ── core.student_guardian ──────────────────────────────────────────────

  datatype LinkOutcome = LinkInserted | LinkExisted | LinkRejected

  /** One link insert: a duplicate pair is skipped, a missing endpoint violates a foreign key. */
  function LinkResult(core: Core, l: LinkRow): LinkOutcome
  {
    var s, g := Canon(l.student), Canon(l.guardian);
    if (s, g) in core.links then LinkExisted
    else if s in core.students && g in core.guardians then LinkInserted
    else LinkRejected
  }

  function PutLink(core: Core, l: LinkRow): Core
  {
    if LinkResult(core, l).LinkInserted?
    then core.(links := core.links + {(Canon(l.student), Canon(l.guardian))})
    else core
  }

  function PutLinks(core: Core, ls: seq<LinkRow>): Core
  {
    if ls == [] then core else PutLink(PutLinks(core, ls[..|ls| - 1]), ls[|ls| - 1])
  }

  function LinksAdded(core: Core, ls: seq<LinkRow>): nat
  {
    if ls == [] then 0
    else
      var before := ls[..|ls| - 1];
      LinksAdded(core, before)
      + if LinkResult(PutLinks(core, before), ls[|ls| - 1]).LinkInserted? then 1 else 0
  }

  /** The pairs of a list whose two endpoints exist. */
  ghost function Linkable(core: Core, ls: seq<LinkRow>): set<(Uuid, Uuid)>
  {
    set l | l in ls && Canon(l.student) in core.students && Canon(l.guardian) in core.guardians
      :: (Canon(l.student), Canon(l.guardian))
  }

  lemma LinkableSnoc(core: Core, ls: seq<LinkRow>, l: LinkRow)
    ensures Linkable(core, ls + [l]) == Linkable(core, ls)
            + if Canon(l.student) in core.students && Canon(l.guardian) in core.guardians
              then {(Canon(l.student), Canon(l.guardian))} else {}
  {
  }

  lemma {:induction false} PutLinksPairs(core: Core, ls: seq<LinkRow>)
    ensures PutLinks(core, ls) == core.(links := core.links + Linkable(core, ls))
  {
    if ls == [] {
      assert Linkable(core, ls) == {};
    } else {
      var n := |ls| - 1;
      PutLinksPairs(core, ls[..n]);
      LinkableSnoc(core, ls[..n], ls[n]);
      assert ls == ls[..n] + [ls[n]];
    }
  }

  lemma LastPair(core: Core, ls: seq<LinkRow>)
    requires ls != []
    ensures var l := ls[|ls| - 1];
            Linkable(core, ls) == Linkable(core, ls[..|ls| - 1])
              + if Canon(l.student) in core.students && Canon(l.guardian) in core.guardians
                then {(Canon(l.student), Canon(l.guardian))} else {}
  {
  }

  lemma {:induction false} LinksAddedMeaning(core: Core, ls: seq<LinkRow>)
    ensures LinksAdded(core, ls) == |Linkable(core, ls) - core.links|
  {
    if ls == [] {
      assert Linkable(core, ls) == {};
    } else {
      var n := |ls| - 1;
      LinksAddedMeaning(core, ls[..n]);
      PutLinksPairs(core, ls[..n]);
      LastPair(core, ls);
      SizeWithOne(Linkable(core, ls[..n]), core.links, (Canon(ls[n].student), Canon(ls[n].guardian)));
      assert Linkable(core, ls[..n]) + {} == Linkable(core, ls[..n]);
    }
  }

  /** The links after a list of inserts: the old ones and every pair whose endpoints exist. */
  lemma PutLinksMeaning(core: Core, ls: seq<LinkRow>)
    ensures PutLinks(core, ls) == core.(links := core.links + Linkable(core, ls))
    ensures LinksAdded(core, ls) == |Linkable(core, ls) - core.links|
    ensures Referential(core) ==> Referential(PutLinks(core, ls))
  {
    PutLinksPairs(core, ls);
    LinksAddedMeaning(core, ls);
  }

  lemma LinkableSome(core: Core, some: seq<LinkRow>, ls: seq<LinkRow>)
    requires forall l :: l in some ==> l in ls
    ensures Linkable(core, some) <= Linkable(core, ls)
  {
  }

  lemma SomeThenRest<T>(known: set<T>, some: set<T>, all: set<T>)
    requires some <= all
    ensures known + some + all == known + all
    ensures |some - known| + |all - (known + some)| == |all - known|
  {
  }

  /** Inserting some of the links first, in whatever selection, changes neither the outcome nor the total count. */
  lemma PutLinksAfterSome(core: Core, some: seq<LinkRow>, ls: seq<LinkRow>)
    requires forall l :: l in some ==> l in ls
    ensures PutLinks(PutLinks(core, some), ls) == PutLinks(core, ls)
    ensures LinksAdded(core, some) + LinksAdded(PutLinks(core, some), ls) == LinksAdded(core, ls)
  {
    var stopped := PutLinks(core, some);
    PutLinksMeaning(core, some);
    PutLinksMeaning(core, ls);
    PutLinksMeaning(stopped, ls);
    LinkableSome(core, some, ls);
    assert Linkable(stopped, ls) == Linkable(core, ls);
    SomeThenRest(core.links, Linkable(core, some), Linkable(core, ls));
  }

  // ── A whole dataset ────────────────────────────────────────────────────

  /** The validated rows of one import, file by file. */
  datatype Dataset = Dataset(students: seq<StudentRow>, guardians: seq<GuardianRow>, links: seq<LinkRow>)

  /** The tables after an import: students, then guardians, then links. */
  function Import(core: Core, ds: Dataset): Core
  {
    PutLinks(core.(students := PutAll(core.students, ds.students),
                   guardians := PutAll(core.guardians, ds.guardians)), ds.links)
  }

  /** All rows an import inserts. */
  function ImportCount(core: Core, ds: Dataset): nat
  {
    Added(core.students, ds.students) + Added(core.guardians, ds.guardians)
    + LinksAdded(core.(students := PutAll(core.students, ds.students),
                       guardians := PutAll(core.guardians, ds.guardians)), ds.links)
  }

  /** The writes an import has done after `n` statements, counted across the three files. */
  function Stopped(ds: Dataset, n: nat): Dataset
  {
    var s, g := |ds.students|, |ds.guardians|;
    if n <= s then Dataset(ds.students[..n], [], [])
    else if n <= s + g then Dataset(ds.students, ds.guardians[..n - s], [])
    else if n <= s + g + |ds.links| then Dataset(ds.students, ds.guardians, ds.links[..n - s - g])
    else ds
  }

  /**
   What a disturbed import may have committed: a prefix of the students, then of
   the guardians, then any selection of the links.
   */
  ghost predicate PartOf(part: Dataset, ds: Dataset)
  {
    && part.students <= ds.students && part.guardians <= ds.guardians
    && (part.guardians != [] ==> part.students == ds.students)
    && (part.links != [] ==> part.students == ds.students && part.guardians == ds.guardians)
    && forall l :: l in part.links ==> l in ds.links
  }

  /**
   A disturbed import followed by a whole one leaves the same tables as one clean
   run, and the two insert counts add up to the clean run's.
   */
  lemma PartsConverge(core: Core, ds: Dataset, part: Dataset)
    requires PartOf(part, ds)
    ensures var stopped := Import(core, part);
            && Import(stopped, ds) == Import(core, ds)
            && ImportCount(core, part) + ImportCount(stopped, ds) == ImportCount(core, ds)
  {
    PutAllAfterPrefix(core.students, ds.students, |part.students|);
    PutAllAfterPrefix(core.guardians, ds.guardians, |part.guardians|);
    assert part.students == ds.students[..|part.students|] && part.guardians == ds.guardians[..|part.guardians|];
    var base := core.(students := PutAll(core.students, ds.students),
                      guardians := PutAll(core.guardians, ds.guardians));
    if part.links == [] {
      assert Import(core, part).links == core.links;
    } else {
      PutLinksMeaning(base, part.links);
      PutLinksAfterSome(base, part.links, ds.links);
    }
  }

  /** In particular an import may stop after any number of its statements. */
  lemma ImportConverges(core: Core, ds: Dataset, n: nat)
    ensures var stopped := Import(core, Stopped(ds, n));
            && Import(stopped, ds) == Import(core, ds)
            && ImportCount(core, Stopped(ds, n)) + ImportCount(stopped, ds) == ImportCount(core, ds)
  {
    StoppedIsPart(ds, n);
    PartsConverge(core, ds, Stopped(ds, n));
  }

  lemma StoppedIsPart(ds: Dataset, n: nat)
    ensures PartOf(Stopped(ds, n), ds)
  {
  }

  /** An import is idempotent: a second run over its own result inserts nothing. */
  lemma ImportTwice(core: Core, ds: Dataset)
    ensures Import(Import(core, ds), ds) == Import(core, ds)
    ensures ImportCount(Import(core, ds), ds) == 0
  {
    ImportConverges(core, ds, |ds.students| + |ds.guardians| + |ds.links|);
    var whole := Stopped(ds, |ds.students| + |ds.guardians| + |ds.links|);
    assert whole == ds;
  }

  /** Imports only add: every row that was there keeps its contents. */
  lemma ImportKeepsRows(core: Core, ds: Dataset)
    ensures forall id :: id in core.students ==>
              id in Import(core, ds).students && Import(core, ds).students[id] == core.students[id]
    ensures forall id :: id in core.guardians ==>
              id in Import(core, ds).guardians && Import(core, ds).guardians[id] == core.guardians[id]
    ensures core.links <= Import(core, ds).links
    ensures Referential(core) ==> Referential(Import(core, ds))
  {
    PutAllMeaning(core.students, ds.students);
    PutAllMeaning(core.guardians, ds.guardians);
    var base := core.(students := PutAll(core.students, ds.students),
                      guardians := PutAll(core.guardians, ds.guardians));
    PutLinksMeaning(base, ds.links);
  }
}
