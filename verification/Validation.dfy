/**
 Row validation of the import (worker/internal/importer/validate.go), and what
 it means for the masks applied to the stored values later.
 */
module Validation {
  import opened Text
  import opened Dates
  import opened Records
  import opened Transform

  /** One data row, keyed by lower-case column name. */
  type Record = map<string, string>

  datatype Fault =
    | InvalidId | MissingLastName | MissingFirstName | InvalidRelation
    | InvalidEmail | InvalidPhone | InvalidBirthDate
    | InvalidStudentId | InvalidGuardianId | DatabaseError

  function Column(rec: Record, name: string): string
  {
    TrimSpace(if name in rec then rec[name] else "")
  }

  // ── Formats ────────────────────────────────────────────────────────────

  predicate IsHex(c: char)
  {
    '0' <= c <= '9' || 'a' <= c <= 'f' || 'A' <= c <= 'F'
  }

  /** Hex digits in groups of 8, 4, 4, 4 and 12. */
  predicate IsUuid(s: string)
  {
    |s| == 36 && forall i :: 0 <= i < 36 ==>
      if i == 8 || i == 13 || i == 18 || i == 23 then s[i] == '-' else IsHex(s[i])
  }

  /** `\s` of the regular-expression syntax; narrower than what trimming removes. */
  predicate IsBlank(c: char)
  {
    c == '\t' || c == '\n' || c == '\U{000C}' || c == '\r' || c == ' '
  }

  /** `[^@\s]+` */
  predicate Plain(s: string)
  {
    s != "" && forall i :: 0 <= i < |s| ==> s[i] != '@' && !IsBlank(s[i])
  }

  /** `^[^@\s]+@[^@\s]+\.[^@\s]+$`: some way of cutting the text matches piece by piece. */
  predicate MatchesEmail(v: string)
  {
    exists at, dot {:trigger v[at], v[dot]} ::
      0 <= at < |v| && at < dot < |v| && v[at] == '@' && v[dot] == '.'
      && Plain(v[..at]) && Plain(v[at + 1..dot]) && Plain(v[dot + 1..])
  }

  function OptStr(v: string): Option<string>
  {
    if TrimSpace(v) == "" then None else Some(TrimSpace(v))
  }

  function OptEmail(v: string): Result<Option<string>, Fault>
  {
    var t := TrimSpace(v);
    if t == "" then Ok(None) else if MatchesEmail(t) then Ok(Some(t)) else Err(InvalidEmail)
  }

  function OptPhone(v: string): Result<Option<string>, Fault>
  {
    var t := TrimSpace(v);
    if t == "" then Ok(None) else if |DigitsOf(t)| < 10 then Err(InvalidPhone) else Ok(Some(t))
  }

  /** `optPhone` with its counting loop. */
  method CheckPhone(v: string) returns (r: Result<Option<string>, Fault>)
    ensures r == OptPhone(v)
  {
    var t := TrimSpace(v);
    if t == "" {
      return Ok(None);
    }
    var digits := 0;
    for i := 0 to |t|
      invariant digits == |DigitsOf(t[..i])|
    {
      assert t[..i + 1][..i] == t[..i];
      if IsDigit(t[i]) {
        digits := digits + 1;
      }
    }
    assert t[..|t|] == t;
    if digits < 10 {
      return Err(InvalidPhone);
    }
    return Ok(Some(t));
  }

  function OptDate(v: string): Result<Option<Date>, Fault>
  {
    var t := TrimSpace(v);
    if t == "" then Ok(None) else if Parse(t).Some? then Ok(Parse(t)) else Err(InvalidBirthDate)
  }

  const RELATION_TYPES := {"mother", "father", "guardian"}

  function ValidateStudent(rec: Record): Result<StudentRow, Fault>
  {
    var id, last, first := Column(rec, "id"), Column(rec, "last_name"), Column(rec, "first_name");
    var email, phone := OptEmail(Column(rec, "email")), OptPhone(Column(rec, "phone"));
    var birth := OptDate(Column(rec, "birth_date"));
    if !IsUuid(id) then Err(InvalidId)
    else if last == "" then Err(MissingLastName)
    else if first == "" then Err(MissingFirstName)
    else if email.Err? then Err(email.error)
    else if phone.Err? then Err(phone.error)
    else if birth.Err? then Err(birth.error)
    else Ok(Row(id, StudentData(last, first, OptStr(Column(rec, "middle_name")),
                                email.value, phone.value, birth.value)))
  }

  function ValidateGuardian(rec: Record): Result<GuardianRow, Fault>
  {
    var id, last, first := Column(rec, "id"), Column(rec, "last_name"), Column(rec, "first_name");
    var relation := Lower(Column(rec, "relation_type"));
    var email, phone := OptEmail(Column(rec, "email")), OptPhone(Column(rec, "phone"));
    if !IsUuid(id) then Err(InvalidId)
    else if last == "" then Err(MissingLastName)
    else if first == "" then Err(MissingFirstName)
    else if relation !in RELATION_TYPES then Err(InvalidRelation)
    else if email.Err? then Err(email.error)
    else if phone.Err? then Err(phone.error)
    else Ok(Row(id, GuardianData(last, first, OptStr(Column(rec, "middle_name")),
                                 email.value, phone.value, Some(relation))))
  }

  function ValidateLink(rec: Record): Result<LinkRow, Fault>
  {
    var s, g := Column(rec, "student_id"), Column(rec, "guardian_id");
    if !IsUuid(s) then Err(InvalidStudentId)
    else if !IsUuid(g) then Err(InvalidGuardianId)
    else Ok(LinkRow(s, g))
  }

  // ── Which rows are accepted, and as what ───────────────────────────────

  /** A text that a column may hold: something, without white space around it. */
  ghost predicate Filled(v: string)
  {
    v != "" && Trimmed(v)
  }

  ghost predicate StorableContact(middle: Option<string>, email: Option<string>, phone: Option<string>)
  {
    && (middle.Some? ==> Filled(middle.value))
    && (email.Some? ==> Filled(email.value) && MatchesEmail(email.value))
    && (phone.Some? ==> Filled(phone.value) && |DigitsOf(phone.value)| >= 10)
  }

  ghost predicate StorableStudent(r: StudentRow)
  {
    && IsUuid(r.id) && Filled(r.data.last) && Filled(r.data.first)
    && StorableContact(r.data.middle, r.data.email, r.data.phone)
    && (r.data.birth.Some? ==> 0 <= r.data.birth.value.year <= 9999)
  }

  ghost predicate StorableGuardian(r: GuardianRow)
  {
    && IsUuid(r.id) && Filled(r.data.last) && Filled(r.data.first)
    && StorableContact(r.data.middle, r.data.email, r.data.phone)
    && r.data.relation in {Some("mother"), Some("father"), Some("guardian")}
  }

  /** The record that spells a student out, column by column. */
  function SpellStudent(r: StudentRow): Record
  {
    map["id" := r.id, "last_name" := r.data.last, "first_name" := r.data.first, "middle_name" := Deref(r.data.middle),
        "email" := Deref(r.data.email), "phone" := Deref(r.data.phone),
        "birth_date" := if r.data.birth.Some? then Format(r.data.birth.value) else ""]
  }

  function SpellGuardian(r: GuardianRow): Record
  {
    map["id" := r.id, "last_name" := r.data.last, "first_name" := r.data.first, "middle_name" := Deref(r.data.middle),
        "email" := Deref(r.data.email), "phone" := Deref(r.data.phone), "relation_type" := Deref(r.data.relation)]
  }

  lemma ColumnIsTrimmed(rec: Record, name: string)
    ensures TrimSpace(Column(rec, name)) == Column(rec, name) && Trimmed(Column(rec, name))
  {
    TrimTwice(if name in rec then rec[name] else "");
    TrimmedIff(Column(rec, name));
  }

  lemma UuidIsTrimmed(s: string)
    requires IsUuid(s)
    ensures Trimmed(s) && TrimSpace(s) == s
  {
    TrimmedIff(s);
  }

  lemma PrintedIsTrimmed(d: Date)
    requires 0 <= d.year <= 9999
    ensures Trimmed(Format(d)) && TrimSpace(Format(d)) == Format(d) && Format(d) != ""
  {
    ParseIffFormatted(Format(d), d);
    TrimmedIff(Format(d));
  }

  lemma TextAccepted(t: string, o: Option<string>)
    requires TrimSpace(t) == t && Trimmed(t)
    ensures OptStr(t) == o <==> t == Deref(o) && (o.Some? ==> Filled(o.value))
  {
  }

  lemma EmailAccepted(t: string, o: Option<string>)
    requires TrimSpace(t) == t && Trimmed(t)
    ensures OptEmail(t) == Ok(o) <==> t == Deref(o) && (o.Some? ==> Filled(o.value) && MatchesEmail(o.value))
  {
  }

  lemma PhoneAccepted(t: string, o: Option<string>)
    requires TrimSpace(t) == t && Trimmed(t)
    ensures OptPhone(t) == Ok(o) <==> t == Deref(o) && (o.Some? ==> Filled(o.value) && |DigitsOf(o.value)| >= 10)
  {
  }

  lemma DateAccepted(t: string, o: Option<Date>)
    requires TrimSpace(t) == t && Trimmed(t)
    ensures OptDate(t) == Ok(o)
            <==> match o
                 case None => t == ""
                 case Some(d) => t == Format(d) && 0 <= d.year <= 9999
  {
    if o.Some? {
      ParseIffFormatted(t, o.value);
      if 0 <= o.value.year <= 9999 {
        PrintedIsTrimmed(o.value);
      }
    }
  }

  /** The columns that students and guardians share, as validation reads them and as the contents of a row. */
  lemma SharedAccepted(rec: Record, middle: Option<string>, email: Option<string>, phone: Option<string>)
    ensures && OptStr(Column(rec, "middle_name")) == middle
            && OptEmail(Column(rec, "email")) == Ok(email) && OptPhone(Column(rec, "phone")) == Ok(phone)
            <==>
            && StorableContact(middle, email, phone) && Column(rec, "middle_name") == Deref(middle)
            && Column(rec, "email") == Deref(email) && Column(rec, "phone") == Deref(phone)
  {
    ColumnIsTrimmed(rec, "middle_name");
    ColumnIsTrimmed(rec, "email");
    ColumnIsTrimmed(rec, "phone");
    TextAccepted(Column(rec, "middle_name"), middle);
    EmailAccepted(Column(rec, "email"), email);
    PhoneAccepted(Column(rec, "phone"), phone);
  }

  /** The id and the names, in both directions. */
  ghost predicate Named(rec: Record, id: string, last: string, first: string)
  {
    Column(rec, "id") == id && Column(rec, "last_name") == last && Column(rec, "first_name") == first
  }

  lemma NamesAreFilled(rec: Record, id: string, last: string, first: string)
    requires Named(rec, id, last, first)
    ensures last != "" <==> Filled(last)
    ensures first != "" <==> Filled(first)
  {
    ColumnIsTrimmed(rec, "last_name");
    ColumnIsTrimmed(rec, "first_name");
  }

  ghost predicate Contact(rec: Record, middle: Option<string>, email: Option<string>, phone: Option<string>)
  {
    && Column(rec, "middle_name") == Deref(middle) && Column(rec, "email") == Deref(email)
    && Column(rec, "phone") == Deref(phone)
  }

  /** The record has the contents of the row in its columns, white space around them aside. */
  ghost predicate SpellsStudent(rec: Record, row: StudentRow)
  {
    && Named(rec, row.id, row.data.last, row.data.first)
    && Contact(rec, row.data.middle, row.data.email, row.data.phone)
    && Column(rec, "birth_date") == if row.data.birth.Some? then Format(row.data.birth.value) else ""
  }

  /** For guardians the relation may be in any case. */
  ghost predicate SpellsGuardian(rec: Record, row: GuardianRow)
  {
    && Named(rec, row.id, row.data.last, row.data.first)
    && Contact(rec, row.data.middle, row.data.email, row.data.phone)
    && Some(Lower(Column(rec, "relation_type"))) == row.data.relation
  }

  /** The verdict from the verdicts on the columns. */
  lemma StudentVerdict(rec: Record, row: StudentRow)
    ensures ValidateStudent(rec) == Ok(row)
            <==>
            && IsUuid(row.id) && row.data.last != "" && row.data.first != ""
            && Named(rec, row.id, row.data.last, row.data.first)
            && OptStr(Column(rec, "middle_name")) == row.data.middle
            && OptEmail(Column(rec, "email")) == Ok(row.data.email)
            && OptPhone(Column(rec, "phone")) == Ok(row.data.phone)
            && OptDate(Column(rec, "birth_date")) == Ok(row.data.birth)
  {
  }

  lemma GuardianVerdict(rec: Record, row: GuardianRow)
    ensures ValidateGuardian(rec) == Ok(row)
            <==>
            && IsUuid(row.id) && row.data.last != "" && row.data.first != ""
            && Named(rec, row.id, row.data.last, row.data.first)
            && OptStr(Column(rec, "middle_name")) == row.data.middle
            && OptEmail(Column(rec, "email")) == Ok(row.data.email)
            && OptPhone(Column(rec, "phone")) == Ok(row.data.phone)
            && Some(Lower(Column(rec, "relation_type"))) == row.data.relation
            && Lower(Column(rec, "relation_type")) in RELATION_TYPES
  {
  }

  /**
   Exactly which student a record is accepted as: one whose contents are in
   order, and whose texts are those of the record, column by column.
   */
  lemma StudentAccepted(rec: Record, row: StudentRow)
    ensures ValidateStudent(rec) == Ok(row) <==> StorableStudent(row) && SpellsStudent(rec, row)
  {
    StudentVerdict(rec, row);
    SharedAccepted(rec, row.data.middle, row.data.email, row.data.phone);
    ColumnIsTrimmed(rec, "birth_date");
    DateAccepted(Column(rec, "birth_date"), row.data.birth);
    if Named(rec, row.id, row.data.last, row.data.first) {
      NamesAreFilled(rec, row.id, row.data.last, row.data.first);
    }
  }

  /** The same for guardians. */
  lemma GuardianAccepted(rec: Record, row: GuardianRow)
    ensures ValidateGuardian(rec) == Ok(row) <==> StorableGuardian(row) && SpellsGuardian(rec, row)
  {
    GuardianVerdict(rec, row);
    SharedAccepted(rec, row.data.middle, row.data.email, row.data.phone);
    if Named(rec, row.id, row.data.last, row.data.first) {
      NamesAreFilled(rec, row.id, row.data.last, row.data.first);
    }
  }

  /** Round trip: a student in order, spelled out as a record, is accepted as just that student. */
  lemma StudentRoundTrip(row: StudentRow)
    requires StorableStudent(row)
    ensures ValidateStudent(SpellStudent(row)) == Ok(row)
  {
    StudentStays(row);
    StudentAccepted(SpellStudent(row), row);
  }

  lemma GuardianRoundTrip(row: GuardianRow)
    requires StorableGuardian(row)
    ensures ValidateGuardian(SpellGuardian(row)) == Ok(row)
  {
    GuardianStays(row);
    GuardianAccepted(SpellGuardian(row), row);
  }

  /** Reading the columns of a spelled out student gives back its contents. */
  lemma StudentStays(row: StudentRow)
    requires StorableStudent(row)
    ensures SpellsStudent(SpellStudent(row), row)
  {
    UuidIsTrimmed(row.id);
    NamesStay(row.data.last, row.data.first);
    ContactStays(row.data.middle, row.data.email, row.data.phone);
    if row.data.birth.Some? {
      PrintedIsTrimmed(row.data.birth.value);
    }
  }

  lemma GuardianStays(row: GuardianRow)
    requires StorableGuardian(row)
    ensures SpellsGuardian(SpellGuardian(row), row)
  {
    UuidIsTrimmed(row.id);
    NamesStay(row.data.last, row.data.first);
    ContactStays(row.data.middle, row.data.email, row.data.phone);
    RelationStays(row.data.relation.value);
  }

  lemma RelationStays(r: string)
    requires r in RELATION_TYPES
    ensures Lower(TrimSpace(r)) == r
  {
  }

  lemma NamesStay(last: string, first: string)
    requires Trimmed(last) && Trimmed(first)
    ensures TrimSpace(last) == last && TrimSpace(first) == first
  {
    TrimmedIff(last);
    TrimmedIff(first);
  }

  lemma ContactStays(middle: Option<string>, email: Option<string>, phone: Option<string>)
    requires StorableContact(middle, email, phone)
    ensures TrimSpace(Deref(middle)) == Deref(middle) && TrimSpace(Deref(email)) == Deref(email)
    ensures TrimSpace(Deref(phone)) == Deref(phone)
  {
    TrimmedIff(Deref(middle));
    TrimmedIff(Deref(email));
    TrimmedIff(Deref(phone));
  }

  // ── The email pattern in plain words ───────────────────────────────────

  /** One "@" with text before it, no blanks, and a dot strictly inside the domain. */
  ghost predicate EmailShape(v: string)
  {
    exists at ::
      && 0 < at < |v|
      && v[at] == '@'
      && (forall i :: 0 <= i < |v| ==> !IsBlank(v[i]) && (v[i] == '@' ==> i == at))
      && (exists dot :: at + 1 < dot < |v| - 1 && v[dot] == '.')
  }

  lemma EmailPatternShape(v: string)
    ensures MatchesEmail(v) <==> EmailShape(v)
  {
    if MatchesEmail(v) {
      PatternGivesShape(v);
    }
    if EmailShape(v) {
      ShapeGivesPattern(v);
    }
  }

  lemma PatternGivesShape(v: string)
    requires MatchesEmail(v)
    ensures EmailShape(v)
  {
    var at, dot :|
      0 <= at < |v| && at < dot < |v| && v[at] == '@' && v[dot] == '.'
      && Plain(v[..at]) && Plain(v[at + 1..dot]) && Plain(v[dot + 1..]);
    assert at + 1 < dot < |v| - 1;
    forall i | 0 <= i < |v| ensures !IsBlank(v[i]) && (v[i] == '@' ==> i == at) {
      if i < at {
        assert v[..at][i] == v[i];
      } else if at < i < dot {
        assert v[at + 1..dot][i - at - 1] == v[i];
      } else if dot < i {
        assert v[dot + 1..][i - dot - 1] == v[i];
      }
    }
  }

  lemma ShapeGivesPattern(v: string)
    requires EmailShape(v)
    ensures MatchesEmail(v)
  {
  }

  // ── What a fault means ─────────────────────────────────────────────────

  /** The named column of the record is at fault. */
  ghost predicate AtFault(rec: Record, f: Fault)
  {
    match f
    case InvalidId => !IsUuid(Column(rec, "id"))
    case MissingLastName => Column(rec, "last_name") == ""
    case MissingFirstName => Column(rec, "first_name") == ""
    case InvalidRelation => Lower(Column(rec, "relation_type")) !in {"mother", "father", "guardian"}
    case InvalidEmail => Column(rec, "email") != "" && !EmailShape(Column(rec, "email"))
    case InvalidPhone => Column(rec, "phone") != "" && |DigitsOf(Column(rec, "phone"))| < 10
    case InvalidBirthDate =>
      && Column(rec, "birth_date") != ""
      && forall d: Date :: 0 <= d.year <= 9999 ==> Column(rec, "birth_date") != Format(d)
    case _ => false
  }

  lemma ContactFaults(rec: Record)
    ensures OptEmail(Column(rec, "email")).Err? ==>
              OptEmail(Column(rec, "email")).error == InvalidEmail && AtFault(rec, InvalidEmail)
    ensures OptPhone(Column(rec, "phone")).Err? ==>
              OptPhone(Column(rec, "phone")).error == InvalidPhone && AtFault(rec, InvalidPhone)
  {
    ColumnIsTrimmed(rec, "email");
    ColumnIsTrimmed(rec, "phone");
    EmailPatternShape(Column(rec, "email"));
  }

  lemma BirthFaults(rec: Record)
    ensures OptDate(Column(rec, "birth_date")).Err? ==>
              OptDate(Column(rec, "birth_date")).error == InvalidBirthDate && AtFault(rec, InvalidBirthDate)
  {
    ColumnIsTrimmed(rec, "birth_date");
    forall d: Date | 0 <= d.year <= 9999 && Column(rec, "birth_date") == Format(d)
      ensures Parse(Column(rec, "birth_date")) == Some(d)
    {
      ParseIffFormatted(Column(rec, "birth_date"), d);
    }
  }

  /** A rejected student is rejected for a column that is at fault. */
  lemma StudentFaultIsReal(rec: Record)
    requires ValidateStudent(rec).Err?
    ensures AtFault(rec, ValidateStudent(rec).error)
  {
    ContactFaults(rec);
    BirthFaults(rec);
  }

  lemma GuardianFaultIsReal(rec: Record)
    requires ValidateGuardian(rec).Err?
    ensures AtFault(rec, ValidateGuardian(rec).error)
  {
    ContactFaults(rec);
  }

  // ── Validation meets masking ───────────────────────────────────────────

  /** What a mask may depend on: the text behind the last dot of the domain. */
  function TopLevel(v: string): string
  {
    v[LastIndex(v, '.') + 1..]
  }

  /** Where the mask cuts a well-shaped email. */
  lemma ShapeCuts(v: string)
    requires EmailShape(v)
    ensures LastIndex(v, '@') > 0
    ensures LastIndex(v[LastIndex(v, '@') + 1..], '.') >= 0
  {
  }

  lemma TopLevelOfDomain(v: string)
    requires LastIndex(v, '@') > 0 && LastIndex(v[LastIndex(v, '@') + 1..], '.') >= 0
    ensures var domain := v[LastIndex(v, '@') + 1..]; TopLevel(v) == domain[LastIndex(domain, '.') + 1..]
  {
  }

  /** The first character, and the top-level domain where there is one. */
  function PlainMask(first: char, top: string): string
  {
    if top == "" then [first] + "***@***" else [first] + "***@***." + top
  }

  /** The mask of a text with an "@" that is not in front and a dot behind it. */
  lemma MaskByCuts(v: string)
    requires LastIndex(v, '@') > 0 && LastIndex(v[LastIndex(v, '@') + 1..], '.') >= 0
    ensures MaskEmail(v) == PlainMask(v[0], TopLevel(v))
  {
    var domain := v[LastIndex(v, '@') + 1..];
    var top := domain[LastIndex(domain, '.') + 1..];
    TopLevelOfDomain(v);
    assert MaskEmail(v) == PlainMask(v[0], top) by {
      assert |top| == |domain| - LastIndex(domain, '.') - 1;
    }
  }

  /**
   An email that passed validation never masks to the bare "***"; its mask is a
   function of its first character and of the text behind its last dot, which is
   shown exactly when that text is not empty.
   */
  lemma ValidEmailMask(v: string)
    requires MatchesEmail(v)
    ensures v != "" && MaskEmail(v) == PlainMask(v[0], TopLevel(v))
    ensures MaskEmail(v) != "***"
  {
    PatternGivesShape(v);
    ShapeCuts(v);
    MaskByCuts(v);
    assert |MaskEmail(v)| > 3;
  }

  /** Valid emails have the same mask exactly when they agree in these two parts. */
  lemma MaskHidesTheRest(v: string, w: string)
    requires MatchesEmail(v) && MatchesEmail(w)
    ensures MaskEmail(v) == MaskEmail(w) <==> v[0] == w[0] && TopLevel(v) == TopLevel(w)
  {
    ValidEmailMask(v);
    ValidEmailMask(w);
    PlainMaskTells(v[0], TopLevel(v), w[0], TopLevel(w));
  }

  lemma PlainMaskTells(a: char, s: string, b: char, t: string)
    ensures PlainMask(a, s) == PlainMask(b, t) <==> a == b && s == t
  {
    var p, q := PlainMask(a, s), PlainMask(b, t);
    assert p[0] == a && q[0] == b;
    if s != "" && t != "" {
      assert p[9..] == s && q[9..] == t;
    }
  }

  /** An email column holds nothing, or a text that the mask treats as an address. */
  lemma StoredEmailIsMaskable(v: string)
    requires OptEmail(v).Ok? && OptEmail(v).value.Some?
    ensures MaskEmail(OptEmail(v).value.value) != "***"
  {
  }

  /** A stored phone always shows its last two digits. */
  lemma StoredPhoneIsMaskable(v: string)
    requires OptPhone(v).Ok? && OptPhone(v).value.Some?
    ensures var d := DigitsOf(OptPhone(v).value.value);
            |d| >= 10 && PhoneMask(OptPhone(v).value.value) == PHONE_MASK + d[|d| - 2..]
  {
  }

  /** A stored birth date is a real day of a four-digit year and lies in its own band. */
  lemma StoredBirthIsInBand(v: string)
    requires OptDate(v).Ok? && OptDate(v).value.Some?
    ensures var d := OptDate(v).value.value;
            && Format(d) == TrimSpace(v)
            && 0 <= BandStart(d.year) <= d.year < BandStart(d.year) + BIRTH_BAND_SIZE
  {
    ParseIffFormatted(TrimSpace(v), OptDate(v).value.value);
    ImportedDateInItsBand(TrimSpace(v));
  }

  /** Every student row that validation lets through can be masked and generalized as intended. */
  lemma StoredStudentIsMaskable(rec: Record, row: StudentRow)
    requires ValidateStudent(rec) == Ok(row)
    ensures IsUuid(row.id) && row.data.last != "" && row.data.first != ""
    ensures row.data.email.Some? ==> MaskEmail(row.data.email.value) != "***"
    ensures row.data.phone.Some? ==> |DigitsOf(row.data.phone.value)| >= 10
    ensures row.data.birth.Some? ==>
              var year := row.data.birth.value.year;
              0 <= BandStart(year) <= year < BandStart(year) + BIRTH_BAND_SIZE
  {
    if row.data.email.Some? {
      StoredEmailIsMaskable(Column(rec, "email"));
    }
    if row.data.phone.Some? {
      StoredPhoneIsMaskable(Column(rec, "phone"));
    }
    if row.data.birth.Some? {
      StoredBirthIsInBand(Column(rec, "birth_date"));
    }
  }

  /** The number that a hex digit stands for; -1 for a dash. */
  function HexValue(c: char): int
  {
    if '0' <= c <= '9' then c as int - '0' as int
    else if 'a' <= c <= 'f' then c as int - 'a' as int + 10
    else if 'A' <= c <= 'F' then c as int - 'A' as int + 10
    else -1
  }

  /** Two ids name one row exactly when they are the same number, whatever the case of their digits. */
  lemma CanonComparesValues(a: string, b: string)
    requires IsUuid(a) && IsUuid(b)
    ensures Canon(a) == Canon(b) <==> forall i :: 0 <= i < 36 ==> HexValue(a[i]) == HexValue(b[i])
    ensures IsUuid(Canon(a)) && Canon(Canon(a)) == Canon(a)
  {
    forall i | 0 <= i < 36 ensures Canon(a)[i] == Canon(b)[i] <==> HexValue(a[i]) == HexValue(b[i]) {
      LowerComparesValues(a[i], b[i]);
    }
    if forall i :: 0 <= i < 36 ==> HexValue(a[i]) == HexValue(b[i]) {
      assert Canon(a) == Canon(b);
    }
  }

  lemma LowerComparesValues(a: char, b: char)
    requires (IsHex(a) || a == '-') && (IsHex(b) || b == '-')
    ensures LowerChar(a) == LowerChar(b) <==> HexValue(a) == HexValue(b)
  {
  }
}
