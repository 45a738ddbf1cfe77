/**
 The two modes of the anonymize job (worker/internal/anonymizer/anonymizer.go):
 reversible pseudonymization through the vault, and irreversible masking
 measured by k-anonymity.
 */
module Anonymizer {
  import opened Text
  import opened Dates
  import opened Records
  import opened Vault
  import opened Columns
  import opened Cells
  import opened Tokenizer
  import opened Jobs
  import opened Storage
  import opened Progress
  import opened Ordering
  import opened KAnonymity
  import opened Transform

  type CsvRow = seq<string>

  function Entities(students: seq<StudentRow>): (es: seq<Entity>)
    ensures |es| == |students|
  {
    seq(|students|, i requires 0 <= i < |students| => StudentEntity(students[i]))
  }

  function GuardianEntities(guardians: seq<GuardianRow>): (es: seq<Entity>)
    ensures |es| == |guardians|
  {
    seq(|guardians|, i requires 0 <= i < |guardians| => GuardianEntity(guardians[i]))
  }

  // ── Quasi-identifiers ──────────────────────────────────────────────────

  function BirthKey(d: StudentData, generalized: bool): string
  {
    match d.birth
    case None => "*"
    case Some(day) => if generalized then GeneralizeBirth(day) else Format(day)
  }

  function BirthColumn(students: seq<StudentRow>, generalized: bool): (keys: seq<string>)
    ensures |keys| == |students|
  {
    seq(|students|, i requires 0 <= i < |students| => BirthKey(students[i].data, generalized))
  }

  /** `birthKeys`: one key per student. */
  method BirthKeys(students: seq<StudentRow>, generalized: bool) returns (keys: seq<string>)
    ensures keys == BirthColumn(students, generalized)
  {
    keys := [];
    for i := 0 to |students|
      invariant |keys| == i
      invariant forall j :: 0 <= j < i ==> keys[j] == BirthKey(students[j].data, generalized)
    {
      match students[i].data.birth {
        case None => keys := keys + ["*"];
        case Some(day) => keys := keys + [if generalized then GeneralizeBirth(day) else Format(day)];
      }
    }
  }

  /** A suppressed date is a class of its own: no printed date and no band label looks like it. */
  lemma SuppressionIsItsOwnClass(d: Date)
    ensures Format(d) != "*" && GeneralizeBirth(d) != "*"
  {
  }

  /** The exact date decides the band, for every list of students. */
  lemma BandsCoarsenDates(students: seq<StudentRow>)
    ensures Coarsens(BirthColumn(students, false), BirthColumn(students, true))
  {
    var fine, coarse := BirthColumn(students, false), BirthColumn(students, true);
    forall i, j | 0 <= i < |fine| && 0 <= j < |fine| && fine[i] == fine[j] ensures coarse[i] == coarse[j] {
      var a, b := students[i].data.birth, students[j].data.birth;
      if a.Some? {
        SuppressionIsItsOwnClass(a.value);
      }
      if b.Some? {
        SuppressionIsItsOwnClass(b.value);
      }
      if a.Some? && b.Some? {
        FormatInjective(a.value, b.value);
      }
    }
  }

  /** Five-year bands never have a smaller k than exact dates, and never more classes. */
  lemma GeneralizationNeverLowersK(students: seq<StudentRow>, exact: nat, banded: nat)
    requires IsK(BirthColumn(students, false), exact) && IsK(BirthColumn(students, true), banded)
    ensures exact <= banded
    ensures |Classes(BirthColumn(students, true))| <= |Classes(BirthColumn(students, false))|
  {
    BandsCoarsenDates(students);
    CoarseningNeverLowersK(BirthColumn(students, false), BirthColumn(students, true), exact, banded);
  }

  // ── pseudonymize ───────────────────────────────────────────────────────

  /** The verdict of the run's own reversibility check. */
  datatype Check = NoToken | Verified(token: string) | NotFound | Mismatch | Unreadable

  datatype PseudoReport = PseudoReport(
    input: nat, output: nat, fields: seq<Field>, mappings: nat, check: Check, kAnonymity: Option<KReport>)

  /** The student whose email the check samples: the first one that has any. */
  ghost predicate IsSample(es: seq<Entity>, i: nat)
  {
    && i < |es| && Tokenizable(es[i].value(Email))
    && forall j :: 0 <= j < i ==> !Tokenizable(es[j].value(Email))
  }

  method FindSample(es: seq<Entity>) returns (sample: Option<nat>)
    ensures sample.Some? ==> IsSample(es, sample.value)
    ensures sample.None? <==> !SomeoneHas(es, Email)
  {
    for i := 0 to |es|
      invariant forall j :: 0 <= j < i ==> !Tokenizable(es[j].value(Email))
    {
      if Tokenizable(es[i].value(Email)) {
        return Some(i);
      }
    }
    sample := None;
  }

  /** `verifyReversible`: without a token there is nothing to look up. */
  method VerifyReversible(store: Store, token: string, original: string) returns (c: Check)
    ensures token == "" ==> c == NoToken
    ensures token != "" ==>
              exists r :: MayRestore(store.Tables(), store.pseudonyms, token, r) && c == Judge(r, token, original)
    ensures c.Verified? ==>
              c.token == token != "" && MayRestore(store.Tables(), store.pseudonyms, token, Found(original))
    ensures c.Mismatch? ==>
              exists v :: MayRestore(store.Tables(), store.pseudonyms, token, Found(v)) && v != original
    ensures c.NotFound? <==> token != "" && forall key :: !Matches(store.pseudonyms, key, token)
  {
    if token == "" {
      return NoToken;
    }
    var r := store.RestorePseudonym(token);
    c := Judge(r, token, original);
  }

  function Judge(r: Restored, token: string, original: string): Check
  {
    match r
    case Unknown => NotFound
    case NoSuchRow => Unreadable
    case Found(v) => if v == original then Verified(token) else Mismatch
  }

  function PseudoStudentRow(m: PseudonymMap, r: StudentRow): CsvRow
  {
    [r.id] + OutputCells(m, StudentEntity(r), FIELDS) + [match r.data.birth case None => "" case Some(d) => Format(d)]
  }

  function PseudoGuardianRow(m: PseudonymMap, r: GuardianRow): CsvRow
  {
    [r.id] + OutputCells(m, GuardianEntity(r), FIELDS) + [Deref(r.data.relation)]
  }

  lemma FieldsDistinct()
    ensures NoDuplicates(FIELDS) && forall f: Field :: f in FIELDS
  {
    forall f: Field ensures f in FIELDS {
      assert FIELDS[Rank(f)] == f;
    }
  }

  /** The reported field names: exactly the tokenized ones, in column order. */
  ghost predicate FieldsReported(fields: seq<Field>, es: seq<Entity>)
  {
    Sorted(fields, RankBefore) && forall f :: f in fields <==> SomeoneHas(es, f)
  }

  /** Tokens that are real, differ from each other, and are drawn anew. */
  ghost predicate SoundTokens(m: PseudonymMap, draws: seq<string>)
  {
    RealTokens(m, draws) && TokensDistinct(m) && FreshDraws(m, draws)
  }

  /** After the upserts every non-empty field of a person is mapped, and the tokens are as sound as before. */
  lemma FieldIsMapped(m: PseudonymMap, es: seq<Entity>, draws: seq<string>, i: nat, f: Field)
    requires i < |es| && |AllCells(es, FIELDS)| <= |draws| && Tokenizable(es[i].value(f))
    ensures Key(es[i].kind, es[i].id, f) in UpsertAll(m, AllCells(es, FIELDS), draws)
    ensures Key(es[i].kind, es[i].id, f) in Keys(AllCells(es, FIELDS))
  {
    TokensAreWriteOnce(m, AllCells(es, FIELDS), draws);
    FieldsDistinct();
    EntityCellsKeys(es[i], FIELDS, f);
    CellsCoverEntities(es, FIELDS, i);
  }

  lemma TokensStaySound(m: PseudonymMap, cells: seq<Cell>, draws: seq<string>)
    requires |cells| <= |draws| && SoundTokens(m, draws)
    ensures TokensDistinct(UpsertAll(m, cells, draws)) && RealTokens(UpsertAll(m, cells, draws), draws)
  {
    DistinctKept(m, cells, draws);
    RealTokensKept(m, cells, draws);
  }

  /** Right after the upserts, the cell of any field of a loaded student restores to the value of the field. */
  lemma FieldRestores(core: Core, m: PseudonymMap, students: seq<StudentRow>, draws: seq<string>, i: nat, f: Field)
    requires LoadedFrom(students, core.students) && i < |students| && SoundTokens(m, draws)
    requires |AllCells(Entities(students), FIELDS)| <= |draws|
    ensures var m' := UpsertAll(m, AllCells(Entities(students), FIELDS), draws);
            var v := StudentValue(students[i].data, f);
            Restores(core, m', OutputCell(m', Key(Student, students[i].id, f), v), v)
  {
    var es, key, v := Entities(students), Key(Student, students[i].id, f), StudentValue(students[i].data, f);
    var m' := UpsertAll(m, AllCells(es, FIELDS), draws);
    if Tokenizable(v) {
      FieldIsMapped(m, es, draws, i, f);
      TokensStaySound(m, AllCells(es, FIELDS), draws);
      assert Matches(m', key, m'[key].token) && Decrypted(core, key) == Found(v.value);
      forall r | MayRestore(core, m', m'[key].token, r) ensures r == Found(v.value) {
        RestoreIsInverse(core, m', key, r);
      }
    }
  }

  /** The fields of a student in column order. */
  lemma StudentColumns(m: PseudonymMap, r: StudentRow)
    ensures var row := PseudoStudentRow(m, r);
            && |row| == 7 && row[0] == r.id
            && row[1] == OutputCell(m, Key(Student, r.id, LastName), Some(r.data.last))
            && row[2] == OutputCell(m, Key(Student, r.id, FirstName), Some(r.data.first))
            && row[3] == OutputCell(m, Key(Student, r.id, MiddleName), r.data.middle)
            && row[4] == OutputCell(m, Key(Student, r.id, Email), r.data.email)
            && row[5] == OutputCell(m, Key(Student, r.id, Phone), r.data.phone)
            && row[6] == match r.data.birth case None => "" case Some(d) => Format(d)
  {
  }

  lemma NamesRestore(core: Core, m: PseudonymMap, students: seq<StudentRow>, draws: seq<string>, i: nat)
    requires LoadedFrom(students, core.students) && i < |students| && SoundTokens(m, draws)
    requires |AllCells(Entities(students), FIELDS)| <= |draws|
    ensures var m' := UpsertAll(m, AllCells(Entities(students), FIELDS), draws);
            var row, d := PseudoStudentRow(m', students[i]), students[i].data;
            && |row| == 7 && Restores(core, m', row[1], Some(d.last)) && Restores(core, m', row[2], Some(d.first))
            && Restores(core, m', row[3], d.middle)
  {
    StudentColumns(UpsertAll(m, AllCells(Entities(students), FIELDS), draws), students[i]);
    FieldRestores(core, m, students, draws, i, LastName);
    FieldRestores(core, m, students, draws, i, FirstName);
    FieldRestores(core, m, students, draws, i, MiddleName);
  }

  lemma ContactRestores(core: Core, m: PseudonymMap, students: seq<StudentRow>, draws: seq<string>, i: nat)
    requires LoadedFrom(students, core.students) && i < |students| && SoundTokens(m, draws)
    requires |AllCells(Entities(students), FIELDS)| <= |draws|
    ensures var m' := UpsertAll(m, AllCells(Entities(students), FIELDS), draws);
            var row, d := PseudoStudentRow(m', students[i]), students[i].data;
            |row| == 7 && Restores(core, m', row[4], d.email) && Restores(core, m', row[5], d.phone)
  {
    StudentColumns(UpsertAll(m, AllCells(Entities(students), FIELDS), draws), students[i]);
    FieldRestores(core, m, students, draws, i, Email);
    FieldRestores(core, m, students, draws, i, Phone);
  }

  /** Every row of the students' file, column by column. */
  lemma StudentRowTells(core: Core, m: PseudonymMap, students: seq<StudentRow>, draws: seq<string>, i: nat)
    requires LoadedFrom(students, core.students) && i < |students| && SoundTokens(m, draws)
    requires |AllCells(Entities(students), FIELDS)| <= |draws|
    ensures var m' := UpsertAll(m, AllCells(Entities(students), FIELDS), draws);
            TellsStudent(core, m', PseudoStudentRow(m', students[i]), students[i])
  {
    StudentColumns(UpsertAll(m, AllCells(Entities(students), FIELDS), draws), students[i]);
    NamesRestore(core, m, students, draws, i);
    ContactRestores(core, m, students, draws, i);
  }

  /** All cells about one field of a loaded guardian hold its value. */
  lemma GuardianCellsAgree(guardians: seq<GuardianRow>, t: map<Uuid, GuardianData>, i: nat, c: Cell)
    requires LoadedFrom(guardians, t) && i < |guardians|
    requires c in AllCells(GuardianEntities(guardians), FIELDS) && c.key.id == guardians[i].id
    ensures GuardianValue(guardians[i].data, c.key.field) == Some(c.value)
  {
    var es := GuardianEntities(guardians);
    CellFromEntity(es, FIELDS, c);
    var j :| 0 <= j < |es| && c in EntityCells(es[j], FIELDS);
    EntityCellsMeaning(es[j], FIELDS, c);
  }

  /** Right after the upserts, the cell of any field of a loaded guardian stands for the value of the field. */
  lemma FieldStands(core: Core, m: PseudonymMap, guardians: seq<GuardianRow>, draws: seq<string>, i: nat, f: Field)
    requires LoadedFrom(guardians, core.guardians) && i < |guardians| && SoundTokens(m, draws)
    requires |AllCells(GuardianEntities(guardians), FIELDS)| <= |draws|
    ensures var m' := UpsertAll(m, AllCells(GuardianEntities(guardians), FIELDS), draws);
            var v := GuardianValue(guardians[i].data, f);
            StandsFor(core, m', OutputCell(m', Key(Guardian, guardians[i].id, f), v), guardians[i].id, f, v)
  {
    var es, key := GuardianEntities(guardians), Key(Guardian, guardians[i].id, f);
    var cells, v := AllCells(es, FIELDS), GuardianValue(guardians[i].data, f);
    var m' := UpsertAll(m, cells, draws);
    if Tokenizable(v) {
      FieldIsMapped(m, es, draws, i, f);
      TokensStaySound(m, cells, draws);
      forall c | c in cells && c.key == key ensures c.value == v.value {
        GuardianCellsAgree(guardians, core.guardians, i, c);
      }
      HashIsOf(m, cells, draws, key, v.value);
    }
  }

  lemma GuardianColumns(m: PseudonymMap, r: GuardianRow)
    ensures var row := PseudoGuardianRow(m, r);
            && |row| == 7 && row[0] == r.id
            && row[1] == OutputCell(m, Key(Guardian, r.id, LastName), Some(r.data.last))
            && row[2] == OutputCell(m, Key(Guardian, r.id, FirstName), Some(r.data.first))
            && row[3] == OutputCell(m, Key(Guardian, r.id, MiddleName), r.data.middle)
            && row[4] == OutputCell(m, Key(Guardian, r.id, Email), r.data.email)
            && row[5] == OutputCell(m, Key(Guardian, r.id, Phone), r.data.phone)
            && row[6] == match r.data.relation case None => "" case Some(v) => v
  {
  }

  /** Every row of the guardians' file, column by column. */
  lemma GuardianRowTells(core: Core, m: PseudonymMap, guardians: seq<GuardianRow>, draws: seq<string>, i: nat)
    requires LoadedFrom(guardians, core.guardians) && i < |guardians| && SoundTokens(m, draws)
    requires |AllCells(GuardianEntities(guardians), FIELDS)| <= |draws|
    ensures var m' := UpsertAll(m, AllCells(GuardianEntities(guardians), FIELDS), draws);
            TellsGuardian(core, m', PseudoGuardianRow(m', guardians[i]), guardians[i])
  {
    var m' := UpsertAll(m, AllCells(GuardianEntities(guardians), FIELDS), draws);
    GuardianColumns(m', guardians[i]);
    FieldStands(core, m, guardians, draws, i, LastName);
    FieldStands(core, m, guardians, draws, i, FirstName);
    FieldStands(core, m, guardians, draws, i, MiddleName);
    FieldStands(core, m, guardians, draws, i, Email);
    FieldStands(core, m, guardians, draws, i, Phone);
  }

  /** The output rows, from the tokens in force. */
  method StudentRows(students: seq<StudentRow>, ghost m: PseudonymMap, cells: seq<seq<string>>)
    returns (rows: seq<CsvRow>)
    requires |cells| == |students|
    requires forall i :: 0 <= i < |students| ==> cells[i] == OutputCells(m, StudentEntity(students[i]), FIELDS)
    ensures |rows| == |students| && forall i :: 0 <= i < |rows| ==> rows[i] == PseudoStudentRow(m, students[i])
  {
    rows := [];
    for i := 0 to |students|
      invariant |rows| == i
      invariant forall j :: 0 <= j < i ==> rows[j] == PseudoStudentRow(m, students[j])
    {
      var birth := match students[i].data.birth case None => "" case Some(d) => Format(d);
      rows := rows + [[students[i].id] + cells[i] + [birth]];
    }
  }

  method GuardianRows(guardians: seq<GuardianRow>, ghost m: PseudonymMap, cells: seq<seq<string>>)
    returns (rows: seq<CsvRow>)
    requires |cells| == |guardians|
    requires forall i :: 0 <= i < |guardians| ==> cells[i] == OutputCells(m, GuardianEntity(guardians[i]), FIELDS)
    ensures |rows| == |guardians| && forall i :: 0 <= i < |rows| ==> rows[i] == PseudoGuardianRow(m, guardians[i])
  {
    rows := [];
    for i := 0 to |guardians|
      invariant |rows| == i
      invariant forall j :: 0 <= j < i ==> rows[j] == PseudoGuardianRow(m, guardians[j])
    {
      rows := rows + [[guardians[i].id] + cells[i] + [Deref(guardians[i].data.relation)]];
    }
  }

  /**
   `pseudonymizeStudents`. Every row is what the final map says about the
   student, the map has grown by the non-empty fields not mapped before, and,
   when the tokens drawn are fresh, the check comes out as verified whenever
   there was an email to sample. An error keeps the upserts before it.
   */
  method PseudonymizeStudents(store: Store, students: seq<StudentRow>, draws: seq<string>, outage: Outage)
    returns (rows: seq<CsvRow>, report: Option<PseudoReport>)
    requires |AllCells(Entities(students), FIELDS)| <= |draws|
    modifies store`pseudonyms
    ensures report.None? <==> Hits(outage, |AllCells(Entities(students), FIELDS)|)
    ensures report.None? ==>
              store.pseudonyms
              == UpsertAll(old(store.pseudonyms), AllCells(Entities(students), FIELDS)[..outage.value], draws)
    ensures report.Some? ==>
              && store.pseudonyms == UpsertAll(old(store.pseudonyms), AllCells(Entities(students), FIELDS), draws)
              && |rows| == |students| == report.value.input == report.value.output
              && (forall i :: 0 <= i < |rows| ==> rows[i] == PseudoStudentRow(store.pseudonyms, students[i]))
              && report.value.mappings == |AllCells(Entities(students), FIELDS)|
              && FieldsReported(report.value.fields, Entities(students))
              && report.value.kAnonymity.Some?
              && IsK(BirthColumn(students, false), report.value.kAnonymity.value.k)
    ensures report.Some? && RealTokens(old(store.pseudonyms), draws) ==>
              (report.value.check.NoToken? <==> !SomeoneHas(Entities(students), Email))
    ensures report.Some? && LoadedFrom(students, store.students) && SoundTokens(old(store.pseudonyms), draws) ==>
              && (SomeoneHas(Entities(students), Email) ==> report.value.check.Verified?)
              && forall i :: 0 <= i < |students| ==>
                   TellsStudent(store.Tables(), store.pseudonyms, rows[i], students[i])
  {
    FieldsDistinct();
    ghost var m := store.pseudonyms;
    var es := Entities(students);
    var cells, tokenized, writes, ok := TokenizeAll(store, es, FIELDS, draws, outage);
    if !ok {
      return [], None;
    }
    rows := StudentRows(students, store.pseudonyms, cells);
    var fields := SortedKeys(tokenized);
    var check := SelfCheck(store, students, m, draws, cells);
    var keys := BirthKeys(students, false);
    var k := KAnonReport(keys);
    report := Some(PseudoReport(|students|, |rows|, fields[..], writes, check, Some(k)));
    if LoadedFrom(students, store.students) && SoundTokens(m, draws) {
      forall i | 0 <= i < |students| ensures TellsStudent(store.Tables(), store.pseudonyms, rows[i], students[i]) {
        StudentRowTells(store.Tables(), m, students, draws, i);
      }
    }
  }

  ghost predicate FirstWithEmail(students: seq<StudentRow>, i: int)
  {
    && 0 <= i < |students| && !Missing(students[i].data.email)
    && forall j :: 0 <= j < i ==> Missing(students[j].data.email)
  }

  /** The check at the end of a student run: one sampled token, if any was emitted, is looked up again. */
  method SelfCheck(store: Store, students: seq<StudentRow>, ghost m: PseudonymMap, ghost draws: seq<string>,
                   cells: seq<seq<string>>)
    returns (check: Check)
    requires |AllCells(Entities(students), FIELDS)| <= |draws|
    requires store.pseudonyms == UpsertAll(m, AllCells(Entities(students), FIELDS), draws)
    requires |cells| == |students|
    requires forall i :: 0 <= i < |students| ==>
               cells[i] == OutputCells(store.pseudonyms, Entities(students)[i], FIELDS)
    ensures RealTokens(m, draws) ==> (check.NoToken? <==> !SomeoneHas(Entities(students), Email))
    ensures SomeoneHas(Entities(students), Email) && LoadedFrom(students, store.students) && SoundTokens(m, draws)
            ==> check.Verified?
    ensures check.Verified? ==>
              exists i :: FirstWithEmail(students, i) && |cells[i]| == 5 && check.token == cells[i][3]
                          && MayRestore(store.Tables(), store.pseudonyms, check.token,
                                        Found(students[i].data.email.value))
  {
    var es := Entities(students);
    var sample := FindSample(es);
    var token, original := "", "";
    if sample.Some? {
      assert FIELDS[3] == Email;
      token, original := cells[sample.value][3], StudentValue(students[sample.value].data, Email).value;
      SampleIsToken(m, students, draws, sample.value);
    }
    check := VerifyReversible(store, token, original);
    if sample.Some? {
      SampleIsFirst(students, sample.value);
    }
    if sample.Some? && LoadedFrom(students, store.students) && SoundTokens(m, draws) {
      FieldRestores(store.Tables(), m, students, draws, sample.value, Email);
    }
  }

  lemma SampleIsFirst(students: seq<StudentRow>, i: nat)
    requires IsSample(Entities(students), i)
    ensures FirstWithEmail(students, i) && StudentValue(students[i].data, Email) == students[i].data.email
  {
    forall j | 0 <= j < i ensures Missing(students[j].data.email) {
      assert !Tokenizable(Entities(students)[j].value(Email));
    }
  }

  /** The sampled cell holds a token that is in force. */
  lemma SampleIsToken(m: PseudonymMap, students: seq<StudentRow>, draws: seq<string>, i: nat)
    requires IsSample(Entities(students), i) && |AllCells(Entities(students), FIELDS)| <= |draws|
    ensures var m' := UpsertAll(m, AllCells(Entities(students), FIELDS), draws);
            var key := Key(Student, students[i].id, Email);
            && key in m' && OutputCell(m', key, StudentValue(students[i].data, Email)) == m'[key].token
            && (RealTokens(m, draws) ==> m'[key].token != "")
  {
    var es := Entities(students);
    TokensAreWriteOnce(m, AllCells(es, FIELDS), draws);
    FieldsDistinct();
    EntityCellsKeys(es[i], FIELDS, Email);
    CellsCoverEntities(es, FIELDS, i);
    if RealTokens(m, draws) {
      RealTokensKept(m, AllCells(es, FIELDS), draws);
    }
  }

  /** `pseudonymizeGuardians`: the same loop; no birth date, and no check. */
  method PseudonymizeGuardians(store: Store, guardians: seq<GuardianRow>, draws: seq<string>, outage: Outage)
    returns (rows: seq<CsvRow>, report: Option<PseudoReport>)
    requires |AllCells(GuardianEntities(guardians), FIELDS)| <= |draws|
    modifies store`pseudonyms
    ensures report.None? <==> Hits(outage, |AllCells(GuardianEntities(guardians), FIELDS)|)
    ensures report.None? ==>
              store.pseudonyms
              == UpsertAll(old(store.pseudonyms), AllCells(GuardianEntities(guardians), FIELDS)[..outage.value], draws)
    ensures report.Some? ==>
              && store.pseudonyms
                 == UpsertAll(old(store.pseudonyms), AllCells(GuardianEntities(guardians), FIELDS), draws)
              && |rows| == |guardians| == report.value.input == report.value.output
              && (forall i :: 0 <= i < |rows| ==> rows[i] == PseudoGuardianRow(store.pseudonyms, guardians[i]))
              && report.value.mappings == |AllCells(GuardianEntities(guardians), FIELDS)|
              && FieldsReported(report.value.fields, GuardianEntities(guardians))
              && report.value.check.NoToken? && report.value.kAnonymity.None?
    ensures report.Some? && LoadedFrom(guardians, store.guardians) && SoundTokens(old(store.pseudonyms), draws) ==>
              forall i :: 0 <= i < |guardians| ==>
                TellsGuardian(store.Tables(), store.pseudonyms, rows[i], guardians[i])
  {
    FieldsDistinct();
    ghost var m := store.pseudonyms;
    var es := GuardianEntities(guardians);
    var cells, tokenized, writes, ok := TokenizeAll(store, es, FIELDS, draws, outage);
    if !ok {
      return [], None;
    }
    rows := GuardianRows(guardians, store.pseudonyms, cells);
    var fields := SortedKeys(tokenized);
    report := Some(PseudoReport(|guardians|, |rows|, fields[..], writes, NoToken, None));
    if LoadedFrom(guardians, store.guardians) && SoundTokens(m, draws) {
      forall i | 0 <= i < |guardians| ensures TellsGuardian(store.Tables(), store.pseudonyms, rows[i], guardians[i]) {
        GuardianRowTells(store.Tables(), m, guardians, draws, i);
      }
    }
  }

  // ── anonymize ──────────────────────────────────────────────────────────

  datatype AnonReport = AnonReport(input: nat, output: nat, kAnonymity: KReport, kBefore: nat)

  function MaskedEmail(v: Option<string>): string
  {
    if Tokenizable(v) then MaskEmail(v.value) else ""
  }

  function MaskedPhone(v: Option<string>): string
  {
    if Tokenizable(v) then PhoneMask(v.value) else ""
  }

  /** A released row: a running number, the masks, and the quasi-identifier. */
  function AnonRow(i: nat, email: Option<string>, phone: Option<string>, quasi: string): (row: CsvRow)
    ensures |row| == 4
  {
    [Itoa(i + 1), MaskedEmail(email), MaskedPhone(phone), quasi]
  }

  /** The fourth column of a release. */
  function QuasiColumn(rows: seq<CsvRow>): (keys: seq<string>)
    requires forall i :: 0 <= i < |rows| ==> |rows[i]| == 4
    ensures |keys| == |rows|
  {
    seq(|rows|, i requires 0 <= i < |rows| => rows[i][3])
  }

  /** The release of a list of students. */
  function MaskedStudents(students: seq<StudentRow>): (rows: seq<CsvRow>)
    ensures |rows| == |students| && forall i :: 0 <= i < |rows| ==> |rows[i]| == 4
  {
    seq(|students|, i requires 0 <= i < |students| =>
      AnonRow(i, students[i].data.email, students[i].data.phone, BirthKey(students[i].data, true)))
  }

  function RelationKey(d: GuardianData): string
  {
    if Deref(d.relation) == "" then "*" else Deref(d.relation)
  }

  function MaskedGuardians(guardians: seq<GuardianRow>): (rows: seq<CsvRow>)
    ensures |rows| == |guardians| && forall i :: 0 <= i < |rows| ==> |rows[i]| == 4
  {
    seq(|guardians|, i requires 0 <= i < |guardians| =>
      AnonRow(i, guardians[i].data.email, guardians[i].data.phone, RelationKey(guardians[i].data)))
  }

  method MaskRow(i: nat, email: Option<string>, phone: Option<string>, quasi: string) returns (row: CsvRow)
    ensures row == AnonRow(i, email, phone, quasi)
  {
    var e, p := "", "";
    if Tokenizable(email) {
      e := MaskEmail(email.value);
    }
    if Tokenizable(phone) {
      p := MaskPhone(phone.value);
    }
    row := [Itoa(i + 1), e, p, quasi];
  }

  lemma MaskedQuasi(students: seq<StudentRow>)
    ensures QuasiColumn(MaskedStudents(students)) == BirthColumn(students, true)
  {
  }

  /** The k of the generalized births, and of the exact ones for comparison. */
  method MeasureBirths(students: seq<StudentRow>) returns (k: KReport, before: nat)
    ensures Describes(k, BirthColumn(students, true))
    ensures IsK(BirthColumn(students, false), before) && before <= k.k
  {
    var keys := BirthKeys(students, true);
    k := KAnonReport(keys);
    var exact := BirthKeys(students, false);
    var atDates, _, _ := ComputeK(exact);
    before := atDates;
    GeneralizationNeverLowersK(students, before, k.k);
  }

  /** The row of one student. */
  method MaskStudent(i: nat, d: StudentData) returns (row: CsvRow)
    ensures row == AnonRow(i, d.email, d.phone, BirthKey(d, true))
  {
    var band := "*";
    if d.birth.Some? {
      band := GeneralizeBirth(d.birth.value);
    }
    row := MaskRow(i, d.email, d.phone, band);
  }

  /** The loop that writes the rows. */
  method MaskStudents(students: seq<StudentRow>) returns (rows: seq<CsvRow>)
    ensures rows == MaskedStudents(students)
  {
    rows := [];
    for i := 0 to |students|
      invariant |rows| == i
      invariant rows == MaskedStudents(students)[..i]
    {
      var row := MaskStudent(i, students[i].data);
      rows := rows + [row];
    }
  }

  /**
   `anonymizeStudents`. The keys the report measures are recomputed from the
   students; they are, position by position, the generalized column of the rows
   that were written, so the reported k is the k of that column. It has no
   access to the vault.
   */
  method AnonymizeStudents(students: seq<StudentRow>) returns (rows: seq<CsvRow>, report: AnonReport)
    ensures rows == MaskedStudents(students)
    ensures |rows| == report.input == report.output
    ensures QuasiColumn(rows) == BirthColumn(students, true)
    ensures Describes(report.kAnonymity, QuasiColumn(rows))
    ensures IsK(BirthColumn(students, false), report.kBefore) && report.kBefore <= report.kAnonymity.k
  {
    rows := MaskStudents(students);
    MaskedQuasi(students);
    var k, before := MeasureBirths(students);
    report := AnonReport(|students|, |rows|, k, before);
  }

  /** `anonymizeGuardians`: the relation is the quasi-identifier, collected while the rows are written. */
  method AnonymizeGuardians(guardians: seq<GuardianRow>) returns (rows: seq<CsvRow>, report: AnonReport)
    ensures rows == MaskedGuardians(guardians)
    ensures |rows| == report.input == report.output
    ensures Describes(report.kAnonymity, QuasiColumn(rows))
  {
    rows := [];
    var relKeys := [];
    for i := 0 to |guardians|
      invariant |rows| == |relKeys| == i
      invariant rows == MaskedGuardians(guardians)[..i]
      invariant forall j :: 0 <= j < i ==> relKeys[j] == rows[j][3]
    {
      var rel := Deref(guardians[i].data.relation);
      if rel == "" {
        rel := "*";
      }
      var row := MaskRow(i, guardians[i].data.email, guardians[i].data.phone, rel);
      rows, relKeys := rows + [row], relKeys + [rel];
    }
    assert QuasiColumn(rows) == relKeys;
    var k := KAnonReport(relKeys);
    report := AnonReport(|guardians|, |rows|, k, 0);
  }

  // ── Run ────────────────────────────────────────────────────────────────

  datatype RunError = InvalidMode | InvalidDataset | RunFailed

  datatype Product =
    | Pseudonymized(rows: seq<CsvRow>, pseudo: PseudoReport)
    | Anonymized(rows: seq<CsvRow>, anon: AnonReport)

  /** The rows are the tokens in force for every stored student, in id order. */
  ghost predicate IsStudentRelease(rows: seq<CsvRow>, m: PseudonymMap, t: map<Uuid, StudentData>)
  {
    exists students: seq<StudentRow> ::
      && LoadedFrom(students, t) && |rows| == |students|
      && forall i :: 0 <= i < |rows| ==> rows[i] == PseudoStudentRow(m, students[i])
  }

  ghost predicate IsGuardianRelease(rows: seq<CsvRow>, m: PseudonymMap, t: map<Uuid, GuardianData>)
  {
    exists guardians: seq<GuardianRow> ::
      && LoadedFrom(guardians, t) && |rows| == |guardians|
      && forall i :: 0 <= i < |rows| ==> rows[i] == PseudoGuardianRow(m, guardians[i])
  }

  /** The rows are the masked students in id order, and the reported k is that of their quasi-identifier column. */
  ghost predicate IsStudentMasking(rows: seq<CsvRow>, k: nat, t: map<Uuid, StudentData>)
  {
    exists students: seq<StudentRow> ::
      LoadedFrom(students, t) && rows == MaskedStudents(students) && IsK(QuasiColumn(rows), k)
  }

  ghost predicate IsGuardianMasking(rows: seq<CsvRow>, k: nat, t: map<Uuid, GuardianData>)
  {
    exists guardians: seq<GuardianRow> ::
      LoadedFrom(guardians, t) && rows == MaskedGuardians(guardians) && IsK(QuasiColumn(rows), k)
  }

  /** What a run over the students hands out in either mode. */
  ghost predicate StudentProduct(p: Product, pseudonymize: bool, m: PseudonymMap, t: map<Uuid, StudentData>)
  {
    && (p.Pseudonymized? <==> pseudonymize)
    && if p.Pseudonymized? then IsStudentRelease(p.rows, m, t) else IsStudentMasking(p.rows, p.anon.kAnonymity.k, t)
  }

  ghost predicate GuardianProduct(p: Product, pseudonymize: bool, m: PseudonymMap, t: map<Uuid, GuardianData>)
  {
    && (p.Pseudonymized? <==> pseudonymize)
    && if p.Pseudonymized? then IsGuardianRelease(p.rows, m, t) else IsGuardianMasking(p.rows, p.anon.kAnonymity.k, t)
  }

  /** Pseudonymizing the stored students takes this many upserts. */
  ghost predicate StudentUpserts(t: map<Uuid, StudentData>, n: nat)
  {
    exists students: seq<StudentRow> :: LoadedFrom(students, t) && n == |AllCells(Entities(students), FIELDS)|
  }

  ghost predicate GuardianUpserts(t: map<Uuid, GuardianData>, n: nat)
  {
    exists guardians: seq<GuardianRow> ::
      LoadedFrom(guardians, t) && n == |AllCells(GuardianEntities(guardians), FIELDS)|
  }

  function Drawn(supply: nat -> string, n: nat): (draws: seq<string>)
    ensures |draws| == n
  {
    seq(n, supply)
  }

  /** What may go wrong: the load, an upsert, the writing of the file. */
  datatype Trouble = Trouble(load: bool, upserts: Outage, write: bool)

  /** The progress marks that a run with good parameters reaches, when it has `upserts` upserts to do. */
  function Reached(t: Trouble, pseudonymize: bool, upserts: nat): (n: nat)
    ensures n <= 4
  {
    if t.load then 1
    else if pseudonymize && Hits(t.upserts, upserts) then 2
    else if t.write then 3
    else 4
  }

  /** The dispatch on the mode, up to the rows of the file; None when an upsert failed. */
  method ProduceStudents(store: Store, students: seq<StudentRow>, pseudonymize: bool, supply: nat -> string,
                         upserts: Outage)
    returns (product: Option<Product>)
    requires LoadedFrom(students, store.students)
    modifies store`pseudonyms
    ensures !pseudonymize ==> store.pseudonyms == old(store.pseudonyms)
    ensures KeepsTokens(old(store.pseudonyms), store.pseudonyms)
    ensures product.None? <==> pseudonymize && Hits(upserts, |AllCells(Entities(students), FIELDS)|)
    ensures product.Some? ==> StudentProduct(product.value, pseudonymize, store.pseudonyms, store.students)
  {
    if !pseudonymize {
      var rows, report := AnonymizeStudents(students);
      return Some(Anonymized(rows, report));
    }
    ghost var m := store.pseudonyms;
    var draws := Drawn(supply, |AllCells(Entities(students), FIELDS)|);
    var rows, report := PseudonymizeStudents(store, students, draws, upserts);
    RunKeepsTokens(m, AllCells(Entities(students), FIELDS), draws);
    if report.None? {
      return None;
    }
    return Some(Pseudonymized(rows, report.value));
  }

  /** The dispatch on the mode, up to the rows of the file; None when an upsert failed. */
  method ProduceGuardians(store: Store, guardians: seq<GuardianRow>, pseudonymize: bool, supply: nat -> string,
                          upserts: Outage)
    returns (product: Option<Product>)
    requires LoadedFrom(guardians, store.guardians)
    modifies store`pseudonyms
    ensures !pseudonymize ==> store.pseudonyms == old(store.pseudonyms)
    ensures KeepsTokens(old(store.pseudonyms), store.pseudonyms)
    ensures product.None? <==> pseudonymize && Hits(upserts, |AllCells(GuardianEntities(guardians), FIELDS)|)
    ensures product.Some? ==> GuardianProduct(product.value, pseudonymize, store.pseudonyms, store.guardians)
  {
    if !pseudonymize {
      var rows, report := AnonymizeGuardians(guardians);
      return Some(Anonymized(rows, report));
    }
    ghost var m := store.pseudonyms;
    var draws := Drawn(supply, |AllCells(GuardianEntities(guardians), FIELDS)|);
    var rows, report := PseudonymizeGuardians(store, guardians, draws, upserts);
    RunKeepsTokens(m, AllCells(GuardianEntities(guardians), FIELDS), draws);
    if report.None? {
      return None;
    }
    return Some(Pseudonymized(rows, report.value));
  }

  /** The loaded students: progress, the chosen mode, progress, the file. */
  method ReleaseStudents(store: Store, students: seq<StudentRow>, pseudonymize: bool, supply: nat -> string, t: Trouble,
                        job: JobId, heard: int -> Reply, ghost jobs: JobTable)
    returns (r: Option<Product>)
    requires LoadedFrom(students, store.students) && !t.load
    requires store.jobs == Marked(jobs, job, DEID_MARKS, 1, heard)
    modifies store`pseudonyms, store`jobs
    ensures !pseudonymize ==> store.pseudonyms == old(store.pseudonyms)
    ensures KeepsTokens(old(store.pseudonyms), store.pseudonyms)
    ensures var n := Reached(t, pseudonymize, |AllCells(Entities(students), FIELDS)|);
            (r.Some? <==> n == 4) && store.jobs == Marked(jobs, job, DEID_MARKS, BeforeLast(n), heard)
    ensures r.Some? ==> StudentProduct(r.value, pseudonymize, store.pseudonyms, store.students)
  {
    Mark(store, job, jobs, DEID_MARKS, 1, heard);
    r := ProduceStudents(store, students, pseudonymize, supply, t.upserts);
    if r.Some? {
      Mark(store, job, jobs, DEID_MARKS, 2, heard);
      if t.write {
        r := None;
      }
    }
  }

  /** `runStudents`: loads, then pseudonymizes or anonymizes and writes the file. */
  method RunStudents(store: Store, pseudonymize: bool, supply: nat -> string, t: Trouble,
                     job: JobId, heard: int -> Reply, ghost jobs: JobTable)
    returns (r: Option<Product>, ghost upserts: nat)
    requires store.jobs == Marked(jobs, job, DEID_MARKS, 1, heard)
    modifies store`pseudonyms, store`jobs
    ensures !pseudonymize ==> store.pseudonyms == old(store.pseudonyms)
    ensures KeepsTokens(old(store.pseudonyms), store.pseudonyms)
    ensures !t.load ==> StudentUpserts(store.students, upserts)
    ensures var n := Reached(t, pseudonymize, upserts);
            (r.Some? <==> n == 4) && store.jobs == Marked(jobs, job, DEID_MARKS, BeforeLast(n), heard)
    ensures r.Some? ==> StudentProduct(r.value, pseudonymize, store.pseudonyms, store.students)
  {
    r, upserts := None, 0;
    if !t.load {
      var students := store.LoadStudents();
      upserts := |AllCells(Entities(students), FIELDS)|;
      r := ReleaseStudents(store, students, pseudonymize, supply, t, job, heard, jobs);
    }
  }

  /** The loaded guardians: progress, the chosen mode, progress, the file. */
  method ReleaseGuardians(store: Store, guardians: seq<GuardianRow>, pseudonymize: bool, supply: nat -> string,
                          t: Trouble, job: JobId, heard: int -> Reply, ghost jobs: JobTable)
    returns (r: Option<Product>)
    requires LoadedFrom(guardians, store.guardians) && !t.load
    requires store.jobs == Marked(jobs, job, DEID_MARKS, 1, heard)
    modifies store`pseudonyms, store`jobs
    ensures !pseudonymize ==> store.pseudonyms == old(store.pseudonyms)
    ensures KeepsTokens(old(store.pseudonyms), store.pseudonyms)
    ensures var n := Reached(t, pseudonymize, |AllCells(GuardianEntities(guardians), FIELDS)|);
            (r.Some? <==> n == 4) && store.jobs == Marked(jobs, job, DEID_MARKS, BeforeLast(n), heard)
    ensures r.Some? ==> GuardianProduct(r.value, pseudonymize, store.pseudonyms, store.guardians)
  {
    Mark(store, job, jobs, DEID_MARKS, 1, heard);
    r := ProduceGuardians(store, guardians, pseudonymize, supply, t.upserts);
    if r.Some? {
      Mark(store, job, jobs, DEID_MARKS, 2, heard);
      if t.write {
        r := None;
      }
    }
  }

  /** `runGuardians`. */
  method RunGuardians(store: Store, pseudonymize: bool, supply: nat -> string, t: Trouble,
                      job: JobId, heard: int -> Reply, ghost jobs: JobTable)
    returns (r: Option<Product>, ghost upserts: nat)
    requires store.jobs == Marked(jobs, job, DEID_MARKS, 1, heard)
    modifies store`pseudonyms, store`jobs
    ensures !pseudonymize ==> store.pseudonyms == old(store.pseudonyms)
    ensures KeepsTokens(old(store.pseudonyms), store.pseudonyms)
    ensures !t.load ==> GuardianUpserts(store.guardians, upserts)
    ensures var n := Reached(t, pseudonymize, upserts);
            (r.Some? <==> n == 4) && store.jobs == Marked(jobs, job, DEID_MARKS, BeforeLast(n), heard)
    ensures r.Some? ==> GuardianProduct(r.value, pseudonymize, store.pseudonyms, store.guardians)
  {
    r, upserts := None, 0;
    if !t.load {
      var guardians := store.LoadGuardians();
      upserts := |AllCells(GuardianEntities(guardians), FIELDS)|;
      r := ReleaseGuardians(store, guardians, pseudonymize, supply, t, job, heard, jobs);
    }
  }

  /** The run on the chosen dataset, between the first and the last progress mark. */
  method RunDataset(store: Store, guardians: bool, pseudonymize: bool, supply: nat -> string, t: Trouble,
                    job: JobId, heard: int -> Reply)
    returns (r: Option<Product>, ghost upserts: nat)
    modifies store`pseudonyms, store`jobs
    ensures !pseudonymize ==> store.pseudonyms == old(store.pseudonyms)
    ensures KeepsTokens(old(store.pseudonyms), store.pseudonyms)
    ensures !t.load ==> Upserts(store.Tables(), guardians, upserts)
    ensures var n := Reached(t, pseudonymize, upserts);
            (r.Some? <==> n == 4) && store.jobs == Marked(old(store.jobs), job, DEID_MARKS, n, heard)
    ensures r.Some? ==> IsProduct(r.value, guardians, pseudonymize, store.pseudonyms, store.Tables())
  {
    ghost var jobs := store.jobs;
    Mark(store, job, jobs, DEID_MARKS, 0, heard);
    if guardians {
      r, upserts := RunGuardians(store, pseudonymize, supply, t, job, heard, jobs);
    } else {
      r, upserts := RunStudents(store, pseudonymize, supply, t, job, heard, jobs);
    }
    if r.Some? {
      Mark(store, job, jobs, DEID_MARKS, 3, heard);
    }
  }

  /** What a run over either dataset hands out. */
  ghost predicate IsProduct(p: Product, guardians: bool, pseudonymize: bool, m: PseudonymMap, core: Core)
  {
    if guardians then GuardianProduct(p, pseudonymize, m, core.guardians)
    else StudentProduct(p, pseudonymize, m, core.students)
  }

  ghost predicate Upserts(core: Core, guardians: bool, n: nat)
  {
    if guardians then GuardianUpserts(core.guardians, n) else StudentUpserts(core.students, n)
  }

  predicate GoodMode(mode: string)
  {
    mode == "pseudonymize" || mode == "anonymize"
  }

  predicate GoodDataset(dataset: string)
  {
    dataset in {"", "students", "guardians"}
  }

  /**
   `Run`: checks the parameters, loads the dataset, and hands it to the chosen
   mode. The anonymize mode leaves the reversible map untouched; whatever
   happens, no mapped field ever gets another token, and the progress marks
   passed are those before the stage that failed.
   */
  method Run(store: Store, mode: string, dataset: string, supply: nat -> string, t: Trouble,
             job: JobId, heard: int -> Reply)
    returns (r: Result<Product, RunError>, ghost upserts: nat)
    modifies store`pseudonyms, store`jobs
    ensures mode != "pseudonymize" ==> store.pseudonyms == old(store.pseudonyms)
    ensures KeepsTokens(old(store.pseudonyms), store.pseudonyms)
    ensures !GoodMode(mode) <==> r == Err(InvalidMode)
    ensures GoodMode(mode) && !GoodDataset(dataset) <==> r == Err(InvalidDataset)
    ensures GoodMode(mode) && GoodDataset(dataset) && !t.load ==>
              Upserts(store.Tables(), dataset == "guardians", upserts)
    ensures var n := if GoodMode(mode) && GoodDataset(dataset) then Reached(t, mode == "pseudonymize", upserts) else 0;
            (r.Ok? <==> n == 4) && store.jobs == Marked(old(store.jobs), job, DEID_MARKS, n, heard)
    ensures r.Ok? ==>
              IsProduct(r.value, dataset == "guardians", mode == "pseudonymize", store.pseudonyms, store.Tables())
  {
    upserts := 0;
    var chosen := if dataset == "" then "students" else dataset;
    if mode != "pseudonymize" && mode != "anonymize" {
      return Err(InvalidMode), upserts;
    }
    if chosen != "students" && chosen != "guardians" {
      return Err(InvalidDataset), upserts;
    }
    var product;
    product, upserts :=
      RunDataset(store, chosen == "guardians", mode == "pseudonymize", supply, t, job, heard);
    r := match product case Some(p) => Ok(p) case None => Err(RunFailed);
  }

  /** However far a run got, the tokens that were there are still in force. */
  lemma RunKeepsTokens(m: PseudonymMap, cells: seq<Cell>, draws: seq<string>)
    requires |cells| <= |draws|
    ensures forall n :: 0 <= n <= |cells| ==> KeepsTokens(m, UpsertAll(m, cells[..n], draws))
    ensures KeepsTokens(m, UpsertAll(m, cells, draws))
  {
    forall n | 0 <= n <= |cells| ensures KeepsTokens(m, UpsertAll(m, cells[..n], draws)) {
      TokensAreWriteOnce(m, cells[..n], draws);
    }
    assert cells[..|cells|] == cells;
  }
}
