/**
 What the cells of a pseudonymized file stand for, column by column, told on the
 stored contents (worker/internal/anonymizer/anonymizer.go, worker/internal/store/store.go).
 */
module Columns {
  import opened Text
  import opened Dates
  import opened Records
  import opened Vault

  /** The column of a student that a field names holds this text; NULL reads as empty. */
  ghost predicate ColumnReads(d: StudentData, f: Field, v: string)
  {
    match f
    case LastName => v == d.last
    case FirstName => v == d.first
    case MiddleName => v == if d.middle.Some? then d.middle.value else ""
    case Email => v == if d.email.Some? then d.email.value else ""
    case Phone => v == if d.phone.Some? then d.phone.value else ""
  }

  ghost predicate Missing(v: Option<string>)
  {
    v.None? || v.value == ""
  }

  /** The cell is empty for want of a value, or a token whose lookup gives the value and nothing else. */
  ghost predicate Restores(core: Core, m: PseudonymMap, cell: string, v: Option<string>)
  {
    if Missing(v) then cell == ""
    else
      && cell != "" && MayRestore(core, m, cell, Found(v.value))
      && forall r :: MayRestore(core, m, cell, r) ==> r == Found(v.value)
  }

  /** A row of the students' file: id, last name, first name, middle name, email, phone, birth date. */
  ghost predicate TellsStudent(core: Core, m: PseudonymMap, row: seq<string>, r: StudentRow)
  {
    && |row| == 7 && row[0] == r.id
    && Restores(core, m, row[1], Some(r.data.last)) && Restores(core, m, row[2], Some(r.data.first))
    && Restores(core, m, row[3], r.data.middle)
    && Restores(core, m, row[4], r.data.email) && Restores(core, m, row[5], r.data.phone)
    && row[6] == match r.data.birth case None => "" case Some(d) => Format(d)
  }

  /**
   The cell is empty for want of a value, or the token of this field, beside the
   hash of the value; nobody can look a guardian's token up.
   */
  ghost predicate StandsFor(core: Core, m: PseudonymMap, cell: string, id: Uuid, f: Field, v: Option<string>)
  {
    if Missing(v) then cell == ""
    else
      var key := Key(Guardian, id, f);
      && cell != "" && key in m && m[key] == Mapping(Sha256(v.value), cell)
      && (forall k :: k in m && m[k].token == cell ==> k == key)
      && forall r :: MayRestore(core, m, cell, r) ==> r == Unknown
  }

  /** A row of the guardians' file: id, last name, first name, middle name, email, phone, relation. */
  ghost predicate TellsGuardian(core: Core, m: PseudonymMap, row: seq<string>, r: GuardianRow)
  {
    && |row| == 7 && row[0] == r.id
    && StandsFor(core, m, row[1], r.id, LastName, Some(r.data.last))
    && StandsFor(core, m, row[2], r.id, FirstName, Some(r.data.first))
    && StandsFor(core, m, row[3], r.id, MiddleName, r.data.middle)
    && StandsFor(core, m, row[4], r.id, Email, r.data.email)
    && StandsFor(core, m, row[5], r.id, Phone, r.data.phone)
    && row[6] == match r.data.relation case None => "" case Some(v) => v
  }
}
