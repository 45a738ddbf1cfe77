/**
 Which cells a pseudonymize run tokenizes, in which order, and what it writes
 into its output for them (worker/internal/anonymizer/anonymizer.go). The field
 list is a parameter here; the runs use `Vault.FIELDS`.
 */
module Cells {
  import opened Text
  import opened Records
  import opened Vault

  /** A loaded person: its id and the plaintext of the direct identifiers. */
  datatype Entity = Entity(kind: Kind, id: Uuid, value: Field -> Option<string>)

  function StudentEntity(r: StudentRow): Entity
  {
    Entity(Student, r.id, f => StudentValue(r.data, f))
  }

  function GuardianEntity(r: GuardianRow): Entity
  {
    Entity(Guardian, r.id, f => GuardianValue(r.data, f))
  }

  /** The cells of one person that have something to tokenize, in field order. */
  function EntityCells(e: Entity, fields: seq<Field>): seq<Cell>
  {
    if fields == [] then []
    else
      var n := |fields| - 1;
      var f := fields[n];
      EntityCells(e, fields[..n])
      + if Tokenizable(e.value(f)) then [Cell(Key(e.kind, e.id, f), e.value(f).value)] else []
  }

  function AllCells(es: seq<Entity>, fields: seq<Field>): seq<Cell>
  {
    if es == [] then []
    else AllCells(es[..|es| - 1], fields) + EntityCells(es[|es| - 1], fields)
  }

  /** The output cell of one field under a map: its token, or empty when there was nothing to tokenize. */
  function OutputCell(m: PseudonymMap, key: Key, value: Option<string>): string
  {
    if Tokenizable(value) && key in m then m[key].token else ""
  }

  function OutputCells(m: PseudonymMap, e: Entity, fields: seq<Field>): (row: seq<string>)
    ensures |row| == |fields|
  {
    seq(|fields|, i requires 0 <= i < |fields| => OutputCell(m, Key(e.kind, e.id, fields[i]), e.value(fields[i])))
  }

  ghost predicate NoDuplicates<T>(s: seq<T>)
  {
    forall i, j :: 0 <= i < j < |s| ==> s[i] != s[j]
  }

  /** A cell is in the list exactly when it is a non-empty value of one of the fields. */
  lemma {:induction false} EntityCellsMeaning(e: Entity, fields: seq<Field>, c: Cell)
    ensures c in EntityCells(e, fields)
            <==> c.key.kind == e.kind && c.key.id == e.id && c.key.field in fields
                 && c.value != "" && e.value(c.key.field) == Some(c.value)
  {
    if fields != [] {
      var n := |fields| - 1;
      EntityCellsMeaning(e, fields[..n], c);
      assert c.key.field in fields <==> c.key.field in fields[..n] || c.key.field == fields[n];
    }
  }

  lemma {:induction false} CellFromEntity(es: seq<Entity>, fields: seq<Field>, c: Cell)
    requires c in AllCells(es, fields)
    ensures exists i :: 0 <= i < |es| && c in EntityCells(es[i], fields)
  {
    var n := |es| - 1;
    if c in EntityCells(es[n], fields) {
    } else {
      CellFromEntity(es[..n], fields, c);
      var i :| 0 <= i < n && c in EntityCells(es[..n][i], fields);
      assert es[..n][i] == es[i];
    }
  }

  lemma EntityCellsKeys(e: Entity, fields: seq<Field>, f: Field)
    requires f in fields && Tokenizable(e.value(f))
    ensures Key(e.kind, e.id, f) in Keys(EntityCells(e, fields))
  {
  }

  lemma KeysConcat(a: seq<Cell>, b: seq<Cell>)
    ensures Keys(a + b) == Keys(a) + Keys(b)
  {
  }

  lemma {:induction false} CellsCoverEntities(es: seq<Entity>, fields: seq<Field>, i: nat)
    requires i < |es|
    ensures Keys(EntityCells(es[i], fields)) <= Keys(AllCells(es, fields))
  {
    var n := |es| - 1;
    KeysConcat(AllCells(es[..n], fields), EntityCells(es[n], fields));
    if i < n {
      CellsCoverEntities(es[..n], fields, i);
    }
  }

  lemma {:induction false} UpsertConcat(m: PseudonymMap, a: seq<Cell>, b: seq<Cell>, draws: seq<string>)
    requires |a| + |b| <= |draws|
    ensures UpsertAll(m, a + b, draws) == UpsertAll(UpsertAll(m, a, draws), b, draws[|a|..])
  {
    if b == [] {
      assert a + b == a;
    } else {
      var n := |b| - 1;
      UpsertConcat(m, a, b[..n], draws);
      assert (a + b)[..|a + b| - 1] == a + b[..n];
      assert draws[|a|..][n] == draws[|a| + n];
    }
  }

  lemma UpsertSnoc(m: PseudonymMap, cells: seq<Cell>, c: Cell, draws: seq<string>)
    requires |cells| < |draws|
    ensures UpsertAll(m, cells + [c], draws)
            == Upsert(UpsertAll(m, cells, draws), c.key, Sha256(c.value), draws[|cells|])
  {
  }

  /** `later` extends `m` and keeps its tokens. */
  ghost predicate KeepsTokens(m: PseudonymMap, later: PseudonymMap)
  {
    forall k :: k in m ==> k in later && later[k].token == m[k].token
  }

  /** Once its fields are mapped, a person's output never changes. */
  lemma OutputIsStable(m: PseudonymMap, later: PseudonymMap, e: Entity, fields: seq<Field>)
    requires KeepsTokens(m, later) && Keys(EntityCells(e, fields)) <= m.Keys
    ensures OutputCells(later, e, fields) == OutputCells(m, e, fields)
  {
    forall i | 0 <= i < |fields|
      ensures OutputCells(later, e, fields)[i] == OutputCells(m, e, fields)[i]
    {
      if Tokenizable(e.value(fields[i])) {
        EntityCellsKeys(e, fields, fields[i]);
      }
    }
  }

  /**
   Two runs agree: whatever was upserted in between by anyone, a run that starts
   after the people are mapped adds no mapping and writes the very same cells.
   */
  lemma RerunIsIdentical(m: PseudonymMap, es: seq<Entity>, fields: seq<Field>, draws: seq<string>,
                         later: PseudonymMap, again: seq<string>)
    requires |AllCells(es, fields)| <= |draws| && |AllCells(es, fields)| <= |again|
    requires KeepsTokens(UpsertAll(m, AllCells(es, fields), draws), later)
    ensures UpsertAll(later, AllCells(es, fields), again).Keys == later.Keys
    ensures forall i :: 0 <= i < |es| ==>
              OutputCells(UpsertAll(later, AllCells(es, fields), again), es[i], fields)
              == OutputCells(UpsertAll(m, AllCells(es, fields), draws), es[i], fields)
  {
    var cells := AllCells(es, fields);
    var first, second := UpsertAll(m, cells, draws), UpsertAll(later, cells, again);
    TokensAreWriteOnce(m, cells, draws);
    TokensAreWriteOnce(later, cells, again);
    forall k | k in Keys(cells) ensures k in later {
      assert k in first;
    }
    forall i | 0 <= i < |es| ensures OutputCells(second, es[i], fields) == OutputCells(first, es[i], fields) {
      CellsCoverEntities(es, fields, i);
      OutputIsStable(first, second, es[i], fields);
    }
  }

  lemma CellsStep(es: seq<Entity>, fields: seq<Field>, i: nat)
    requires i < |es|
    ensures AllCells(es[..i + 1], fields) == AllCells(es[..i], fields) + EntityCells(es[i], fields)
    ensures AllCells(es[..i + 1], fields) <= AllCells(es, fields)
  {
    var more := es[..i + 1];
    assert more[..|more| - 1] == es[..i];
    CellsPrefix(es, fields, i + 1);
  }

  lemma {:induction false} CellsPrefix(es: seq<Entity>, fields: seq<Field>, n: nat)
    requires n <= |es|
    ensures AllCells(es[..n], fields) <= AllCells(es, fields)
  {
    if n == |es| {
      assert es[..n] == es;
    } else {
      var k := |es| - 1;
      CellsPrefix(es[..k], fields, n);
      assert es[..k][..n] == es[..n];
    }
  }

  lemma FieldsStep(e: Entity, fields: seq<Field>, i: nat)
    requires i < |fields|
    ensures EntityCells(e, fields[..i + 1])
            == if Tokenizable(e.value(fields[i]))
               then EntityCells(e, fields[..i]) + [Cell(Key(e.kind, e.id, fields[i]), e.value(fields[i]).value)]
               else EntityCells(e, fields[..i])
    ensures EntityCells(e, fields[..i + 1]) <= EntityCells(e, fields)
  {
    var more := fields[..i + 1];
    assert more[..|more| - 1] == fields[..i];
    FieldsPrefix(e, fields, i + 1);
  }

  /** Before a field with something to tokenize, a proper part of the person's cells is done. */
  lemma FieldsLeft(e: Entity, fields: seq<Field>, i: nat)
    requires i < |fields| && Tokenizable(e.value(fields[i]))
    ensures |EntityCells(e, fields[..i])| < |EntityCells(e, fields)|
    ensures EntityCells(e, fields)[..|EntityCells(e, fields[..i])|] == EntityCells(e, fields[..i])
  {
    FieldsStep(e, fields, i);
  }

  lemma {:induction false} FieldsPrefix(e: Entity, fields: seq<Field>, n: nat)
    requires n <= |fields|
    ensures EntityCells(e, fields[..n]) <= EntityCells(e, fields)
  {
    if n == |fields| {
      assert fields[..n] == fields;
    } else {
      var k := |fields| - 1;
      FieldsPrefix(e, fields[..k], n);
      assert fields[..k][..n] == fields[..n];
    }
  }

  /** The rows already written stay what the map says while later people are upserted. */
  lemma RowsStay(m: PseudonymMap, es: seq<Entity>, fields: seq<Field>, i: nat, draws: seq<string>)
    requires i < |es| && |AllCells(es[..i + 1], fields)| <= |draws|
    ensures |AllCells(es[..i], fields)| <= |draws|
    ensures var done := UpsertAll(m, AllCells(es[..i], fields), draws);
            var later := UpsertAll(m, AllCells(es[..i + 1], fields), draws);
            forall j :: 0 <= j < i ==> OutputCells(later, es[j], fields) == OutputCells(done, es[j], fields)
  {
    CellsStep(es, fields, i);
    var cells := AllCells(es[..i], fields);
    var done := UpsertAll(m, cells, draws);
    var later := UpsertAll(m, AllCells(es[..i + 1], fields), draws);
    UpsertConcat(m, cells, EntityCells(es[i], fields), draws);
    TokensAreWriteOnce(m, cells, draws);
    TokensAreWriteOnce(done, EntityCells(es[i], fields), draws[|cells|..]);
    forall j | 0 <= j < i ensures OutputCells(later, es[j], fields) == OutputCells(done, es[j], fields) {
      CellsCoverEntities(es[..i], fields, j);
      OutputIsStable(done, later, es[j], fields);
    }
  }

  /** Some person has a value to tokenize in this field. */
  ghost predicate SomeoneHas(es: seq<Entity>, f: Field)
  {
    exists i :: 0 <= i < |es| && Tokenizable(es[i].value(f))
  }
}
