/**
 The loops of the pseudonymize mode over people and fields, and the in-place
 ordering of the reported field names (worker/internal/anonymizer/anonymizer.go).
 */
module Tokenizer {
  import opened Text
  import opened Vault
  import opened Cells
  import opened Storage
  import opened Ordering

  // ── sortedKeys ─────────────────────────────────────────────────────────

  function Rank(f: Field): nat
  {
    match f
    case LastName => 0
    case FirstName => 1
    case MiddleName => 2
    case Email => 3
    case Phone => 4
  }

  predicate RankBefore(f: Field, g: Field)
  {
    Rank(f) < Rank(g)
  }

  /** `sortedKeys`: takes the keys in arbitrary order and sorts them in place into column order. */
  method SortedKeys(fields: set<Field>) returns (out: array<Field>)
    ensures fresh(out) && Sorted(out[..], RankBefore)
    ensures forall f :: f in out[..] <==> f in fields
  {
    var keys: seq<Field> := [];
    var todo := fields;
    while todo != {}
      invariant todo <= fields && NoDuplicates(keys)
      invariant forall f :: f in keys <==> f in fields - todo
      decreases todo
    {
      var f :| f in todo;
      assert f !in keys;
      keys, todo := keys + [f], todo - {f};
    }
    out := new Field[|keys|](i requires 0 <= i < |keys| => keys[i]);
    assert out[..] == keys;
    InsertionSort(out);
  }

  /** Elements up to and including `i` are in order, except for the one at `j` that is still sinking. */
  ghost predicate SortedExcept(s: seq<Field>, i: int, j: int)
  {
    && 0 <= j <= i < |s|
    && (forall p, q :: 0 <= p < q <= i && p != j && q != j ==> RankBefore(s[p], s[q]))
    && (forall q :: j < q <= i ==> RankBefore(s[j], s[q]))
  }

  method InsertionSort(out: array<Field>)
    requires NoDuplicates(out[..])
    modifies out
    ensures Sorted(out[..], RankBefore)
    ensures forall f :: f in out[..] <==> f in old(out[..])
  {
    var i := 1;
    while i < out.Length
      invariant 1 <= i
      invariant NoDuplicates(out[..]) && (forall f :: f in out[..] <==> f in old(out[..]))
      invariant forall p, q :: 0 <= p < q < i && q < out.Length ==> RankBefore(out[p], out[q])
      decreases out.Length - i
    {
      var j := i;
      while j > 0 && Rank(out[j - 1]) > Rank(out[j])
        invariant 0 <= j <= i < out.Length
        invariant NoDuplicates(out[..]) && (forall f :: f in out[..] <==> f in old(out[..]))
        invariant SortedExcept(out[..], i, j)
        decreases j
      {
        SwapDown(out, j, i);
        j := j - 1;
      }
      i := i + 1;
    }
  }

  /** One exchange of the inner loop. */
  method SwapDown(out: array<Field>, j: int, ghost i: int)
    requires 0 < j <= i < out.Length && Rank(out[j - 1]) > Rank(out[j])
    requires NoDuplicates(out[..]) && SortedExcept(out[..], i, j)
    modifies out
    ensures NoDuplicates(out[..]) && SortedExcept(out[..], i, j - 1)
    ensures forall f :: f in out[..] <==> f in old(out[..])
  {
    ghost var before := out[..];
    out[j - 1], out[j] := out[j], out[j - 1];
    assert out[..] == before[j - 1 := before[j]][j := before[j - 1]];
    forall f ensures f in out[..] <==> f in before {
      if f in before {
        var p :| 0 <= p < |before| && before[p] == f;
        assert out[..][if p == j then j - 1 else if p == j - 1 then j else p] == f;
      }
    }
  }

  lemma RankIsStrict()
    ensures StrictOrder(RankBefore)
  {
  }

  /** The reported field list depends on nothing but the set of tokenized fields. */
  lemma FieldListDetermined(s: seq<Field>, t: seq<Field>)
    requires Sorted(s, RankBefore) && Sorted(t, RankBefore)
    requires forall f :: f in s <==> f in t
    ensures s == t
  {
    RankIsStrict();
    SortedUnique(s, t, RankBefore);
  }

  // ── pseudonymize ───────────────────────────────────────────────────────

  /** What the first `i` fields have written into the map and into the output row. */
  ghost predicate CellsWritten(p: PseudonymMap, e: Entity, fields: seq<Field>, i: nat,
                               cells: seq<string>, tokenized: set<Field>)
    requires i <= |fields|
  {
    && |cells| == i
    && (forall j :: 0 <= j < i ==> cells[j] == OutputCell(p, Key(e.kind, e.id, fields[j]), e.value(fields[j])))
    && (forall f :: f in tokenized <==> f in fields[..i] && Tokenizable(e.value(f)))
  }

  lemma CellsAdvance(p: PseudonymMap, e: Entity, fields: seq<Field>, i: nat, cells: seq<string>,
                     tokenized: set<Field>, token: string)
    requires NoDuplicates(fields) && i < |fields| && CellsWritten(p, e, fields, i, cells, tokenized)
    ensures var f := fields[i];
            if Tokenizable(e.value(f)) then
              var q := Upsert(p, Key(e.kind, e.id, f), Sha256(e.value(f).value), token);
              CellsWritten(q, e, fields, i + 1, cells + [q[Key(e.kind, e.id, f)].token], tokenized + {f})
            else CellsWritten(p, e, fields, i + 1, cells + [""], tokenized)
  {
  }

  lemma CellsDone(p: PseudonymMap, e: Entity, fields: seq<Field>, cells: seq<string>, tokenized: set<Field>)
    requires CellsWritten(p, e, fields, |fields|, cells, tokenized)
    ensures cells == OutputCells(p, e, fields)
    ensures forall f :: f in tokenized <==> f in fields && Tokenizable(e.value(f))
  {
  }

  /** The cells upserted so far, and what one more tokenizable field does to them and to the map. */
  lemma CellsGrow(m: PseudonymMap, e: Entity, fields: seq<Field>, i: nat, before: seq<Cell>, draws: seq<string>)
    requires i < |fields| && before == EntityCells(e, fields[..i]) && |EntityCells(e, fields)| <= |draws|
    ensures Tokenizable(e.value(fields[i])) ==>
              var c := Cell(Key(e.kind, e.id, fields[i]), e.value(fields[i]).value);
              && before + [c] == EntityCells(e, fields[..i + 1])
              && |before| < |EntityCells(e, fields)| && EntityCells(e, fields)[..|before|] == before
              && UpsertAll(m, before + [c], draws)
                 == Upsert(UpsertAll(m, before, draws), c.key, Sha256(c.value), draws[|before|])
    ensures !Tokenizable(e.value(fields[i])) ==> before == EntityCells(e, fields[..i + 1])
  {
    FieldsStep(e, fields, i);
    if Tokenizable(e.value(fields[i])) {
      FieldsLeft(e, fields, i);
      UpsertSnoc(m, before, Cell(Key(e.kind, e.id, fields[i]), e.value(fields[i]).value), draws);
    }
  }

  /** The map and the output row before field `i` of the inner loop, started on the map `m`. */
  ghost predicate EntitySoFar(p: PseudonymMap, m: PseudonymMap, e: Entity, fields: seq<Field>, i: nat,
                              draws: seq<string>, cells: seq<string>, tokenized: set<Field>, writes: nat)
    requires i <= |fields|
  {
    && writes == |EntityCells(e, fields[..i])| <= |draws|
    && p == UpsertAll(m, EntityCells(e, fields[..i]), draws)
    && CellsWritten(p, e, fields, i, cells, tokenized)
  }

  lemma FieldUpserted(p: PseudonymMap, m: PseudonymMap, e: Entity, fields: seq<Field>, i: nat, draws: seq<string>,
                      cells: seq<string>, tokenized: set<Field>, writes: nat)
    requires NoDuplicates(fields) && i < |fields| && |EntityCells(e, fields)| <= |draws|
    requires EntitySoFar(p, m, e, fields, i, draws, cells, tokenized, writes) && Tokenizable(e.value(fields[i]))
    ensures writes < |EntityCells(e, fields)| && p == UpsertAll(m, EntityCells(e, fields)[..writes], draws)
    ensures var key := Key(e.kind, e.id, fields[i]);
            var q := Upsert(p, key, Sha256(e.value(fields[i]).value), draws[writes]);
            EntitySoFar(q, m, e, fields, i + 1, draws, cells + [q[key].token], tokenized + {fields[i]}, writes + 1)
  {
    var before := EntityCells(e, fields[..i]);
    CellsGrow(m, e, fields, i, before, draws);
    CellsAdvance(p, e, fields, i, cells, tokenized, draws[writes]);
  }

  lemma FieldSkipped(p: PseudonymMap, m: PseudonymMap, e: Entity, fields: seq<Field>, i: nat, draws: seq<string>,
                     cells: seq<string>, tokenized: set<Field>, writes: nat)
    requires NoDuplicates(fields) && i < |fields| && |EntityCells(e, fields)| <= |draws|
    requires EntitySoFar(p, m, e, fields, i, draws, cells, tokenized, writes) && !Tokenizable(e.value(fields[i]))
    ensures EntitySoFar(p, m, e, fields, i + 1, draws, cells + [""], tokenized, writes)
  {
    CellsGrow(m, e, fields, i, EntityCells(e, fields[..i]), draws);
    CellsAdvance(p, e, fields, i, cells, tokenized, "");
  }

  /** The body of the inner loop: a token is drawn and offered, and the one in force is output. */
  method TokenizeField(store: Store, ghost m: PseudonymMap, e: Entity, fields: seq<Field>, i: nat, draws: seq<string>,
                       outage: Outage, cells: seq<string>, tokenized: set<Field>, writes: nat)
    returns (cells': seq<string>, tokenized': set<Field>, writes': nat, ok: bool)
    requires NoDuplicates(fields) && i < |fields| && |EntityCells(e, fields)| <= |draws| && !Hits(outage, writes)
    requires EntitySoFar(store.pseudonyms, m, e, fields, i, draws, cells, tokenized, writes)
    modifies store`pseudonyms
    ensures ok ==> EntitySoFar(store.pseudonyms, m, e, fields, i + 1, draws, cells', tokenized', writes')
                   && !Hits(outage, writes')
    ensures !ok ==> Hits(outage, |EntityCells(e, fields)|)
                    && store.pseudonyms == UpsertAll(m, EntityCells(e, fields)[..outage.value], draws)
  {
    var f := fields[i];
    cells', tokenized', writes', ok := cells + [""], tokenized, writes, true;
    if !Tokenizable(e.value(f)) {
      FieldSkipped(store.pseudonyms, m, e, fields, i, draws, cells, tokenized, writes);
      return;
    }
    FieldUpserted(store.pseudonyms, m, e, fields, i, draws, cells, tokenized, writes);
    if outage == Some(writes) {
      ok := false;
    } else {
      var effective := store.UpsertPseudonym(Key(e.kind, e.id, f), Sha256(e.value(f).value), draws[writes]);
      cells', tokenized', writes' := cells + [effective], tokenized + {f}, writes + 1;
    }
  }

  /** The inner loop over the fields of one person. */
  method TokenizeEntity(store: Store, e: Entity, fields: seq<Field>, draws: seq<string>, outage: Outage)
    returns (cells: seq<string>, tokenized: set<Field>, writes: nat, ok: bool)
    requires NoDuplicates(fields) && |EntityCells(e, fields)| <= |draws|
    modifies store`pseudonyms
    ensures ok <==> !Hits(outage, |EntityCells(e, fields)|)
    ensures !ok ==> store.pseudonyms == UpsertAll(old(store.pseudonyms), EntityCells(e, fields)[..outage.value], draws)
    ensures ok ==> store.pseudonyms == UpsertAll(old(store.pseudonyms), EntityCells(e, fields), draws)
                   && cells == OutputCells(store.pseudonyms, e, fields) && writes == |EntityCells(e, fields)|
    ensures ok ==> forall f :: f in tokenized <==> f in fields && Tokenizable(e.value(f))
  {
    cells, tokenized, writes, ok := [], {}, 0, true;
    ghost var m := store.pseudonyms;
    for i := 0 to |fields|
      invariant ok && !Hits(outage, writes)
      invariant EntitySoFar(store.pseudonyms, m, e, fields, i, draws, cells, tokenized, writes)
    {
      cells, tokenized, writes, ok := TokenizeField(store, m, e, fields, i, draws, outage, cells, tokenized, writes);
      if !ok {
        return;
      }
    }
    assert fields[..|fields|] == fields;
    CellsDone(store.pseudonyms, e, fields, cells, tokenized);
  }

  /** The map and the output before person `i` of the outer loop, started on the map `m`. */
  ghost predicate TokenizedSoFar(p: PseudonymMap, m: PseudonymMap, es: seq<Entity>, fields: seq<Field>, i: nat,
                                 draws: seq<string>, rows: seq<seq<string>>, tokenized: set<Field>, writes: nat)
    requires i <= |es|
  {
    && |rows| == i && writes == |AllCells(es[..i], fields)| <= |draws|
    && p == UpsertAll(m, AllCells(es[..i], fields), draws)
    && (forall j :: 0 <= j < i ==> rows[j] == OutputCells(p, es[j], fields))
    && (forall f :: f in tokenized <==> f in fields && SomeoneHas(es[..i], f))
  }

  /** Earlier rows stay and one more is right. */
  lemma RowsExtend(m: PseudonymMap, es: seq<Entity>, fields: seq<Field>, i: nat, draws: seq<string>,
                   rows: seq<seq<string>>, cells: seq<string>)
    requires i < |es| && |AllCells(es[..i + 1], fields)| <= |draws|
    requires |rows| == i && |AllCells(es[..i], fields)| <= |draws|
    requires forall j :: 0 <= j < i ==>
               rows[j] == OutputCells(UpsertAll(m, AllCells(es[..i], fields), draws), es[j], fields)
    requires cells == OutputCells(UpsertAll(m, AllCells(es[..i + 1], fields), draws), es[i], fields)
    ensures forall j :: 0 <= j < i + 1 ==>
              (rows + [cells])[j] == OutputCells(UpsertAll(m, AllCells(es[..i + 1], fields), draws), es[j], fields)
  {
    RowsStay(m, es, fields, i, draws);
  }

  lemma FieldsExtend(es: seq<Entity>, fields: seq<Field>, i: nat, tokenized: set<Field>, some: set<Field>)
    requires i < |es|
    requires forall f :: f in tokenized <==> f in fields && SomeoneHas(es[..i], f)
    requires forall f :: f in some <==> f in fields && Tokenizable(es[i].value(f))
    ensures forall f :: f in tokenized + some <==> f in fields && SomeoneHas(es[..i + 1], f)
  {
  }

  /** One more person's cells, row and fields. */
  lemma OnePersonMore(p: PseudonymMap, m: PseudonymMap, es: seq<Entity>, fields: seq<Field>, i: nat, draws: seq<string>,
                      rows: seq<seq<string>>, tokenized: set<Field>, writes: nat, cells: seq<string>, some: set<Field>)
    requires i < |es| && |AllCells(es, fields)| <= |draws|
    requires TokenizedSoFar(p, m, es, fields, i, draws, rows, tokenized, writes)
    requires |EntityCells(es[i], fields)| <= |draws| - writes
    requires var q := UpsertAll(p, EntityCells(es[i], fields), draws[writes..]); cells == OutputCells(q, es[i], fields)
    requires forall f :: f in some <==> f in fields && Tokenizable(es[i].value(f))
    ensures TokenizedSoFar(UpsertAll(p, EntityCells(es[i], fields), draws[writes..]), m, es, fields, i + 1, draws,
                           rows + [cells], tokenized + some, writes + |EntityCells(es[i], fields)|)
  {
    CellsStep(es, fields, i);
    UpsertConcat(m, AllCells(es[..i], fields), EntityCells(es[i], fields), draws);
    RowsExtend(m, es, fields, i, draws, rows, cells);
    FieldsExtend(es, fields, i, tokenized, some);
  }

  /** An error among a person's upserts leaves the upserts of a prefix of all cells. */
  lemma StoppedAmid(m: PseudonymMap, es: seq<Entity>, fields: seq<Field>, i: nat, draws: seq<string>, stop: nat)
    requires i < |es| && |AllCells(es, fields)| <= |draws|
    requires |AllCells(es[..i], fields)| <= stop < |AllCells(es[..i], fields)| + |EntityCells(es[i], fields)|
    ensures stop < |AllCells(es, fields)| && |AllCells(es[..i], fields)| <= |draws|
    ensures var done := AllCells(es[..i], fields);
            UpsertAll(UpsertAll(m, done, draws), EntityCells(es[i], fields)[..stop - |done|], draws[|done|..])
            == UpsertAll(m, AllCells(es, fields)[..stop], draws)
  {
    CellsStep(es, fields, i);
    var done := AllCells(es[..i], fields);
    var part := EntityCells(es[i], fields)[..stop - |done|];
    assert AllCells(es, fields)[..stop] == done + part;
    UpsertConcat(m, done, part, draws);
  }

  /** The body of the outer loop. */
  method TokenizeNext(store: Store, ghost m: PseudonymMap, es: seq<Entity>, fields: seq<Field>, i: nat,
                      draws: seq<string>, outage: Outage,
                      rows: seq<seq<string>>, tokenized: set<Field>, writes: nat)
    returns (rows': seq<seq<string>>, tokenized': set<Field>, writes': nat, ok: bool)
    requires NoDuplicates(fields) && i < |es| && |AllCells(es, fields)| <= |draws| && !Hits(outage, writes)
    requires TokenizedSoFar(store.pseudonyms, m, es, fields, i, draws, rows, tokenized, writes)
    modifies store`pseudonyms
    ensures ok ==> TokenizedSoFar(store.pseudonyms, m, es, fields, i + 1, draws, rows', tokenized', writes')
                   && !Hits(outage, writes')
    ensures !ok ==> Hits(outage, |AllCells(es, fields)|)
                    && store.pseudonyms == UpsertAll(m, AllCells(es, fields)[..outage.value], draws)
  {
    CellsStep(es, fields, i);
    ghost var before := store.pseudonyms;
    var cells, some, n, fine := TokenizeEntity(store, es[i], fields, draws[writes..], Shift(outage, writes));
    ok := fine;
    rows', tokenized', writes' := rows + [cells], tokenized + some, writes + n;
    if fine {
      OnePersonMore(before, m, es, fields, i, draws, rows, tokenized, writes, cells, some);
    } else {
      StoppedAmid(m, es, fields, i, draws, outage.value);
    }
  }

  /** The outer loop: every person in load order; stops at the first error, keeping what was written. */
  method TokenizeAll(store: Store, es: seq<Entity>, fields: seq<Field>, draws: seq<string>, outage: Outage)
    returns (rows: seq<seq<string>>, tokenized: set<Field>, writes: nat, ok: bool)
    requires NoDuplicates(fields) && |AllCells(es, fields)| <= |draws|
    modifies store`pseudonyms
    ensures ok <==> !Hits(outage, |AllCells(es, fields)|)
    ensures !ok ==> store.pseudonyms == UpsertAll(old(store.pseudonyms), AllCells(es, fields)[..outage.value], draws)
    ensures ok ==> store.pseudonyms == UpsertAll(old(store.pseudonyms), AllCells(es, fields), draws)
    ensures ok ==> |rows| == |es|
                   && forall i :: 0 <= i < |es| ==> rows[i] == OutputCells(store.pseudonyms, es[i], fields)
    ensures ok ==> writes == |AllCells(es, fields)|
    ensures ok ==> forall f :: f in tokenized <==> f in fields && SomeoneHas(es, f)
  {
    rows, tokenized, writes, ok := [], {}, 0, true;
    ghost var m := store.pseudonyms;
    var i := 0;
    while i < |es|
      invariant 0 <= i <= |es| && ok && !Hits(outage, writes)
      invariant TokenizedSoFar(store.pseudonyms, m, es, fields, i, draws, rows, tokenized, writes)
    {
      rows, tokenized, writes, ok := TokenizeNext(store, m, es, fields, i, draws, outage, rows, tokenized, writes);
      if !ok {
        return;
      }
      i := i + 1;
    }
    assert es[..|es|] == es;
  }
}
