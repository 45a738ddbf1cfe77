/**
 k-anonymity of a released column: the smallest class of records that share a
 quasi-identifier key (worker/internal/anonymizer/kanon.go).
 */
module KAnonymity {
  import opened Finite

  const K_THRESHOLD := 5

  /** How many records carry the key `x`. */
  ghost function ClassSize<T>(keys: seq<T>, x: T): nat
  {
    multiset(keys)[x]
  }

  ghost function Classes<T>(keys: seq<T>): set<T>
  {
    set x | x in keys
  }

  /** k-anonymity as its definition states it: no class is smaller than k, and one has exactly k members. */
  ghost predicate IsK<T>(keys: seq<T>, k: nat)
  {
    if keys == [] then k == 0
    else
      && (forall x :: x in keys ==> k <= ClassSize(keys, x))
      && (exists x :: x in keys && ClassSize(keys, x) == k)
  }

  lemma KUnique<T>(keys: seq<T>, j: nat, k: nat)
    requires IsK(keys, j) && IsK(keys, k)
    ensures j == k
  {
  }

  datatype KReport = KReport(k: nat, compliant: bool, classes: nat, total: nat, smallest: string)

  /** The counting loop: one entry per distinct key, holding how often it occurred. */
  method CountKeys(keys: seq<string>) returns (counts: map<string, nat>)
    ensures counts.Keys == Classes(keys)
    ensures forall x :: x in counts ==> counts[x] == ClassSize(keys, x)
  {
    counts := map[];
    for i := 0 to |keys|
      invariant counts.Keys == Classes(keys[..i])
      invariant forall x :: x in counts ==> counts[x] == ClassSize(keys[..i], x)
    {
      var key := keys[i];
      assert keys[..i + 1] == keys[..i] + [key];
      assert key !in counts ==> ClassSize(keys[..i], key) == 0;
      counts := counts[key := (if key in counts then counts[key] else 0) + 1];
    }
    assert keys[..|keys|] == keys;
  }

  /**
   `computeK`. The second loop visits the counted keys in an arbitrary order, as
   Go's map iteration does; only the choice among equally small classes may
   depend on that order.
   */
  method ComputeK(keys: seq<string>) returns (k: nat, classes: nat, smallest: string)
    ensures IsK(keys, k)
    ensures classes == |Classes(keys)|
    ensures keys == [] ==> smallest == ""
    ensures keys != [] ==> smallest in keys && ClassSize(keys, smallest) == k
  {
    if |keys| == 0 {
      assert Classes(keys) == {};
      return 0, 0, "";
    }
    var counts := CountKeys(keys);
    var best := -1;
    smallest := "";
    var todo := counts.Keys;
    while todo != {}
      invariant todo <= counts.Keys
      invariant best == -1 <==> todo == counts.Keys
      invariant best != -1 ==> smallest in counts && counts[smallest] == best
      invariant forall x :: x in counts && x !in todo ==> best <= counts[x]
      decreases todo
    {
      var key :| key in todo;
      todo := todo - {key};
      if best == -1 || counts[key] < best {
        best, smallest := counts[key], key;
      }
    }
    assert keys[0] in counts;
    k, classes := best, |counts|;
    assert |counts| == |counts.Keys|;
    assert ClassSize(keys, smallest) == k;
  }

  /** The report tells the truth about a column, the compliance verdict spelled out on the classes themselves. */
  ghost predicate Describes(r: KReport, keys: seq<string>)
  {
    && IsK(keys, r.k) && r.total == |keys| && r.classes == |Classes(keys)|
    && (r.compliant <==> keys != [] && forall x :: x in keys ==> K_THRESHOLD <= ClassSize(keys, x))
    && (keys != [] ==> r.smallest in keys && ClassSize(keys, r.smallest) == r.k)
  }

  /** `kAnonReport`. */
  method KAnonReport(keys: seq<string>) returns (r: KReport)
    ensures Describes(r, keys)
  {
    var k, classes, smallest := ComputeK(keys);
    r := KReport(k, k >= K_THRESHOLD, classes, |keys|, smallest);
  }

  // ── What the number means ──────────────────────────────────────────────

  lemma {:induction false} ClassSizesSum<T>(keys: seq<T>, classes: set<T>)
    requires Classes(keys) <= classes
    ensures SumOver(classes, x => ClassSize(keys, x)) == |keys|
  {
    var f := x => ClassSize(keys, x);
    if keys == [] {
      SumConstant(classes, f, 0);
    } else {
      var n := |keys| - 1;
      var g := x => ClassSize(keys[..n], x);
      assert keys == keys[..n] + [keys[n]];
      assert keys[n] in classes;
      ClassSizesSum(keys[..n], classes);
      SumPick(classes, keys[n], f);
      SumPick(classes, keys[n], g);
      SumEqual(classes - {keys[n]}, f, g);
    }
  }

  /** The classes partition the records, so k records per class never exceed the whole release. */
  lemma ClassesPartition<T>(keys: seq<T>, k: nat)
    requires IsK(keys, k)
    ensures SumOver(Classes(keys), x => ClassSize(keys, x)) == |keys|
    ensures k * |Classes(keys)| <= |keys|
  {
    var f, g := x => ClassSize(keys, x), (x: T) => k as int;
    ClassSizesSum(keys, Classes(keys));
    SumConstant(Classes(keys), g, k);
    SumAtMost(Classes(keys), g, f);
  }

  /** The positions at which a key occurs. */
  ghost function Positions<T>(keys: seq<T>, x: T): set<nat>
  {
    set i | 0 <= i < |keys| && keys[i] == x
  }

  lemma {:induction false} ClassSizeIsPositions<T>(keys: seq<T>, x: T)
    ensures ClassSize(keys, x) == |Positions(keys, x)|
  {
    if keys == [] {
      assert Positions(keys, x) == {};
    } else {
      var n := |keys| - 1;
      ClassSizeIsPositions(keys[..n], x);
      assert keys == keys[..n] + [keys[n]];
      assert Positions(keys, x) == Positions(keys[..n], x) + if keys[n] == x then {n} else {};
    }
  }

  /** Every record is indistinguishable from at least k - 1 other records. */
  lemma EachRecordHides<T>(keys: seq<T>, k: nat, i: nat)
    requires IsK(keys, k) && i < |keys|
    ensures |Positions(keys, keys[i]) - {i}| >= k - 1
  {
    ClassSizeIsPositions(keys, keys[i]);
    assert i in Positions(keys, keys[i]);
    assert |Positions(keys, keys[i]) - {i}| == |Positions(keys, keys[i])| - 1;
  }

  /** A column without repetitions has k = 1. */
  lemma DistinctColumn<T>(keys: seq<T>)
    requires keys != [] && forall i, j :: 0 <= i < j < |keys| ==> keys[i] != keys[j]
    ensures IsK(keys, 1)
  {
    forall i | 0 <= i < |keys| ensures ClassSize(keys, keys[i]) == 1 {
      ClassSizeIsPositions(keys, keys[i]);
      assert Positions(keys, keys[i]) == {i};
    }
    assert keys[0] in keys;
  }

  /** A constant column has k = its length. */
  lemma ConstantColumn<T>(keys: seq<T>, x: T)
    requires keys != [] && forall i :: 0 <= i < |keys| ==> keys[i] == x
    ensures IsK(keys, |keys|)
  {
    ConstantClass(keys, x);
    assert keys[0] in keys;
  }

  lemma {:induction false} ConstantClass<T>(keys: seq<T>, x: T)
    requires forall i :: 0 <= i < |keys| ==> keys[i] == x
    ensures ClassSize(keys, x) == |keys|
  {
    if keys != [] {
      var n := |keys| - 1;
      ConstantClass(keys[..n], x);
      assert keys == keys[..n] + [keys[n]];
    }
  }

  // ── Generalization ─────────────────────────────────────────────────────

  /** `coarse` merges classes of `fine` and never splits one. */
  ghost predicate Coarsens<S, T>(fine: seq<S>, coarse: seq<T>)
  {
    && |fine| == |coarse|
    && forall i, j :: 0 <= i < |fine| && 0 <= j < |fine| && fine[i] == fine[j] ==> coarse[i] == coarse[j]
  }

  lemma {:induction false} ClassGrows<S, T>(fine: seq<S>, coarse: seq<T>, i: nat)
    requires Coarsens(fine, coarse) && i < |fine|
    ensures ClassSize(fine, fine[i]) <= ClassSize(coarse, coarse[i])
  {
    var p, q := Positions(fine, fine[i]), Positions(coarse, coarse[i]);
    ClassSizeIsPositions(fine, fine[i]);
    ClassSizeIsPositions(coarse, coarse[i]);
    assert p <= q;
    SubsetSize(p, q);
  }

  /** The coarse key that stands where the fine key `x` first occurs. */
  ghost function CoarseKey<S, T>(fine: seq<S>, coarse: seq<T>, x: S, otherwise: T): T
  {
    if |fine| == |coarse| && x in fine then var i :| 0 <= i < |fine| && fine[i] == x; coarse[i] else otherwise
  }

  lemma FewerClasses<S, T>(fine: seq<S>, coarse: seq<T>)
    requires Coarsens(fine, coarse)
    ensures |Classes(coarse)| <= |Classes(fine)|
  {
    if coarse == [] {
      assert Classes(coarse) == {};
    } else {
      var first := coarse[0];
      var h := x => CoarseKey(fine, coarse, x, first);
      forall i | 0 <= i < |fine| ensures h(fine[i]) == coarse[i] {
      }
      var image := set x | x in Classes(fine) :: h(x);
      forall y | y in coarse ensures y in image {
        var i :| 0 <= i < |coarse| && coarse[i] == y;
        assert fine[i] in Classes(fine);
      }
      assert Classes(coarse) == image;
      ImageSize(Classes(fine), h, image);
    }
  }

  /** Generalizing a column never lowers its k and never adds classes. */
  lemma CoarseningNeverLowersK<S, T>(fine: seq<S>, coarse: seq<T>, j: nat, k: nat)
    requires Coarsens(fine, coarse)
    requires IsK(fine, j) && IsK(coarse, k)
    ensures j <= k
    ensures |Classes(coarse)| <= |Classes(fine)|
  {
    FewerClasses(fine, coarse);
    if fine != [] {
      var x :| x in coarse && ClassSize(coarse, x) == k;
      var i :| 0 <= i < |coarse| && coarse[i] == x;
      ClassGrows(fine, coarse, i);
      assert fine[i] in fine;
    }
  }
}
