/** Sums and counts over finite sets. */
module Finite {

  /** The sum of `f` over a finite set, in whatever order the elements are taken. */
  ghost function SumOver<T>(s: set<T>, f: T -> int): int
  {
    if s == {} then 0 else var x :| x in s; f(x) + SumOver(s - {x}, f)
  }

  /** Any element may be taken out first. */
  lemma {:induction false} SumPick<T>(s: set<T>, x: T, f: T -> int)
    requires x in s
    ensures SumOver(s, f) == f(x) + SumOver(s - {x}, f)
    decreases s
  {
    var y :| y in s && SumOver(s, f) == f(y) + SumOver(s - {y}, f);
    if y != x {
      SumPick(s - {y}, x, f);
      SumPick(s - {x}, y, f);
      assert s - {y} - {x} == s - {x} - {y};
    }
  }

  lemma {:induction false} SumEqual<T>(s: set<T>, f: T -> int, g: T -> int)
    requires forall x :: x in s ==> f(x) == g(x)
    ensures SumOver(s, f) == SumOver(s, g)
    decreases s
  {
    if s != {} {
      var x :| x in s;
      SumPick(s, x, f);
      SumPick(s, x, g);
      SumEqual(s - {x}, f, g);
    }
  }

  lemma {:induction false} SumAtMost<T>(s: set<T>, f: T -> int, g: T -> int)
    requires forall x :: x in s ==> f(x) <= g(x)
    ensures SumOver(s, f) <= SumOver(s, g)
    decreases s
  {
    if s != {} {
      var x :| x in s;
      SumPick(s, x, f);
      SumPick(s, x, g);
      SumAtMost(s - {x}, f, g);
    }
  }

  lemma {:induction false} SumConstant<T>(s: set<T>, f: T -> int, c: int)
    requires forall x :: x in s ==> f(x) == c
    ensures SumOver(s, f) == c * |s|
    decreases s
  {
    if s != {} {
      var x :| x in s;
      SumPick(s, x, f);
      SumConstant(s - {x}, f, c);
      assert |s| == |s - {x}| + 1;
      assert c * |s| == c * |s - {x}| + c;
    }
  }

  lemma {:induction false} SumSplit<T>(s: set<T>, t: set<T>, f: T -> int)
    requires s !! t
    ensures SumOver(s + t, f) == SumOver(s, f) + SumOver(t, f)
    decreases t
  {
    if t == {} {
      assert s + t == s;
    } else {
      var x :| x in t;
      SumPick(s + t, x, f);
      SumPick(t, x, f);
      assert s + t - {x} == s + (t - {x});
      SumSplit(s, t - {x}, f);
    }
  }

  /** Summing over the image of an injection is summing over its domain. */
  lemma {:induction false} SumImage<A, B>(s: set<A>, h: A -> B, f: B -> int, t: set<B>, e: A -> int)
    requires forall x, y :: x in s && y in s && h(x) == h(y) ==> x == y
    requires t == set x | x in s :: h(x)
    requires forall x :: x in s ==> e(x) == f(h(x))
    ensures SumOver(t, f) == SumOver(s, e)
    ensures |t| == |s|
    decreases s
  {
    if s == {} {
      assert t == {};
    } else {
      var x :| x in s;
      assert h(x) in t;
      assert t - {h(x)} == set z | z in s - {x} :: h(z);
      SumImage(s - {x}, h, f, t - {h(x)}, e);
      SumPick(s, x, e);
      SumPick(t, h(x), f);
    }
  }

  /** An image has no more elements than the set it is taken of. */
  lemma {:induction false} ImageSize<A, B>(s: set<A>, h: A -> B, t: set<B>)
    requires t == set x | x in s :: h(x)
    ensures |t| <= |s|
    decreases s
  {
    if s == {} {
      assert t == {};
    } else {
      var x :| x in s;
      var rest := set z | z in s - {x} :: h(z);
      ImageSize(s - {x}, h, rest);
      assert t == rest + {h(x)};
      assert s == s - {x} + {x};
    }
  }

  /** It has as many exactly when no two elements have the same image. */
  lemma ImageSizeExact<A, B>(s: set<A>, h: A -> B, t: set<B>)
    requires t == set x | x in s :: h(x)
    ensures |t| == |s| <==> forall x, y :: x in s && y in s && h(x) == h(y) ==> x == y
  {
    if x, y :| x in s && y in s && h(x) == h(y) && x != y {
      var rest := set z | z in s - {x} :: h(z);
      assert y in s - {x} && h(x) in rest;
      assert t == rest;
      ImageSize(s - {x}, h, rest);
      assert |s - {x}| == |s| - 1;
    } else {
      SumImage(s, h, _ => 0, t, _ => 0);
    }
  }

  ghost function Group<T, K>(s: set<T>, key: T -> K, k: K): set<T>
  {
    set x | x in s && key(x) == k
  }

  /** Grouping by a key and adding up the groups gives the ungrouped sum. */
  lemma {:induction false} SumByGroup<T, K>(s: set<T>, key: T -> K, groups: set<K>, f: T -> int)
    requires forall x :: x in s ==> key(x) in groups
    ensures SumOver(groups, k => SumOver(Group(s, key, k), f)) == SumOver(s, f)
    decreases groups
  {
    var part := k => SumOver(Group(s, key, k), f);
    if groups == {} {
      assert s == {};
    } else {
      var k :| k in groups;
      var here := Group(s, key, k);
      var rest := s - here;
      SumPick(groups, k, part);
      SumByGroup(rest, key, groups - {k}, f);
      var restPart := j => SumOver(Group(rest, key, j), f);
      forall j | j in groups - {k} ensures part(j) == restPart(j) {
        assert Group(s, key, j) == Group(rest, key, j);
      }
      SumEqual(groups - {k}, part, restPart);
      SumSplit(here, rest, f);
      assert here + rest == s;
    }
  }

  lemma {:induction false} SubsetSize<T>(s: set<T>, t: set<T>)
    requires s <= t
    ensures |s| <= |t|
    ensures |s| == |t| ==> s == t
  {
    assert |t - s| == |t| - |s|;
    if |s| == |t| {
      assert t - s == {};
    }
  }
}
