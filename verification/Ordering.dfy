/** Strictly sorted sequences, and the order in which PostgreSQL lists ids. */
module Ordering {

  ghost predicate StrictOrder<T(!new)>(lt: (T, T) -> bool)
  {
    && (forall x :: !lt(x, x))
    && (forall x, y, z :: lt(x, y) && lt(y, z) ==> lt(x, z))
  }

  ghost predicate Sorted<T>(s: seq<T>, lt: (T, T) -> bool)
  {
    forall i, j :: 0 <= i < j < |s| ==> lt(s[i], s[j])
  }

  lemma LeastFirst<T(!new)>(s: seq<T>, x: T, lt: (T, T) -> bool)
    requires Sorted(s, lt) && x in s
    ensures x == s[0] || lt(s[0], x)
  {
  }

  /** A set has at most one strictly sorted listing. */
  lemma {:induction false} SortedUnique<T(!new)>(s: seq<T>, t: seq<T>, lt: (T, T) -> bool)
    requires StrictOrder(lt) && Sorted(s, lt) && Sorted(t, lt)
    requires forall x :: x in s <==> x in t
    ensures s == t
  {
    if s == [] {
      assert forall i :: 0 <= i < |t| ==> t[i] in t;
    } else {
      assert s[0] in t;
      assert t[0] in s;
      LeastFirst(t, s[0], lt);
      LeastFirst(s, t[0], lt);
      forall x ensures x in s[1..] <==> x in t[1..] {
        TailMembers(s, lt, x);
        TailMembers(t, lt, x);
      }
      SortedUnique(s[1..], t[1..], lt);
      assert s == [s[0]] + s[1..] && t == [t[0]] + t[1..];
    }
  }

  lemma TailMembers<T(!new)>(s: seq<T>, lt: (T, T) -> bool, x: T)
    requires StrictOrder(lt) && Sorted(s, lt) && s != []
    ensures x in s[1..] <==> x in s && x != s[0]
  {
  }

  /** Lexicographic order; on canonical ids it is the order of the `uuid` type. */
  predicate Before(a: string, b: string)
  {
    b != "" && (a == "" || a[0] < b[0] || (a[0] == b[0] && Before(a[1..], b[1..])))
  }

  lemma {:induction false} BeforeTransitive(a: string, b: string, c: string)
    requires Before(a, b) && Before(b, c)
    ensures Before(a, c)
  {
    if a != "" && a[0] == b[0] && b[0] == c[0] {
      BeforeTransitive(a[1..], b[1..], c[1..]);
    }
  }

  lemma {:induction false} BeforeTotal(a: string, b: string)
    ensures !Before(a, a)
    ensures a != b ==> Before(a, b) || Before(b, a)
  {
    if a != "" {
      BeforeTotal(a[1..], if b == "" then b else b[1..]);
      if b != "" {
        assert a == [a[0]] + a[1..] && b == [b[0]] + b[1..];
      }
    }
  }

  lemma BeforeIsStrict()
    ensures StrictOrder(Before)
  {
    forall x ensures !Before(x, x) {
      BeforeTotal(x, x);
    }
    forall x, y, z | Before(x, y) && Before(y, z) ensures Before(x, z) {
      BeforeTransitive(x, y, z);
    }
  }

  /** The id a sorted listing names first. */
  method Least(ids: set<string>) returns (least: string)
    requires ids != {}
    ensures least in ids
    ensures forall id :: id in ids && id != least ==> Before(least, id)
  {
    least :| least in ids;
    var todo := ids - {least};
    while todo != {}
      invariant todo < ids && least in ids - todo
      invariant forall id :: id in ids - todo && id != least ==> Before(least, id)
      decreases todo
    {
      var id :| id in todo;
      BeforeTotal(id, least);
      if Before(id, least) {
        forall other | other in ids - todo && other != least ensures Before(id, other) {
          BeforeTransitive(id, least, other);
        }
        least := id;
      }
      todo := todo - {id};
    }
  }

  /** `ORDER BY id`: every id once, in ascending order. */
  ghost predicate IsListing(list: seq<string>, ids: set<string>)
  {
    && Sorted(list, Before)
    && forall id :: id in list <==> id in ids
  }

  lemma ListingUnique(s: seq<string>, t: seq<string>, ids: set<string>)
    requires IsListing(s, ids) && IsListing(t, ids)
    ensures s == t
  {
    BeforeIsStrict();
    SortedUnique(s, t, Before);
  }

  method OrderById(ids: set<string>) returns (list: seq<string>)
    ensures IsListing(list, ids)
  {
    list := [];
    var todo := ids;
    while todo != {}
      invariant todo <= ids
      invariant IsListing(list, ids - todo)
      invariant forall x, y :: x in list && y in todo ==> Before(x, y)
      decreases todo
    {
      var id := Least(todo);
      list := list + [id];
      todo := todo - {id};
    }
  }

  lemma {:induction false} LeastExists(ids: set<string>) returns (least: string)
    requires ids != {}
    ensures least in ids
    ensures forall id :: id in ids && id != least ==> Before(least, id)
    decreases ids
  {
    var x :| x in ids;
    if ids == {x} {
      least := x;
    } else {
      var y := LeastExists(ids - {x});
      BeforeTotal(x, y);
      least := if Before(x, y) then x else y;
      forall id | id in ids && id != least ensures Before(least, id) {
        if Before(x, y) && id != y {
          BeforeTransitive(x, y, id);
        }
      }
    }
  }

  /** Every finite set of ids has a listing. */
  lemma {:induction false} ListingExists(ids: set<string>) returns (list: seq<string>)
    ensures IsListing(list, ids)
    decreases ids
  {
    if ids == {} {
      list := [];
    } else {
      var first := LeastExists(ids);
      var rest := ListingExists(ids - {first});
      list := [first] + rest;
    }
  }
}
