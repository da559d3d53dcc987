/** A stable insertion sort by any order, and what does not depend on the order of a sequence. */
module Sorting {
  /** Put an element before the first it may stand before. */
  function Insert<T>(le: (T, T) -> bool, x: T, xs: seq<T>): seq<T> {
    if xs == [] || le(x, xs[0]) then [x] + xs else [xs[0]] + Insert(le, x, xs[1..])
  }

  function Sort<T>(le: (T, T) -> bool, xs: seq<T>): seq<T> {
    if xs == [] then [] else Insert(le, xs[0], Sort(le, xs[1..]))
  }

  ghost predicate Ordered<T>(le: (T, T) -> bool, xs: seq<T>) {
    forall i, j :: 0 <= i < j < |xs| ==> le(xs[i], xs[j])
  }

  ghost predicate IsOrder<T(!new)>(le: (T, T) -> bool) {
    && (forall x, y :: le(x, y) || le(y, x))
    && (forall x, y, z :: le(x, y) && le(y, z) ==> le(x, z))
  }

  lemma {:induction false} InsertPermutes<T>(le: (T, T) -> bool, x: T, xs: seq<T>)
    ensures multiset(Insert(le, x, xs)) == multiset(xs) + multiset{x}
  {
    if xs != [] && !le(x, xs[0]) {
      InsertPermutes(le, x, xs[1..]);
      assert xs == [xs[0]] + xs[1..];
    }
  }

  /** Sorting neither adds nor loses an element. */
  lemma {:induction false} SortPermutes<T>(le: (T, T) -> bool, xs: seq<T>)
    ensures multiset(Sort(le, xs)) == multiset(xs)
  {
    if xs != [] {
      SortPermutes(le, xs[1..]);
      InsertPermutes(le, xs[0], Sort(le, xs[1..]));
      assert xs == [xs[0]] + xs[1..];
    }
  }

  lemma OrderedCons<T(!new)>(le: (T, T) -> bool, x: T, xs: seq<T>)
    requires Ordered(le, xs) && forall y :: y in xs ==> le(x, y)
    ensures Ordered(le, [x] + xs)
  {
    var all := [x] + xs;
    forall i, j | 0 <= i < j < |all| ensures le(all[i], all[j]) {
      assert all[j] == xs[j - 1];
      if i > 0 { assert all[i] == xs[i - 1]; }
    }
  }

  lemma {:induction false} InsertOrders<T(!new)>(le: (T, T) -> bool, x: T, xs: seq<T>)
    requires IsOrder(le) && Ordered(le, xs)
    ensures Ordered(le, Insert(le, x, xs))
  {
    if xs == [] {
    } else if le(x, xs[0]) {
      forall y | y in xs ensures le(x, y) {
        var k :| 0 <= k < |xs| && xs[k] == y;
        assert k > 0 ==> le(xs[0], xs[k]);
      }
      OrderedCons(le, x, xs);
    } else {
      var rest := xs[1..];
      assert Ordered(le, rest) by {
        forall i, j | 0 <= i < j < |rest| ensures le(rest[i], rest[j]) { assert le(xs[i + 1], xs[j + 1]); }
      }
      InsertOrders(le, x, rest);
      var t := Insert(le, x, rest);
      InsertPermutes(le, x, rest);
      forall y | y in t ensures le(xs[0], y) {
        assert y in multiset(t);
        if y != x {
          assert y in rest;
          var k :| 0 <= k < |rest| && rest[k] == y;
          assert le(xs[0], xs[k + 1]);
        }
      }
      OrderedCons(le, xs[0], t);
    }
  }

  /** Sorting orders. */
  lemma {:induction false} SortOrders<T(!new)>(le: (T, T) -> bool, xs: seq<T>)
    requires IsOrder(le)
    ensures Ordered(le, Sort(le, xs))
  {
    hide IsOrder;
    if xs != [] {
      SortOrders(le, xs[1..]);
      InsertOrders(le, xs[0], Sort(le, xs[1..]));
    }
  }

  function Filter<T>(keep: T -> bool, xs: seq<T>): seq<T> {
    if xs == [] then [] else (if keep(xs[0]) then [xs[0]] else []) + Filter(keep, xs[1..])
  }

  lemma {:induction false} InsertStable<T(!new)>(le: (T, T) -> bool, keep: T -> bool, x: T, xs: seq<T>)
    requires forall a, b :: keep(a) && keep(b) ==> le(a, b)
    ensures Filter(keep, Insert(le, x, xs)) == Filter(keep, [x] + xs)
  {
    assert ([x] + xs)[1..] == xs;
    if xs != [] && !le(x, xs[0]) {
      InsertStable(le, keep, x, xs[1..]);
      assert ([x] + xs[1..])[1..] == xs[1..];
    }
  }

  /** Elements that may stand in either order stay as they were. */
  lemma {:induction false} SortStable<T(!new)>(le: (T, T) -> bool, keep: T -> bool, xs: seq<T>)
    requires forall a, b :: keep(a) && keep(b) ==> le(a, b)
    ensures Filter(keep, Sort(le, xs)) == Filter(keep, xs)
  {
    if xs != [] {
      var t := Sort(le, xs[1..]);
      SortStable(le, keep, xs[1..]);
      InsertStable(le, keep, xs[0], t);
      assert ([xs[0]] + t)[1..] == t;
    }
  }

  /* Permutations in general. */

  lemma SameMembers<T>(rs: seq<T>, ts: seq<T>)
    requires multiset(rs) == multiset(ts)
    ensures forall q :: q in rs <==> q in ts
  {
    assert forall q :: q in rs <==> q in multiset(rs);
    assert forall q :: q in ts <==> q in multiset(ts);
  }

  lemma {:induction false} TwicePresent<T>(s: seq<T>, x: T)
    requires multiset(s)[x] >= 2
    ensures exists i, j :: 0 <= i < j < |s| && s[i] == x && s[j] == x
  {
    var n := |s| - 1;
    assert s == s[..n] + [s[n]];
    if s[n] == x {
      assert x in multiset(s[..n]);
      assert x in s[..n];
      var i :| 0 <= i < n && s[i] == x;
    } else {
      TwicePresent(s[..n], x);
      var i, j :| 0 <= i < j < n && s[..n][i] == x && s[..n][j] == x;
      assert s[i] == x && s[j] == x;
    }
  }

  lemma Counted<T>(s: seq<T>, i: nat, j: nat)
    requires i < j < |s| && s[i] == s[j]
    ensures multiset(s)[s[i]] >= 2
  {
    assert s == s[..i] + [s[i]] + s[i + 1..j] + [s[j]] + s[j + 1..];
  }

  /** Whether some two elements collide does not depend on the order of the elements. */
  lemma ApartPermuted<T(!new)>(same: (T, T) -> bool, a: seq<T>, b: seq<T>)
    requires multiset(a) == multiset(b)
    requires forall x, y :: same(x, y) == same(y, x)
    requires forall i, j :: 0 <= i < j < |a| ==> !same(a[i], a[j])
    ensures forall i, j :: 0 <= i < j < |b| ==> !same(b[i], b[j])
  {
    SameMembers(a, b);
    forall i, j | 0 <= i < j < |b| ensures !same(b[i], b[j]) {
      if b[i] == b[j] {
        Counted(b, i, j);
        TwicePresent(a, b[i]);
      } else {
        assert b[i] in b && b[j] in b;
        var p :| 0 <= p < |a| && a[p] == b[i];
        var q :| 0 <= q < |a| && a[q] == b[j];
        assert !same(a[if p < q then p else q], a[if p < q then q else p]);
      }
    }
  }

  function RemoveAt<T>(b: seq<T>, k: nat): (r: seq<T>)
    requires k < |b|
    ensures multiset(r) == multiset(b) - multiset{b[k]}
    ensures |r| == |b| - 1
  {
    assert b == b[..k] + [b[k]] + b[k + 1..];
    b[..k] + b[k + 1..]
  }
}
