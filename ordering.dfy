/** Ascending sequences of distinct integers, and the sorted listing of a finite set: the
    `.distinct().order_by('ano')` of a query and Python's `sorted(set(...))`. */
module Ordering {

  predicate StrictlyIncreasing(s: seq<int>) {
    forall i, j :: 0 <= i < j < |s| ==> s[i] < s[j]
  }

  predicate IsLeast(m: int, s: set<int>) {
    m in s && forall x :: x in s ==> m <= x
  }

  /** A sequence is empty or holds its first element. */
  lemma HeadIn<T>(s: seq<T>)
    ensures s == [] || s[0] in s
  {
  }

  /** Every non-empty finite set of integers has a least element. */
  lemma {:induction false} LeastExists(s: set<int>)
    requires s != {}
    ensures exists m :: IsLeast(m, s)
  {
    if forall y :: y !in s {
      assert false;
    }
    var x :| x in s;
    var rest := s - {x};
    assert forall y :: y in s && y != x ==> y in rest;
    if rest != {} {
      LeastExists(rest);
      var m :| IsLeast(m, rest);
      assert forall y :: y in s ==> y == x || y in rest;
      if x < m {
        assert IsLeast(x, s);
      } else {
        assert IsLeast(m, s);
      }
    } else {
      assert forall y :: y in s ==> y == x;
      assert IsLeast(x, s);
    }
  }

  /** The elements of `s` in ascending order. */
  ghost function Sorted(s: set<int>): (r: seq<int>)
    ensures StrictlyIncreasing(r)
    ensures forall x :: x in r <==> x in s
    decreases |s|
  {
    if s == {} then []
    else
      LeastExists(s);
      var m :| IsLeast(m, s);
      [m] + Sorted(s - {m})
  }

  /** There is only one ascending listing of a set: any two strictly increasing sequences with
      the same elements are equal. */
  lemma {:induction false} SortedUnique(a: seq<int>, b: seq<int>)
    requires StrictlyIncreasing(a) && StrictlyIncreasing(b)
    requires forall x :: x in a <==> x in b
    ensures a == b
  {
    HeadIn(a);
    HeadIn(b);
    if a == [] || b == [] {
      assert a == [] && b == [];
    } else {
      assert a[0] in a && b[0] in b;
      var j :| 0 <= j < |a| && a[j] == b[0];
      var k :| 0 <= k < |b| && b[k] == a[0];
      assert a[0] <= a[j] && b[0] <= b[k];
      assert a[0] == b[0];
      forall x
        ensures x in a[1..] <==> x in b[1..]
      {
        assert x in a[1..] <==> x in a && x != a[0];
        assert x in b[1..] <==> x in b && x != b[0];
      }
      SortedUnique(a[1..], b[1..]);
      assert a == [a[0]] + a[1..] && b == [b[0]] + b[1..];
    }
  }

  /** Lists the elements of `s` in ascending order, smallest first. */
  method SortedList(s: set<int>) returns (r: seq<int>)
    ensures r == Sorted(s)
  {
    r := [];
    var rest := s;
    while rest != {}
      invariant StrictlyIncreasing(r)
      invariant forall x :: x in s <==> x in r || x in rest
      invariant forall x, y :: x in r && y in rest ==> x < y
      invariant forall x :: x in r ==> x !in rest
      decreases |rest|
    {
      LeastExists(rest);
      var m :| IsLeast(m, rest);
      ghost var r0 := r;
      r := r + [m];
      rest := rest - {m};
      assert forall i :: 0 <= i < |r0| ==> r0[i] in r0;
      assert forall i, j :: 0 <= i < j < |r| ==> r[i] < r[j] by {
        forall i, j | 0 <= i < j < |r| ensures r[i] < r[j] {
          if j == |r0| {
            assert r[i] == r0[i] && r0[i] in r0;
          } else {
            assert r[i] == r0[i] && r[j] == r0[j];
          }
        }
      }
    }
    SortedUnique(r, Sorted(s));
  }
}
