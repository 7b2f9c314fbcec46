/** Whole-sequence operations shared by the transforms: keeping the rows that pass a test (a
    pandas boolean mask, a list comprehension with `if`) and finding where a loop that stops at
    the first failure stops. */
module Sequences {
  import opened Wrappers
  import opened Ordering

  /** No element occurs twice. */
  predicate Distinct<T(==)>(s: seq<T>) {
    forall i, j :: 0 <= i < j < |s| ==> s[i] != s[j]
  }

  /** The positions of the elements of `s` that pass `keep`, in ascending order. */
  function Kept<T>(s: seq<T>, keep: T -> bool): (idx: seq<int>)
    ensures StrictlyIncreasing(idx)
    ensures forall j :: 0 <= j < |idx| ==> 0 <= idx[j] < |s|
    ensures forall i :: i in idx <==> 0 <= i < |s| && keep(s[i])
  {
    if s == [] then []
    else
      var n := |s| - 1;
      var rest := Kept(s[..n], keep);
      assert forall i :: i in rest ==> i < n;
      rest + (if keep(s[n]) then [n] else [])
  }

  /** The elements of `s` that pass `keep`, in their original order. */
  function Filter<T>(s: seq<T>, keep: T -> bool): (r: seq<T>)
    ensures |r| == |Kept(s, keep)|
    ensures forall j :: 0 <= j < |r| ==> r[j] == s[Kept(s, keep)[j]]
    ensures forall j :: 0 <= j < |r| ==> keep(r[j])
  {
    var idx := Kept(s, keep);
    assert forall j :: 0 <= j < |idx| ==> idx[j] in idx;
    seq(|idx|, j requires 0 <= j < |idx| => s[idx[j]])
  }

  /** Filtering keeps exactly the elements that pass. */
  lemma FilterMembers<T>(s: seq<T>, keep: T -> bool, x: T)
    ensures x in Filter(s, keep) <==> x in s && keep(x)
  {
    var r := Filter(s, keep);
    var idx := Kept(s, keep);
    if x in r {
      var j :| 0 <= j < |r| && r[j] == x;
      assert idx[j] in idx;
    }
    if x in s && keep(x) {
      var i :| 0 <= i < |s| && s[i] == x;
      assert i in idx;
      var j :| 0 <= j < |idx| && idx[j] == i;
      assert r[j] == x;
    }
  }

  /** Filtering a sequence with one more element at the end. */
  lemma FilterSnoc<T>(s: seq<T>, keep: T -> bool)
    requires s != []
    ensures var n := |s| - 1;
            Filter(s, keep) == Filter(s[..n], keep) + (if keep(s[n]) then [s[n]] else [])
  {
    var n := |s| - 1;
    var pre := Kept(s[..n], keep);
    assert Kept(s, keep) == pre + (if keep(s[n]) then [n] else []);
    var a := Filter(s, keep);
    var b := Filter(s[..n], keep) + (if keep(s[n]) then [s[n]] else []);
    assert |a| == |b|;
    forall j | 0 <= j < |a|
      ensures a[j] == b[j]
    {
      if j < |pre| {
        assert Kept(s, keep)[j] == pre[j] && s[pre[j]] == s[..n][pre[j]];
      }
    }
  }

  /** `f(xs[0]) + f(xs[1]) + ...`: the output of a loop that handles the elements in order,
      each contributing `f` of itself. */
  function ConcatMap<A, B>(xs: seq<A>, f: A -> seq<B>): seq<B> {
    if xs == [] then [] else ConcatMap(xs[..|xs| - 1], f) + f(xs[|xs| - 1])
  }

  lemma ConcatMapSnoc<A, B>(xs: seq<A>, x: A, f: A -> seq<B>)
    ensures ConcatMap(xs + [x], f) == ConcatMap(xs, f) + f(x)
  {
    assert (xs + [x])[..|xs|] == xs;
  }

  /** Handling `a` and then `b` outputs what handling each outputs, one after the other. */
  lemma {:induction false} ConcatMapAppend<A, B>(a: seq<A>, b: seq<A>, f: A -> seq<B>)
    ensures ConcatMap(a + b, f) == ConcatMap(a, f) + ConcatMap(b, f)
  {
    if b == [] {
      assert a + b == a;
    } else {
      var n := |b| - 1;
      assert a + b == (a + b[..n]) + [b[n]];
      assert b == b[..n] + [b[n]];
      ConcatMapSnoc(a + b[..n], b[n], f);
      ConcatMapSnoc(b[..n], b[n], f);
      ConcatMapAppend(a, b[..n], f);
    }
  }

  /** When every element's contribution satisfies `ok` throughout, so does the whole output. */
  lemma {:induction false} ConcatMapEvery<A, B>(xs: seq<A>, f: A -> seq<B>, ok: B -> bool)
    requires forall x, i :: x in xs && 0 <= i < |f(x)| ==> ok(f(x)[i])
    ensures forall i :: 0 <= i < |ConcatMap(xs, f)| ==> ok(ConcatMap(xs, f)[i])
  {
    if xs != [] {
      var n := |xs| - 1;
      assert forall x :: x in xs[..n] ==> x in xs;
      ConcatMapEvery(xs[..n], f, ok);
      assert xs[n] in xs;
      var pre := ConcatMap(xs[..n], f);
      var r := ConcatMap(xs, f);
      assert r == pre + f(xs[n]);
      forall i | 0 <= i < |r|
        ensures ok(r[i])
      {
        if i >= |pre| {
          var k := i - |pre|;
          assert 0 <= k < |f(xs[n])|;
          assert ok(f(xs[n])[k]);
          assert r[i] == f(xs[n])[k];
        } else {
          assert r[i] == pre[i];
          assert ok(pre[i]);
        }
      }
    }
  }

  /** Where a loop over `s` that stops at the first element failing `ok` stops: every element
      before it passes, and it is either the end or an element that fails. */
  function FirstFailing<T>(s: seq<T>, ok: T -> bool): (i: nat)
    ensures i <= |s|
    ensures forall j :: 0 <= j < i ==> ok(s[j])
    ensures i < |s| ==> !ok(s[i])
  {
    if s == [] || !ok(s[0]) then 0 else 1 + FirstFailing(s[1..], ok)
  }

  /** The loop runs to the end exactly when every element passes. */
  lemma FirstFailingAll<T>(s: seq<T>, ok: T -> bool)
    ensures FirstFailing(s, ok) == |s| <==> forall j :: 0 <= j < |s| ==> ok(s[j])
  {
  }
}
