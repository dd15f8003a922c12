/** Sequence operations shared by the record stores and read-only views:
    `Array.prototype.filter` and the order relations it guarantees. */
module Seqs {

  /** The elements of `s` that satisfy `p`, in their original order. */
  function Filter<T(==)>(s: seq<T>, p: T -> bool): (r: seq<T>)
    ensures |r| <= |s|
    ensures forall x :: x in r ==> x in s && p(x)
    decreases |s|
  {
    if |s| == 0 then []
    else if p(s[0]) then [s[0]] + Filter(s[1..], p)
    else Filter(s[1..], p)
  }

  /** `xs` can be obtained from `ys` by deleting elements: order is kept. */
  predicate IsSubsequence<T(==)>(xs: seq<T>, ys: seq<T>)
    decreases |ys|
  {
    if |ys| == 0 then |xs| == 0
    else (|xs| > 0 && xs[0] == ys[0] && IsSubsequence(xs[1..], ys[1..]))
         || IsSubsequence(xs, ys[1..])
  }

  /** `xs` is what remains of `ys` after dropping some elements at the front. */
  predicate IsSuffix<T(==)>(xs: seq<T>, ys: seq<T>) {
    |xs| <= |ys| && ys[|ys| - |xs|..] == xs
  }

  /** Every element of `s` that satisfies `p` survives the filter. */
  lemma {:induction false} FilterKeeps<T>(s: seq<T>, p: T -> bool, x: T)
    requires x in s && p(x)
    ensures x in Filter(s, p)
    decreases |s|
  {
    if s[0] != x {
      FilterKeeps(s[1..], p, x);
    }
  }

  /** Membership in a filter, both directions. */
  lemma FilterMembership<T>(s: seq<T>, p: T -> bool)
    ensures forall x :: x in Filter(s, p) <==> x in s && p(x)
  {
    forall x | x in s && p(x)
      ensures x in Filter(s, p)
    {
      FilterKeeps(s, p, x);
    }
  }

  /** A filter keeps the relative order of the elements it keeps. */
  lemma {:induction false} FilterIsSubsequence<T>(s: seq<T>, p: T -> bool)
    ensures IsSubsequence(Filter(s, p), s)
    decreases |s|
  {
    if |s| > 0 {
      FilterIsSubsequence(s[1..], p);
      if p(s[0]) {
        assert ([s[0]] + Filter(s[1..], p))[1..] == Filter(s[1..], p);
      }
    }
  }

  /** A filter that keeps everything is the identity. */
  lemma {:induction false} FilterAll<T>(s: seq<T>, p: T -> bool)
    requires forall x :: x in s ==> p(x)
    ensures Filter(s, p) == s
    decreases |s|
  {
    if |s| > 0 {
      assert s[0] in s;
      FilterAll(s[1..], p);
      assert [s[0]] + s[1..] == s;
    }
  }

  /** Two predicates that agree on every element give the same filter. */
  lemma {:induction false} FilterCongruent<T>(s: seq<T>, p: T -> bool, q: T -> bool)
    requires forall x :: x in s ==> p(x) == q(x)
    ensures Filter(s, p) == Filter(s, q)
    decreases |s|
  {
    if |s| > 0 {
      assert s[0] in s;
      FilterCongruent(s[1..], p, q);
    }
  }

  /** Filtering by a stronger predicate yields a subsequence of filtering by
      a weaker one. */
  lemma {:induction false} FilterStronger<T>(s: seq<T>, p: T -> bool, q: T -> bool)
    requires forall x :: x in s && p(x) ==> q(x)
    ensures IsSubsequence(Filter(s, p), Filter(s, q))
    decreases |s|
  {
    if |s| > 0 {
      assert s[0] in s;
      FilterStronger(s[1..], p, q);
      if q(s[0]) {
        assert ([s[0]] + Filter(s[1..], q))[1..] == Filter(s[1..], q);
        if p(s[0]) {
          assert ([s[0]] + Filter(s[1..], p))[1..] == Filter(s[1..], p);
        }
      }
    }
  }

  /** A predicate and its negation split a sequence between them. */
  lemma {:induction false} FilterPartition<T>(s: seq<T>, p: T -> bool, q: T -> bool)
    requires forall x :: x in s ==> q(x) == !p(x)
    ensures |Filter(s, p)| + |Filter(s, q)| == |s|
    decreases |s|
  {
    if |s| > 0 {
      assert s[0] in s;
      FilterPartition(s[1..], p, q);
    }
  }

  /** When exactly the element at `k` satisfies `p`, the filter is that
      element alone. */
  lemma {:induction false} FilterSingle<T>(s: seq<T>, p: T -> bool, k: nat)
    requires k < |s|
    requires forall i :: 0 <= i < |s| ==> (p(s[i]) <==> i == k)
    ensures Filter(s, p) == [s[k]]
    decreases |s|
  {
    if k == 0 {
      FilterNone(s[1..], p);
    } else {
      assert !p(s[0]);
      FilterSingle(s[1..], p, k - 1);
    }
  }

  /** When no element satisfies `p`, the filter is empty. */
  lemma {:induction false} FilterNone<T>(s: seq<T>, p: T -> bool)
    requires forall i :: 0 <= i < |s| ==> !p(s[i])
    ensures Filter(s, p) == []
    decreases |s|
  {
    if |s| > 0 {
      assert !p(s[0]);
      FilterNone(s[1..], p);
    }
  }
}
