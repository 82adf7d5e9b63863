/** Sums of reals over an index range, accumulated left to right as the Go loops do. */
module Sums {
  import opened RealMath

  ghost function Sum(s: seq<real>, lo: int, hi: int): real
    requires 0 <= lo <= hi <= |s|
    decreases hi
  {
    if lo == hi then 0.0 else Sum(s, lo, hi - 1) + s[hi - 1]
  }

  ghost function Total(s: seq<real>): real {
    Sum(s, 0, |s|)
  }

  lemma {:induction false} SumSplit(s: seq<real>, lo: int, mid: int, hi: int)
    requires 0 <= lo <= mid <= hi <= |s|
    ensures Sum(s, lo, hi) == Sum(s, lo, mid) + Sum(s, mid, hi)
    decreases hi
  {
    if mid < hi { SumSplit(s, lo, mid, hi - 1); }
  }

  /** A sum depends only on the elements in its range. */
  lemma {:induction false} SumAgree(s: seq<real>, t: seq<real>, lo: int, hi: int)
    requires 0 <= lo <= hi <= |s| && hi <= |t|
    requires forall i :: lo <= i < hi ==> s[i] == t[i]
    ensures Sum(s, lo, hi) == Sum(t, lo, hi)
    decreases hi
  {
    if lo < hi { SumAgree(s, t, lo, hi - 1); }
  }

  lemma {:induction false} SumMonotone(s: seq<real>, t: seq<real>, lo: int, hi: int)
    requires 0 <= lo <= hi <= |s| && hi <= |t|
    requires forall i :: lo <= i < hi ==> s[i] <= t[i]
    ensures Sum(s, lo, hi) <= Sum(t, lo, hi)
    decreases hi
  {
    if lo < hi { SumMonotone(s, t, lo, hi - 1); }
  }

  lemma {:induction false} SumNonNegative(s: seq<real>, lo: int, hi: int)
    requires 0 <= lo <= hi <= |s|
    requires forall i :: lo <= i < hi ==> s[i] >= 0.0
    ensures Sum(s, lo, hi) >= 0.0
    decreases hi
  {
    if lo < hi { SumNonNegative(s, lo, hi - 1); }
  }

  /** One positive element makes a sum of non-negative elements positive. */
  lemma SumPositive(s: seq<real>, lo: int, hi: int, at: int)
    requires 0 <= lo <= at < hi <= |s|
    requires forall i :: lo <= i < hi ==> s[i] >= 0.0
    requires s[at] > 0.0
    ensures Sum(s, lo, hi) > 0.0
  {
    SumSplit(s, lo, at + 1, hi);
    SumNonNegative(s, lo, at);
    SumNonNegative(s, at + 1, hi);
  }

  /** s = k·t + u, element by element on a range. */
  ghost predicate Combines(s: seq<real>, k: real, t: seq<real>, u: seq<real>, lo: int, hi: int) {
    && 0 <= lo <= hi <= |s| && hi <= |t| && hi <= |u|
    && forall i :: lo <= i < hi ==> s[i] == k * t[i] + u[i]
  }

  /** A linear relation between the elements carries over to the sums. */
  lemma {:induction false} SumLinear(s: seq<real>, k: real, t: seq<real>, u: seq<real>, lo: int, hi: int)
    requires Combines(s, k, t, u, lo, hi)
    ensures Sum(s, lo, hi) == k * Sum(t, lo, hi) + Sum(u, lo, hi)
    decreases hi
  {
    if lo < hi {
      SumLinear(s, k, t, u, lo, hi - 1);
      assert k * (Sum(t, lo, hi - 1) + t[hi - 1]) == k * Sum(t, lo, hi - 1) + k * t[hi - 1];
    }
  }

  lemma {:induction false} SumAdd(s: seq<real>, t: seq<real>, u: seq<real>, lo: int, hi: int)
    requires 0 <= lo <= hi <= |s| && hi <= |t| && hi <= |u|
    requires forall i :: lo <= i < hi ==> s[i] == t[i] + u[i]
    ensures Sum(s, lo, hi) == Sum(t, lo, hi) + Sum(u, lo, hi)
    decreases hi
  {
    if lo < hi { SumAdd(s, t, u, lo, hi - 1); }
  }

  /** The all-zero sequence of a given length. */
  ghost function Zeros(n: nat): seq<real> {
    seq(n, i => 0.0)
  }

  lemma {:induction false} SumZeros(n: nat, lo: int, hi: int)
    requires 0 <= lo <= hi <= n
    ensures Sum(Zeros(n), lo, hi) == 0.0
    decreases hi
  {
    if lo < hi { SumZeros(n, lo, hi - 1); }
  }

  lemma {:induction false} SumOfWholes(s: seq<real>, lo: int, hi: int)
    requires 0 <= lo <= hi <= |s|
    requires forall i :: lo <= i < hi ==> Whole(s[i])
    ensures Whole(Sum(s, lo, hi))
    decreases hi
  {
    if lo < hi {
      SumOfWholes(s, lo, hi - 1);
      WholeSum(Sum(s, lo, hi - 1), s[hi - 1]);
    }
  }

  lemma {:induction false} SumConstant(s: seq<real>, c: real, lo: int, hi: int)
    requires 0 <= lo <= hi <= |s|
    requires forall i :: lo <= i < hi ==> s[i] == c
    ensures Sum(s, lo, hi) == c * (hi - lo) as real
    decreases hi
  {
    if lo < hi { SumConstant(s, c, lo, hi - 1); }
  }

  ghost function Mapped(s: seq<real>, f: real -> real): (t: seq<real>)
    ensures |t| == |s|
  {
    seq(|s|, i requires 0 <= i < |s| => f(s[i]))
  }

  /** Rearranging a sequence does not change the total of a function of its elements. */
  lemma {:induction false} MappedTotalOfPermutation(s: seq<real>, t: seq<real>, f: real -> real)
    requires multiset(s) == multiset(t)
    ensures Total(Mapped(s, f)) == Total(Mapped(t, f))
    decreases |s|
  {
    assert |s| == |multiset(s)| == |multiset(t)| == |t|;
    if |s| > 0 {
      var last := s[|s| - 1];
      assert last in multiset(t);
      var at :| 0 <= at < |t| && t[at] == last;
      RemovalKeepsPermutation(s, t, at);
      MappedTotalOfPermutation(s[..|s| - 1], t[..at] + t[at + 1..], f);
      MappedTotalWithout(s, |s| - 1, f);
      MappedTotalWithout(t, at, f);
      assert s[..|s| - 1] + s[|s|..] == s[..|s| - 1];
    }
  }

  lemma RemovalKeepsPermutation(s: seq<real>, t: seq<real>, at: int)
    requires multiset(s) == multiset(t) && |s| > 0 && 0 <= at < |t| && t[at] == s[|s| - 1]
    ensures multiset(s[..|s| - 1]) == multiset(t[..at] + t[at + 1..])
  {
    var last := s[|s| - 1];
    assert s == s[..|s| - 1] + [last];
    assert t == t[..at] + [last] + t[at + 1..];
    SameAfterRemoval(multiset(s[..|s| - 1]), multiset(t[..at] + t[at + 1..]), last);
  }

  lemma MappedTotalWithout(t: seq<real>, at: int, f: real -> real)
    requires 0 <= at < |t|
    ensures Total(Mapped(t, f)) == Total(Mapped(t[..at] + t[at + 1..], f)) + f(t[at])
  {
    hide Total;
    TotalWithout(Mapped(t, f), at);
    assert Mapped(t, f)[..at] + Mapped(t, f)[at + 1..] == Mapped(t[..at] + t[at + 1..], f);
  }

  lemma SameAfterRemoval<T>(a: multiset<T>, b: multiset<T>, x: T)
    requires a + multiset{x} == b + multiset{x}
    ensures a == b
  {
    assert a == (a + multiset{x}) - multiset{x};
  }

  lemma TotalWithout(t: seq<real>, at: int)
    requires 0 <= at < |t|
    ensures Total(t) == Total(t[..at] + t[at + 1..]) + t[at]
  {
    var rest := t[..at] + t[at + 1..];
    SumSplit(t, 0, at + 1, |t|);
    SumSplit(rest, 0, at, |rest|);
    SumAgree(t, rest, 0, at);
    SumShift(t, at + 1, |t|, rest, at);
  }

  lemma {:induction false} SumShift(s: seq<real>, lo: int, hi: int, t: seq<real>, from: int)
    requires 0 <= lo <= hi <= |s| && 0 <= from && from + hi - lo <= |t|
    requires forall i :: lo <= i < hi ==> s[i] == t[from + i - lo]
    ensures Sum(s, lo, hi) == Sum(t, from, from + hi - lo)
    decreases hi
  {
    if lo < hi { SumShift(s, lo, hi - 1, t, from); }
  }
}
