/**
  Projection onto the probability simplex (internal/dynamicparam/activity_scale.go,
  `projectSimplex`): the cumulative-threshold algorithm and why its result is the nearest point.
 */
module Simplex {
  import opened RealMath
  import opened Sums

  /** A probability vector. */
  ghost predicate OnSimplex(p: seq<real>) {
    && (forall i :: 0 <= i < |p| ==> p[i] >= 0.0)
    && Total(p) == 1.0
  }

  ghost function SquaredGaps(a: seq<real>, b: seq<real>): (s: seq<real>)
    requires |a| == |b|
    ensures |s| == |a|
  {
    seq(|a|, i requires 0 <= i < |a| => Sq(a[i] - b[i]))
  }

  /** Squared Euclidean distance. */
  ghost function Distance(a: seq<real>, b: seq<real>): real
    requires |a| == |b|
  {
    Total(SquaredGaps(a, b))
  }

  /** p is the nearest probability vector to v, and any other one is farther by its distance to p. */
  ghost predicate Nearest(v: seq<real>, p: seq<real>) {
    && |v| == |p|
    && OnSimplex(p)
    && forall z: seq<real> | |z| == |v| && OnSimplex(z) :: Distance(v, z) >= Distance(v, p) + Distance(p, z)
  }

  lemma DistanceSeparates(a: seq<real>, b: seq<real>)
    requires |a| == |b|
    ensures Distance(a, b) >= 0.0
    ensures a != b ==> Distance(a, b) > 0.0
  {
    hide Sq, Sum;
    var s := SquaredGaps(a, b);
    forall i | 0 <= i < |a|
      ensures s[i] >= 0.0
      ensures a[i] != b[i] ==> s[i] > 0.0
    {
      if a[i] == b[i] { SqOfZero(); } else { SqPositive(a[i] - b[i]); }
    }
    SumNonNegative(s, 0, |s|);
    if a != b {
      var at :| 0 <= at < |a| && a[at] != b[at];
      SumPositive(s, 0, |s|, at);
    }
  }

  /** There is at most one nearest probability vector. */
  lemma NearestIsUnique(v: seq<real>, p: seq<real>, q: seq<real>)
    requires Nearest(v, p) && Nearest(v, q)
    ensures p == q
  {
    hide Distance;
    assert Distance(v, q) >= Distance(v, p) + Distance(p, q);
    assert Distance(v, p) >= Distance(v, q) + Distance(q, p);
    DistanceSeparates(p, q);
    DistanceSeparates(q, p);
  }

  // ----- the cross term decides

  ghost function CrossTerms(v: seq<real>, p: seq<real>, z: seq<real>): (x: seq<real>)
    requires |v| == |p| == |z|
    ensures |x| == |v|
  {
    seq(|v|, i requires 0 <= i < |v| => (v[i] - p[i]) * (p[i] - z[i]))
  }

  lemma GapExpansion(a: real, c: real, q: real)
    ensures Sq(a - q) == 2.0 * ((a - c) * (c - q)) + (Sq(a - c) + Sq(c - q))
  {
  }

  lemma DistanceExpansion(v: seq<real>, p: seq<real>, z: seq<real>)
    requires |v| == |p| == |z|
    ensures Distance(v, z) == Distance(v, p) + Distance(p, z) + 2.0 * Total(CrossTerms(v, p, z))
  {
    hide Sq;
    var n := |v|;
    var rest := seq(n, i requires 0 <= i < n => SquaredGaps(v, p)[i] + SquaredGaps(p, z)[i]);
    SumAdd(rest, SquaredGaps(v, p), SquaredGaps(p, z), 0, n);
    GapsExpand(v, p, z, rest);
    SumLinear(SquaredGaps(v, z), 2.0, CrossTerms(v, p, z), rest, 0, n);
  }

  lemma GapsExpand(v: seq<real>, p: seq<real>, z: seq<real>, rest: seq<real>)
    requires |v| == |p| == |z| == |rest|
    requires forall i :: 0 <= i < |v| ==> rest[i] == SquaredGaps(v, p)[i] + SquaredGaps(p, z)[i]
    ensures Combines(SquaredGaps(v, z), 2.0, CrossTerms(v, p, z), rest, 0, |v|)
  {
    hide Sq;
    forall i | 0 <= i < |v|
      ensures SquaredGaps(v, z)[i] == 2.0 * CrossTerms(v, p, z)[i] + rest[i]
    {
      GapExpansion(v[i], p[i], z[i]);
    }
  }

  // ----- thresholding

  function Shrink(x: real, threshold: real): real {
    if x - threshold > 0.0 then x - threshold else 0.0
  }

  ghost function Shrunk(v: seq<real>, threshold: real): (p: seq<real>)
    ensures |p| == |v|
  {
    seq(|v|, i requires 0 <= i < |v| => Shrink(v[i], threshold))
  }

  /** Shrinking by the right threshold satisfies the optimality condition at every coordinate. */
  lemma ShrinkOptimal(x: real, threshold: real, z: real)
    requires z >= 0.0
    ensures (x - Shrink(x, threshold)) * (Shrink(x, threshold) - z) >= threshold * (Shrink(x, threshold) - z)
  {
    var p := Shrink(x, threshold);
    if x - threshold > 0.0 {
      assert x - p == threshold;
    } else {
      MulMonotone(z, x, threshold);
      assert (x - p) * (p - z) == -(z * x) && threshold * (p - z) == -(z * threshold);
    }
  }

  /** A shrunk vector that sums to one is the nearest probability vector. */
  lemma ShrunkIsNearest(v: seq<real>, threshold: real)
    requires Total(Shrunk(v, threshold)) == 1.0
    ensures Nearest(v, Shrunk(v, threshold))
  {
    hide Distance, Shrink;
    var p := Shrunk(v, threshold);
    forall i | 0 <= i < |p|
      ensures p[i] >= 0.0
    {
      ShrinkNonNegative(v[i], threshold);
    }
    forall z: seq<real> | |z| == |v| && OnSimplex(z)
      ensures Distance(v, z) >= Distance(v, p) + Distance(p, z)
    {
      ThresholdCrossTerms(v, threshold, z);
      DistanceExpansion(v, p, z);
    }
  }

  lemma ShrinkNonNegative(x: real, threshold: real)
    ensures Shrink(x, threshold) >= 0.0
  {
  }

  lemma ThresholdCrossTerms(v: seq<real>, threshold: real, z: seq<real>)
    requires |z| == |v| && OnSimplex(z) && Total(Shrunk(v, threshold)) == 1.0
    ensures Total(CrossTerms(v, Shrunk(v, threshold), z)) >= 0.0
  {
    hide Shrink, Sum;
    var n, p := |v|, Shrunk(v, threshold);
    var gaps := seq(n, i requires 0 <= i < n => p[i] - z[i]);
    var scaled := seq(n, i requires 0 <= i < n => threshold * gaps[i]);
    SumAdd(p, gaps, z, 0, n);
    SumZeros(n, 0, n);
    SumLinear(scaled, threshold, gaps, Zeros(n), 0, n);
    forall i | 0 <= i < n
      ensures scaled[i] <= CrossTerms(v, p, z)[i]
    {
      ShrinkOptimal(v[i], threshold, z[i]);
    }
    SumMonotone(scaled, CrossTerms(v, p, z), 0, n);
  }

  // ----- the threshold search

  ghost predicate Descending(s: seq<real>) {
    forall i, j :: 0 <= i <= j < |s| ==> s[i] >= s[j]
  }

  /** Library sort in descending order, modelled by insertion. */
  function InsertDescending(x: real, s: seq<real>): (t: seq<real>)
    ensures multiset(t) == multiset(s) + multiset{x}
  {
    if |s| == 0 || x >= s[0] then
      [x] + s
    else
      assert s == [s[0]] + s[1..];
      [s[0]] + InsertDescending(x, s[1..])
  }

  function SortDescending(s: seq<real>): (t: seq<real>)
    ensures multiset(t) == multiset(s)
  {
    if |s| == 0 then
      []
    else
      assert s == [s[0]] + s[1..];
      InsertDescending(s[0], SortDescending(s[1..]))
  }

  lemma {:induction false} InsertKeepsOrder(x: real, s: seq<real>)
    requires Descending(s)
    ensures Descending(InsertDescending(x, s))
  {
    if !(|s| == 0 || x >= s[0]) {
      var rest := InsertDescending(x, s[1..]);
      InsertKeepsOrder(x, s[1..]);
      forall k | 0 <= k < |rest|
        ensures rest[k] <= s[0]
      {
        assert rest[k] in multiset(s[1..]) + multiset{x};
        assert rest[k] == x || rest[k] in s[1..];
      }
    }
  }

  lemma {:induction false} SortOrders(s: seq<real>)
    ensures Descending(SortDescending(s))
    ensures |SortDescending(s)| == |s|
  {
    assert |SortDescending(s)| == |multiset(SortDescending(s))| == |multiset(s)|;
    if |s| > 0 {
      SortOrders(s[1..]);
      InsertKeepsOrder(s[0], SortDescending(s[1..]));
    }
  }

  /** The mean excess over one of the first n sorted values. */
  ghost function Candidate(s: seq<real>, n: nat): real
    requires 0 < n <= |s|
  {
    (Sum(s, 0, n) - 1.0) / n as real
  }

  /** A value above the previous candidate stays above its own. */
  lemma StaysAbove(s: seq<real>, k: nat)
    requires k < |s| && (k > 0 ==> s[k] > Candidate(s, k))
    ensures s[k] > Candidate(s, k + 1)
  {
    var total := Sum(s, 0, k);
    QuotientTimes(total + s[k] - 1.0, (k + 1) as real);
    if k > 0 {
      QuotientTimes(total - 1.0, k as real);
      MeanStep(s[k], Candidate(s, k), Candidate(s, k + 1), k as real);
    }
  }

  lemma MeanStep(x: real, before: real, after: real, k: real)
    requires k > 0.0 && x > before && after * (k + 1.0) == before * k + x
    ensures x > after
  {
    assert (x - after) * (k + 1.0) == (x - before) * k;
    SameSign(x - after, k + 1.0, x - before, k);
  }

  lemma SameSign(a: real, m: real, b: real, n: real)
    requires m > 0.0 && b > 0.0 && n > 0.0 && a * m == b * n
    ensures a > 0.0
  {
    MulPositive(b, n);
    if a <= 0.0 {
      MulNonPositive(a, m);
    }
  }

  /** Where the search stops, the shrunk sorted vector sums to one. */
  lemma StopSumsToOne(s: seq<real>, k: nat)
    requires Descending(s) && k < |s|
    requires s[k] > Candidate(s, k + 1)
    requires k + 1 < |s| ==> s[k + 1] <= Candidate(s, k + 1)
    ensures Total(Shrunk(s, Candidate(s, k + 1))) == 1.0
  {
    hide Candidate, Shrunk, Sum;
    var t := Candidate(s, k + 1);
    SumSplit(Shrunk(s, t), 0, k + 1, |s|);
    KeptPart(s, t, k + 1);
    DroppedPart(s, t, k + 1);
    CandidateTimes(s, k + 1);
  }

  lemma KeptPart(s: seq<real>, t: real, n: nat)
    requires Descending(s) && 0 < n <= |s| && s[n - 1] > t
    ensures Sum(Shrunk(s, t), 0, n) == Sum(s, 0, n) - t * n as real
  {
    var thresholds := seq(|s|, _ => t);
    forall i | 0 <= i < n
      ensures s[i] == Shrunk(s, t)[i] + thresholds[i]
    {
      assert s[i] >= s[n - 1];
    }
    SumAdd(s, Shrunk(s, t), thresholds, 0, n);
    SumConstant(thresholds, t, 0, n);
  }

  lemma DroppedPart(s: seq<real>, t: real, n: nat)
    requires Descending(s) && n <= |s| && (n < |s| ==> s[n] <= t)
    ensures Sum(Shrunk(s, t), n, |s|) == 0.0
  {
    forall i | n <= i < |s|
      ensures Shrunk(s, t)[i] == Zeros(|s|)[i]
    {
      assert s[n] >= s[i];
    }
    SumAgree(Shrunk(s, t), Zeros(|s|), n, |s|);
    SumZeros(|s|, n, |s|);
  }

  lemma CandidateTimes(s: seq<real>, n: nat)
    requires 0 < n <= |s|
    ensures Candidate(s, n) * n as real == Sum(s, 0, n) - 1.0
  {
    QuotientTimes(Sum(s, 0, n) - 1.0, n as real);
  }

  /** The threshold found on the sorted values also normalises the values in their own order. */
  lemma ThresholdTransfers(values: seq<real>, sorted: seq<real>, threshold: real)
    requires multiset(sorted) == multiset(values) && Total(Shrunk(sorted, threshold)) == 1.0
    ensures Nearest(values, Shrunk(values, threshold))
  {
    var f := (x: real) => Shrink(x, threshold);
    MappedTotalOfPermutation(sorted, values, f);
    assert Mapped(sorted, f) == Shrunk(sorted, threshold);
    assert Mapped(values, f) == Shrunk(values, threshold);
    ShrunkIsNearest(values, threshold);
  }

  method ProjectSimplex(values: seq<real>) returns (projected: seq<real>)
    ensures |projected| == |values|
    ensures values != [] ==> Nearest(values, projected)
  {
    hide Nearest, Shrunk, Total;
    var sorted := SortDescending(values);
    SortOrders(values);
    var cumulative, threshold := 0.0, 0.0;
    var index := 0;
    while index < |sorted|
      invariant 0 <= index <= |sorted|
      invariant cumulative == Sum(sorted, 0, index)
      invariant 0 < index < |sorted| ==> sorted[index] > Candidate(sorted, index)
      invariant index == |sorted| ==> index == 0
    {
      cumulative := cumulative + sorted[index];
      var candidate := (cumulative - 1.0) / (index + 1) as real;
      assert candidate == Candidate(sorted, index + 1);
      StaysAbove(sorted, index);
      if index == |sorted| - 1 || sorted[index + 1] <= candidate {
        threshold := candidate;
        StopSumsToOne(sorted, index);
        break;
      }
      index := index + 1;
    }
    projected := seq(|values|, i requires 0 <= i < |values| => Shrink(values[i], threshold));
    if values != [] {
      ThresholdTransfers(values, sorted, threshold);
      ShrunkValue(values, threshold, projected);
    }
  }

  lemma ShrunkValue(values: seq<real>, threshold: real, projected: seq<real>)
    requires |projected| == |values|
    requires forall i :: 0 <= i < |values| ==> projected[i] == Shrink(values[i], threshold)
    ensures projected == Shrunk(values, threshold)
  {
  }
}
