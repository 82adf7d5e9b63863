/**
  Weighted isotonic regression by pooling adjacent violators: the `blocks` loop of
  internal/dynamicparam/calibration.go, with the theory that makes its result optimal.
  `weights[i]` and `rates[i]` are the weight and the smoothed observed rate of bin i.
 */
module Isotonic {
  import opened RealMath
  import opened Sums

  /** A block may exceed its right neighbour by this much and still not count as a violator. */
  const SLACK := 0.000000000000001

  datatype Block = Block(start: int, end: int, weight: real, value: real)

  /** The bins' weighted distances above the level c. */
  ghost function Residuals(w: seq<real>, y: seq<real>, c: real): (r: seq<real>)
    requires |w| == |y|
    ensures |r| == |w|
  {
    seq(|w|, i requires 0 <= i < |w| => w[i] * (y[i] - c))
  }

  /** Weighted sum of the rates' distance above the level c. */
  ghost function Excess(w: seq<real>, y: seq<real>, c: real, lo: int, hi: int): real
    requires 0 <= lo <= hi <= |w| == |y|
  {
    Sum(Residuals(w, y, c), lo, hi)
  }

  ghost function Squares(w: seq<real>, a: seq<real>, b: seq<real>): seq<real>
    requires |w| == |a| == |b|
  {
    seq(|w|, i requires 0 <= i < |w| => w[i] * Sq(a[i] - b[i]))
  }

  /** Weighted squared distance between two vectors. */
  ghost function Loss(w: seq<real>, a: seq<real>, b: seq<real>): real
    requires |w| == |a| == |b|
  {
    Total(Squares(w, a, b))
  }

  ghost predicate Positive(w: seq<real>) {
    forall i :: 0 <= i < |w| ==> w[i] > 0.0
  }

  ghost predicate NonDecreasing(z: seq<real>) {
    forall i, j :: 0 <= i <= j < |z| ==> z[i] <= z[j]
  }

  /** Non-decreasing, except that one step may fall by the slack the comparison allows. */
  ghost predicate NearlyNonDecreasing(z: seq<real>) {
    forall i :: 0 <= i && i + 1 < |z| ==> z[i] <= z[i + 1] + SLACK
  }

  /**
    v is the projection of y onto the non-decreasing vectors: every competitor z pays at least
    v's loss plus its own distance to v.
   */
  ghost predicate Projects(w: seq<real>, y: seq<real>, v: seq<real>)
    requires |w| == |y| == |v|
  {
    forall z: seq<real> | |z| == |y| && NonDecreasing(z) ::
      Loss(w, y, z) >= Loss(w, y, v) + Loss(w, v, z)
  }

  /** Lowering the level from c to d raises the excess by the weight times the drop. */
  lemma ExcessShift(w: seq<real>, y: seq<real>, c: real, d: real, lo: int, hi: int)
    requires 0 <= lo <= hi <= |w| == |y|
    ensures Excess(w, y, d, lo, hi) == Excess(w, y, c, lo, hi) + (c - d) * Sum(w, lo, hi)
  {
    hide Combines, Residuals, Sum;
    ResidualsShift(w, y, c, d, lo, hi);
    SumLinear(Residuals(w, y, d), c - d, w, Residuals(w, y, c), lo, hi);
  }

  lemma ResidualsShift(w: seq<real>, y: seq<real>, c: real, d: real, lo: int, hi: int)
    requires 0 <= lo <= hi <= |w| == |y|
    ensures Combines(Residuals(w, y, d), c - d, w, Residuals(w, y, c), lo, hi)
  {
  }

  lemma WeightsPositive(w: seq<real>, lo: int, hi: int)
    requires 0 <= lo <= hi <= |w| && Positive(w)
    ensures Sum(w, lo, hi) >= 0.0
    ensures lo < hi ==> Sum(w, lo, hi) > 0.0
  {
    SumNonNegative(w, lo, hi);
    if lo < hi { SumPositive(w, lo, hi, lo); }
  }

  /** Two vectors at distance zero are equal. */
  lemma LossSeparates(w: seq<real>, a: seq<real>, b: seq<real>)
    requires |w| == |a| == |b| && Positive(w)
    ensures Loss(w, a, b) >= 0.0
    ensures a != b ==> Loss(w, a, b) > 0.0
  {
    hide Sq, Sum;
    var s := Squares(w, a, b);
    forall i | 0 <= i < |w|
      ensures s[i] >= 0.0
    {
      WeightedSquare(w[i], a[i] - b[i]);
    }
    SumNonNegative(s, 0, |s|);
    if a != b {
      var at :| 0 <= at < |w| && a[at] != b[at];
      WeightedSquare(w[at], a[at] - b[at]);
      SumPositive(s, 0, |s|, at);
    }
  }

  // ----- what a pooled block knows

  /**
    The block's value is the weighted mean of its rates, and no prefix of the block lies below
    that mean on average: splitting the block could only break monotonicity.
   */
  ghost predicate Pooled(b: Block, w: seq<real>, y: seq<real>)
    requires |w| == |y|
  {
    && 0 <= b.start <= b.end < |w|
    && b.weight == Sum(w, b.start, b.end + 1)
    && Excess(w, y, b.value, b.start, b.end + 1) == 0.0
    && forall k :: b.start <= k <= b.end + 1 ==> Excess(w, y, b.value, b.start, k) >= 0.0
  }

  /** The blocks cover the bins from..to-1 without gap or overlap, each one pooled. */
  ghost predicate Tiles(blocks: seq<Block>, w: seq<real>, y: seq<real>)
    requires |w| == |y|
  {
    && |blocks| > 0
    && blocks[0].start == 0
    && blocks[|blocks| - 1].end == |w| - 1
    && (forall j :: 0 <= j < |blocks| ==> Pooled(blocks[j], w, y))
    && (forall j :: 0 <= j && j + 1 < |blocks| ==> blocks[j + 1].start == blocks[j].end + 1)
  }

  function Merge(a: Block, b: Block): Block
    requires a.weight + b.weight != 0.0
  {
    var weight := a.weight + b.weight;
    Block(a.start, b.end, weight, (a.value * a.weight + b.value * b.weight) / weight)
  }

  /** Left part of a merge: lowering the level can only raise the prefixes. */
  lemma LeftPrefixes(a: Block, m: real, w: seq<real>, y: seq<real>, k: int)
    requires |w| == |y| && Positive(w) && Pooled(a, w, y) && m <= a.value && a.start <= k <= a.end + 1
    ensures Excess(w, y, m, a.start, k) >= 0.0
  {
    hide Residuals, Sum;
    assert Excess(w, y, a.value, a.start, k) >= 0.0;
    ExcessShift(w, y, a.value, m, a.start, k);
    WeightsPositive(w, a.start, k);
    MulNonNegative(a.value - m, Sum(w, a.start, k));
  }

  /** Right part of a merge: what is left of the block after k lies below the higher level. */
  lemma RightSuffixes(b: Block, m: real, w: seq<real>, y: seq<real>, k: int)
    requires |w| == |y| && Positive(w) && Pooled(b, w, y) && b.value <= m && b.start <= k <= b.end + 1
    ensures Excess(w, y, m, k, b.end + 1) <= 0.0
  {
    var e := b.end + 1;
    hide Residuals, Sum;
    assert Excess(w, y, b.value, b.start, k) >= 0.0;
    SumSplit(Residuals(w, y, b.value), b.start, k, e);
    WeightsPositive(w, k, e);
    MulNonPositive(b.value - m, Sum(w, k, e));
    ExcessShift(w, y, b.value, m, k, e);
  }

  /** At the merged mean the two blocks' excesses cancel. */
  lemma MergedExcess(a: Block, b: Block, m: real, w: seq<real>, y: seq<real>)
    requires |w| == |y| && Pooled(a, w, y) && Pooled(b, w, y) && b.start == a.end + 1
    requires m * (a.weight + b.weight) == a.value * a.weight + b.value * b.weight
    ensures Excess(w, y, m, a.start, b.end + 1) == 0.0
  {
    SumSplit(Residuals(w, y, m), a.start, b.start, b.end + 1);
    ShiftedToMean(a, m, w, y);
    ShiftedToMean(b, m, w, y);
    assert (a.value - m) * a.weight + (b.value - m) * b.weight == 0.0;
  }

  lemma ShiftedToMean(b: Block, m: real, w: seq<real>, y: seq<real>)
    requires |w| == |y| && Pooled(b, w, y)
    ensures Excess(w, y, m, b.start, b.end + 1) == (b.value - m) * b.weight
  {
    ExcessShift(w, y, b.value, m, b.start, b.end + 1);
  }

  /** Merging a violating pair gives a pooled block whose value lies strictly between the two. */
  lemma MergeIsPooled(a: Block, b: Block, w: seq<real>, y: seq<real>)
    requires |w| == |y| && Positive(w)
    requires Pooled(a, w, y) && Pooled(b, w, y) && b.start == a.end + 1
    requires a.value > b.value
    ensures a.weight > 0.0 && b.weight > 0.0
    ensures Pooled(Merge(a, b), w, y)
    ensures b.value < Merge(a, b).value < a.value
  {
    WeightsPositive(w, a.start, a.end + 1);
    WeightsPositive(w, b.start, b.end + 1);
    SumSplit(w, a.start, b.start, b.end + 1);
    var m := Merge(a, b).value;
    QuotientTimes(a.value * a.weight + b.value * b.weight, a.weight + b.weight);
    MeanBetween(a.value, a.weight, b.value, b.weight, m);
    var s, mid, e := a.start, b.start, b.end + 1;
    MergedExcess(a, b, m, w, y);
    forall k | s <= k <= e
      ensures Excess(w, y, m, s, k) >= 0.0
    {
      if k <= mid {
        LeftPrefixes(a, m, w, y, k);
      } else {
        RightSuffixes(b, m, w, y, k);
        SumSplit(Residuals(w, y, m), s, k, e);
      }
    }
  }

  lemma MeanBetween(va: real, wa: real, vb: real, wb: real, m: real)
    requires wa > 0.0 && wb > 0.0 && va > vb
    requires m * (wa + wb) == va * wa + vb * wb
    ensures vb < m < va
  {
    var t := wa + wb;
    assert t * m < t * va by {
      MulStrict(wb, vb, va);
      assert va * t == va * wa + va * wb;
    }
    Cancel(t, m, va);
    assert t * vb < t * m by {
      MulStrict(wa, vb, va);
      assert vb * t == vb * wa + vb * wb;
    }
    Cancel(t, vb, m);
  }

  /** Merging the violating pair at `index` keeps the blocks a pooled tiling. */
  lemma MergeKeepsTiling(blocks: seq<Block>, index: int, w: seq<real>, y: seq<real>)
    requires |w| == |y| && Positive(w) && Tiles(blocks, w, y)
    requires 0 <= index && index + 1 < |blocks| && blocks[index].value > blocks[index + 1].value
    ensures blocks[index].weight + blocks[index + 1].weight > 0.0
    ensures Tiles(blocks[..index] + [Merge(blocks[index], blocks[index + 1])] + blocks[index + 2..], w, y)
  {
    hide Excess, Sum;
    MergeIsPooled(blocks[index], blocks[index + 1], w, y);
  }

  // ----- optimality

  /** The residuals at level c times a competitor. */
  ghost function Paired(w: seq<real>, y: seq<real>, c: real, z: seq<real>): seq<real>
    requires |w| == |y| == |z|
  {
    seq(|w|, i requires 0 <= i < |w| => Residuals(w, y, c)[i] * z[i])
  }

  /** Summation by parts: a non-decreasing competitor pairs with a prefix at most at its last value. */
  lemma {:induction false} PairingBound(w: seq<real>, y: seq<real>, c: real, z: seq<real>, lo: int, hi: int)
    requires 0 <= lo < hi <= |w| == |y| == |z| && NonDecreasing(z)
    requires forall k :: lo <= k < hi ==> Excess(w, y, c, lo, k) >= 0.0
    ensures Sum(Paired(w, y, c, z), lo, hi) <= Excess(w, y, c, lo, hi) * z[hi - 1]
    decreases hi
  {
    var before := Excess(w, y, c, lo, hi - 1);
    var r := Residuals(w, y, c)[hi - 1];
    assert Paired(w, y, c, z)[hi - 1] == r * z[hi - 1];
    assert Excess(w, y, c, lo, hi) == before + r;
    if lo < hi - 1 {
      PairingBound(w, y, c, z, lo, hi - 1);
      PartsStep(Sum(Paired(w, y, c, z), lo, hi - 1), before, r, z[hi - 2], z[hi - 1]);
    }
  }

  lemma PartsStep(p: real, x: real, r: real, a: real, b: real)
    requires x >= 0.0 && a <= b && p <= x * a
    ensures p + r * b <= (x + r) * b
  {
    MulMonotone(x, a, b);
    assert (x + r) * b == x * b + r * b;
  }

  /** v carries the value of each block on that block's bins. */
  ghost predicate Carries(v: seq<real>, blocks: seq<Block>) {
    forall j, i :: 0 <= j < |blocks| && blocks[j].start <= i <= blocks[j].end && 0 <= i < |v| ==> v[i] == blocks[j].value
  }

  /** The residuals of v times its own distance to a competitor. */
  ghost function Crossed(w: seq<real>, y: seq<real>, v: seq<real>, z: seq<real>): seq<real>
    requires |w| == |y| == |v| == |z|
  {
    seq(|w|, i requires 0 <= i < |w| => w[i] * (y[i] - v[i]) * (v[i] - z[i]))
  }

  /** The losses to z and to v differ by v's distance to z and twice the cross term. */
  lemma LossExpansion(w: seq<real>, y: seq<real>, v: seq<real>, z: seq<real>)
    requires |w| == |y| == |v| == |z|
    ensures Loss(w, y, z) == Loss(w, y, v) + Loss(w, v, z) + 2.0 * Total(Crossed(w, y, v, z))
  {
    var n := |w|;
    var rest := seq(n, i requires 0 <= i < n => Squares(w, y, v)[i] + Squares(w, v, z)[i]);
    SumAdd(rest, Squares(w, y, v), Squares(w, v, z), 0, n);
    SquaresExpand(w, y, v, z, rest);
    SumLinear(Squares(w, y, z), 2.0, Crossed(w, y, v, z), rest, 0, n);
  }

  lemma SquaresExpand(w: seq<real>, y: seq<real>, v: seq<real>, z: seq<real>, rest: seq<real>)
    requires |w| == |y| == |v| == |z| == |rest|
    requires forall i :: 0 <= i < |w| ==> rest[i] == Squares(w, y, v)[i] + Squares(w, v, z)[i]
    ensures Combines(Squares(w, y, z), 2.0, Crossed(w, y, v, z), rest, 0, |w|)
  {
    forall i | 0 <= i < |w|
      ensures Squares(w, y, z)[i] == 2.0 * Crossed(w, y, v, z)[i] + rest[i]
    {
      SquareExpansion(w[i], y[i], v[i], z[i]);
    }
  }

  lemma SquareExpansion(u: real, a: real, c: real, q: real)
    ensures u * Sq(a - q) == 2.0 * (u * (a - c) * (c - q)) + (u * Sq(a - c) + u * Sq(c - q))
  {
  }

  /** On one pooled block the cross term cannot be negative. */
  lemma BlockCrossTerm(b: Block, w: seq<real>, y: seq<real>, v: seq<real>, z: seq<real>)
    requires |w| == |y| == |v| == |z| && Pooled(b, w, y) && NonDecreasing(z)
    requires forall i :: b.start <= i <= b.end ==> v[i] == b.value
    ensures Sum(Crossed(w, y, v, z), b.start, b.end + 1) >= 0.0
  {
    var lo, hi, c := b.start, b.end + 1, b.value;
    var p := Paired(w, y, c, z);
    var negated := seq(|w|, i requires 0 <= i < |w| => -p[i]);
    PairingBound(w, y, c, z, lo, hi);
    SumZeros(|w|, lo, hi);
    SumLinear(negated, -1.0, p, Zeros(|w|), lo, hi);
    CrossTerms(w, y, v, z, c, negated, lo, hi);
    SumLinear(Crossed(w, y, v, z), c, Residuals(w, y, c), negated, lo, hi);
  }

  lemma CrossTerms(w: seq<real>, y: seq<real>, v: seq<real>, z: seq<real>, c: real, negated: seq<real>, lo: int, hi: int)
    requires 0 <= lo <= hi <= |w| == |y| == |v| == |z| == |negated|
    requires forall i :: lo <= i < hi ==> v[i] == c && negated[i] == -Paired(w, y, c, z)[i]
    ensures Combines(Crossed(w, y, v, z), c, Residuals(w, y, c), negated, lo, hi)
  {
    forall i | lo <= i < hi
      ensures Crossed(w, y, v, z)[i] == c * Residuals(w, y, c)[i] + negated[i]
    {
      CrossTerm(Residuals(w, y, c)[i], c, z[i]);
    }
  }

  lemma CrossTerm(r: real, c: real, q: real)
    ensures r * (c - q) == c * r + -(r * q)
  {
  }

  lemma {:induction false} CrossTermNonNegative(blocks: seq<Block>, n: nat, w: seq<real>, y: seq<real>, v: seq<real>, z: seq<real>)
    requires |w| == |y| == |v| == |z| && Tiles(blocks, w, y) && Carries(v, blocks) && NonDecreasing(z)
    requires 0 < n <= |blocks|
    ensures Sum(Crossed(w, y, v, z), 0, blocks[n - 1].end + 1) >= 0.0
    decreases n
  {
    var b := blocks[n - 1];
    assert Pooled(b, w, y);
    BlockCrossTerm(b, w, y, v, z);
    SumSplit(Crossed(w, y, v, z), 0, b.start, b.end + 1);
    if n > 1 {
      CrossTermNonNegative(blocks, n - 1, w, y, v, z);
      Adjacent(blocks, n - 2, w, y);
    }
  }

  lemma Adjacent(blocks: seq<Block>, j: int, w: seq<real>, y: seq<real>)
    requires |w| == |y| && Tiles(blocks, w, y) && 0 <= j && j + 1 < |blocks|
    ensures blocks[j + 1].start == blocks[j].end + 1
  {
  }

  /** Pooled blocks give the projection of the rates onto the non-decreasing vectors. */
  lemma PooledBlocksProject(blocks: seq<Block>, w: seq<real>, y: seq<real>, v: seq<real>)
    requires |w| == |y| == |v| && Tiles(blocks, w, y) && Carries(v, blocks)
    ensures Projects(w, y, v)
  {
    hide Sum, Squares, Pooled, Carries, NonDecreasing;
    forall z: seq<real> | |z| == |y| && NonDecreasing(z)
      ensures Loss(w, y, z) >= Loss(w, y, v) + Loss(w, v, z)
    {
      CrossTermNonNegative(blocks, |blocks|, w, y, v, z);
      LossExpansion(w, y, v, z);
    }
  }

  /** A projection that is itself non-decreasing is the one least-squares monotone fit. */
  lemma ProjectionIsUnique(w: seq<real>, y: seq<real>, v: seq<real>, z: seq<real>)
    requires |w| == |y| == |v| == |z| && Positive(w)
    requires Projects(w, y, v) && NonDecreasing(v)
    requires NonDecreasing(z) && Loss(w, y, z) <= Loss(w, y, v)
    ensures z == v
  {
    LossSeparates(w, v, z);
  }

  lemma BlockMean(b: Block, w: seq<real>, y: seq<real>, v: seq<real>, c: real)
    requires |w| == |y| == |v| && Pooled(b, w, y)
    requires forall i :: b.start <= i <= b.end ==> v[i] == b.value
    ensures Excess(w, v, c, b.start, b.end + 1) == Excess(w, y, c, b.start, b.end + 1)
  {
    var lo, hi := b.start, b.end + 1;
    ExcessShift(w, y, b.value, c, lo, hi);
    SumZeros(|w|, lo, hi);
    ConstantResiduals(w, v, b.value, c, lo, hi);
    SumLinear(Residuals(w, v, c), b.value - c, w, Zeros(|w|), lo, hi);
  }

  lemma ConstantResiduals(w: seq<real>, v: seq<real>, value: real, c: real, lo: int, hi: int)
    requires 0 <= lo <= hi <= |w| == |v|
    requires forall i :: lo <= i < hi ==> v[i] == value
    ensures Combines(Residuals(w, v, c), value - c, w, Zeros(|w|), lo, hi)
  {
  }

  /** The weighted mean of the rates survives pooling. */
  lemma {:induction false} PoolingKeepsMean(blocks: seq<Block>, n: nat, w: seq<real>, y: seq<real>, v: seq<real>, c: real)
    requires |w| == |y| == |v| && Tiles(blocks, w, y) && Carries(v, blocks)
    requires 0 < n <= |blocks|
    ensures Excess(w, v, c, 0, blocks[n - 1].end + 1) == Excess(w, y, c, 0, blocks[n - 1].end + 1)
    decreases n
  {
    var b := blocks[n - 1];
    assert Pooled(b, w, y);
    var lo, hi := b.start, b.end + 1;
    BlockMean(b, w, y, v, c);
    SumSplit(Residuals(w, y, c), 0, lo, hi);
    SumSplit(Residuals(w, v, c), 0, lo, hi);
    if n > 1 {
      PoolingKeepsMean(blocks, n - 1, w, y, v, c);
      Adjacent(blocks, n - 2, w, y);
    }
  }

  /** A pooled block's value stays inside any interval that holds all its rates. */
  lemma PooledValueWithin(b: Block, w: seq<real>, y: seq<real>, least: real, most: real)
    requires |w| == |y| && Positive(w) && Pooled(b, w, y)
    requires forall i :: 0 <= i < |y| ==> least <= y[i] <= most
    ensures least <= b.value <= most
  {
    var lo, hi := b.start, b.end + 1;
    WeightsPositive(w, lo, hi);
    ExcessSign(w, y, least, most, lo, hi);
    ExcessShift(w, y, b.value, least, lo, hi);
    ExcessShift(w, y, b.value, most, lo, hi);
    SignOfFactor(b.value - least, Sum(w, lo, hi));
    SignOfFactor(most - b.value, Sum(w, lo, hi));
  }

  lemma ExcessSign(w: seq<real>, y: seq<real>, least: real, most: real, lo: int, hi: int)
    requires 0 <= lo <= hi <= |w| == |y| && Positive(w)
    requires forall i :: 0 <= i < |y| ==> least <= y[i] <= most
    ensures Excess(w, y, least, lo, hi) >= 0.0
    ensures Excess(w, y, most, lo, hi) <= 0.0
  {
    var above, below := Residuals(w, y, least), Residuals(w, y, most);
    forall i | 0 <= i < |w|
      ensures above[i] >= 0.0 && below[i] <= 0.0
    {
      MulNonNegative(w[i], y[i] - least);
      MulMonotone(w[i], y[i] - most, 0.0);
    }
    SumNonNegative(above, lo, hi);
    SumMonotone(below, Zeros(|w|), lo, hi);
    SumZeros(|w|, lo, hi);
  }

  // ----- the algorithm

  /** One block a bin is the pooled tiling the loop starts from. */
  lemma SingletonTiling(w: seq<real>, y: seq<real>, blocks: seq<Block>)
    requires |blocks| == |w| == |y| > 0
    requires forall i :: 0 <= i < |w| ==> blocks[i] == Block(i, i, w[i], y[i])
    ensures Tiles(blocks, w, y)
  {
    forall j | 0 <= j < |blocks|
      ensures Pooled(blocks[j], w, y)
    {
      assert Sum(w, j, j + 1) == Sum(w, j, j) + w[j];
      assert Residuals(w, y, y[j])[j] == 0.0;
      assert Excess(w, y, y[j], j, j + 1) == Excess(w, y, y[j], j, j) + Residuals(w, y, y[j])[j];
      forall k | j <= k <= j + 1
        ensures Excess(w, y, y[j], j, k) >= 0.0
      {
        assert k == j || k == j + 1;
      }
    }
  }

  method PoolAdjacentViolators(weights: seq<real>, rates: seq<real>) returns (blocks: seq<Block>)
    requires |weights| == |rates| > 0 && Positive(weights)
    ensures Tiles(blocks, weights, rates)
    ensures forall j :: 0 <= j && j + 1 < |blocks| ==> blocks[j].value <= blocks[j + 1].value + SLACK
  {
    blocks := [];
    for index := 0 to |rates|
      invariant |blocks| == index
      invariant forall i :: 0 <= i < index ==> blocks[i] == Block(i, i, weights[i], rates[i])
    {
      blocks := blocks + [Block(index, index, weights[index], rates[index])];
    }
    SingletonTiling(weights, rates, blocks);
    var index := 0;
    while index + 1 < |blocks|
      invariant Tiles(blocks, weights, rates)
      invariant 0 <= index < |blocks|
      invariant forall j :: 0 <= j < index ==> blocks[j].value <= blocks[j + 1].value + SLACK
      decreases 2 * |blocks| - index
    {
      if blocks[index].value <= blocks[index + 1].value + SLACK {
        index := index + 1;
        continue;
      }
      MergeKeepsTiling(blocks, index, weights, rates);
      blocks := blocks[..index] + [Merge(blocks[index], blocks[index + 1])] + blocks[index + 2..];
      if index > 0 {
        index := index - 1;
      }
    }
  }

  /** Appending the next block's value on its bins keeps the fill faithful and nearly monotone. */
  lemma ExtendFill(v: seq<real>, run: seq<real>, blocks: seq<Block>, b: nat, w: seq<real>, y: seq<real>)
    requires |w| == |y| && Tiles(blocks, w, y) && b < |blocks| && |v| == blocks[b].start
    requires b > 0 ==> |v| > 0 && v[|v| - 1] == blocks[b - 1].value <= blocks[b].value + SLACK
    requires Carries(v, blocks[..b]) && NearlyNonDecreasing(v)
    requires |run| == blocks[b].end + 1 - blocks[b].start
    requires forall i :: 0 <= i < |run| ==> run[i] == blocks[b].value
    ensures Carries(v + run, blocks[..b + 1]) && NearlyNonDecreasing(v + run)
  {
    EndsBefore(blocks, b, w, y);
  }

  lemma {:induction false} EndsBefore(blocks: seq<Block>, b: nat, w: seq<real>, y: seq<real>)
    requires |w| == |y| && Tiles(blocks, w, y) && b < |blocks|
    ensures forall j :: 0 <= j < b ==> blocks[j].end < blocks[b].start
    ensures b > 0 ==> blocks[b].start > 0
    ensures b == 0 ==> blocks[b].start == 0
  {
    if b > 0 {
      EndsBefore(blocks, b - 1, w, y);
      Adjacent(blocks, b - 1, w, y);
      assert Pooled(blocks[b - 1], w, y);
    }
  }

  lemma EmptyFill(v: seq<real>, blocks: seq<Block>, w: seq<real>, y: seq<real>)
    requires |w| == |y| && Tiles(blocks, w, y) && v == []
    ensures |blocks| > 0 && blocks[0].start == 0
    ensures Carries(v, blocks[..0]) && NearlyNonDecreasing(v)
  {
  }

  lemma BlockBounds(blocks: seq<Block>, b: nat, w: seq<real>, y: seq<real>)
    requires |w| == |y| && Tiles(blocks, w, y) && b < |blocks|
    ensures 0 <= blocks[b].start <= blocks[b].end < |w|
    ensures blocks[b].end + 1 == if b + 1 < |blocks| then blocks[b + 1].start else |w|
  {
    assert Pooled(blocks[b], w, y);
    if b + 1 < |blocks| { Adjacent(blocks, b, w, y); }
  }

  /** Writes one value onto consecutive bins. */
  method Fill(buffer: array<real>, from: nat, upto: nat, value: real)
    requires from <= upto <= buffer.Length
    modifies buffer
    ensures buffer[..upto] == old(buffer[..from]) + seq(upto - from, _ => value)
  {
    for index := from to upto
      invariant buffer[..from] == old(buffer[..from])
      invariant forall i :: from <= i < index ==> buffer[i] == value
    {
      buffer[index] := value;
    }
  }

  /** Writes each block's value onto its bins. */
  method Spread(blocks: seq<Block>, weights: seq<real>, rates: seq<real>) returns (values: seq<real>)
    requires |weights| == |rates| && Tiles(blocks, weights, rates)
    requires forall j :: 0 <= j && j + 1 < |blocks| ==> blocks[j].value <= blocks[j + 1].value + SLACK
    ensures |values| == |rates| && Carries(values, blocks)
    ensures NearlyNonDecreasing(values)
  {
    hide Tiles, Pooled, Carries, NearlyNonDecreasing;
    var buffer := new real[|rates|];
    ghost var filled := 0;
    EmptyFill(buffer[..0], blocks, weights, rates);
    for b := 0 to |blocks|
      invariant 0 <= filled <= |rates|
      invariant filled == if b < |blocks| then blocks[b].start else |rates|
      invariant b > 0 ==> 0 < filled && buffer[..filled][filled - 1] == blocks[b - 1].value
      invariant Carries(buffer[..filled], blocks[..b]) && NearlyNonDecreasing(buffer[..filled])
    {
      BlockBounds(blocks, b, weights, rates);
      ghost var before := buffer[..filled];
      Fill(buffer, blocks[b].start, blocks[b].end + 1, blocks[b].value);
      ExtendFill(before, seq(blocks[b].end + 1 - filled, _ => blocks[b].value), blocks, b, weights, rates);
      filled := blocks[b].end + 1;
    }
    assert blocks[..|blocks|] == blocks && buffer[..filled] == buffer[..];
    values := buffer[..];
  }
}
