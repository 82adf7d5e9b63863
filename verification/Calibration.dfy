/**
  Probability calibration (internal/dynamicparam/calibration.go): samples are tallied into
  equal-width bins, smoothed towards the prevalence and pooled into a monotone reliability map.
 */
module Calibration {
  import opened Wrappers
  import opened RealMath
  import opened Sums
  import opened Isotonic

  const CALIBRATION_VERSION := "p09-histogram-isotonic-v1"
  const DEFAULT_BINS := 10
  const MINIMUM_SAMPLES := 8
  const PSEUDO_OBSERVATIONS := 2.0

  datatype CalibrationError = InsufficientSamples | InvalidSample | InvalidCalibrator

  datatype ProbabilityCalibrator = ProbabilityCalibrator(schemaVersion: string, boundaries: seq<real>, values: seq<real>)

  // ----- what the bins hold

  function EffectiveBins(binCount: int): (bins: int)
    ensures bins >= 2
  {
    if binCount < 2 then DEFAULT_BINS else binCount
  }

  /** The bin of a probability: its share of the unit interval, the right end in the last bin. */
  function BinOf(probability: real, bins: int): int {
    var floor := (probability * bins as real).Floor;
    if floor < bins - 1 then floor else bins - 1
  }

  predicate ValidSample(probability: real, observed: real) {
    0.0 <= probability <= 1.0 && (observed == 0.0 || observed == 1.0)
  }

  ghost predicate ValidSamples(probabilities: seq<real>, labels: seq<real>) {
    && |probabilities| == |labels|
    && forall i :: 0 <= i < |labels| ==> ValidSample(probabilities[i], labels[i])
  }

  /** How many of the first n probabilities fall into a bin. */
  ghost function CountIn(probabilities: seq<real>, bins: int, bin: int, n: nat): (count: nat)
    requires n <= |probabilities|
  {
    if n == 0 then 0
    else CountIn(probabilities, bins, bin, n - 1) + if BinOf(probabilities[n - 1], bins) == bin then 1 else 0
  }

  /** The sum of the labels of the first n samples that fall into a bin. */
  ghost function LabelsIn(probabilities: seq<real>, labels: seq<real>, bins: int, bin: int, n: nat): real
    requires n <= |probabilities| == |labels|
  {
    if n == 0 then 0.0
    else LabelsIn(probabilities, labels, bins, bin, n - 1)
         + if BinOf(probabilities[n - 1], bins) == bin then labels[n - 1] else 0.0
  }

  ghost function Prevalence(labels: seq<real>): real
    requires |labels| > 0
  {
    Total(labels) / |labels| as real
  }

  /** Weight of each bin: its samples and two pseudo observations. */
  ghost function BinWeights(probabilities: seq<real>, bins: nat): (w: seq<real>)
    ensures |w| == bins && Positive(w)
  {
    seq(bins, b requires 0 <= b < bins => CountIn(probabilities, bins, b, |probabilities|) as real + PSEUDO_OBSERVATIONS)
  }

  /** Rate of each bin: its labels and two pseudo observations at the prevalence. */
  ghost function BinRates(probabilities: seq<real>, labels: seq<real>, bins: nat): (y: seq<real>)
    requires |probabilities| == |labels| > 0
    ensures |y| == bins
  {
    seq(bins, b requires 0 <= b < bins =>
      (LabelsIn(probabilities, labels, bins, b, |labels|) + PSEUDO_OBSERVATIONS * Prevalence(labels))
      / (CountIn(probabilities, bins, b, |labels|) as real + PSEUDO_OBSERVATIONS))
  }

  lemma BinInRange(probability: real, bins: int)
    requires 0.0 <= probability && bins >= 1
    ensures 0 <= BinOf(probability, bins) < bins
  {
    MulNonNegative(probability, bins as real);
  }

  lemma {:induction false} LabelsWithinCount(probabilities: seq<real>, labels: seq<real>, bins: int, bin: int, n: nat)
    requires n <= |probabilities| && ValidSamples(probabilities, labels)
    ensures 0.0 <= LabelsIn(probabilities, labels, bins, bin, n) <= CountIn(probabilities, bins, bin, n) as real
  {
    if n > 0 {
      LabelsWithinCount(probabilities, labels, bins, bin, n - 1);
      assert ValidSample(probabilities[n - 1], labels[n - 1]);
    }
  }

  lemma {:induction false} LabelTotalWithin(labels: seq<real>, n: nat)
    requires n <= |labels| && forall i :: 0 <= i < n ==> 0.0 <= labels[i] <= 1.0
    ensures 0.0 <= Sum(labels, 0, n) <= n as real
  {
    if n > 0 { LabelTotalWithin(labels, n - 1); }
  }

  lemma PrevalenceWithin(labels: seq<real>)
    requires |labels| > 0 && forall i :: 0 <= i < |labels| ==> 0.0 <= labels[i] <= 1.0
    ensures 0.0 <= Prevalence(labels) <= 1.0
  {
    LabelTotalWithin(labels, |labels|);
  }

  lemma RateWithin(labels: real, count: real, prevalence: real)
    requires 0.0 <= labels <= count && 0.0 <= prevalence <= 1.0
    ensures 0.0 <= (labels + PSEUDO_OBSERVATIONS * prevalence) / (count + PSEUDO_OBSERVATIONS) <= 1.0
  {
    var weight := count + PSEUDO_OBSERVATIONS;
    var rate := (labels + PSEUDO_OBSERVATIONS * prevalence) / weight;
    QuotientTimes(labels + PSEUDO_OBSERVATIONS * prevalence, weight);
    SignOfFactor(rate, weight);
    SignOfFactor(1.0 - rate, weight);
  }

  lemma RatesWithin(probabilities: seq<real>, labels: seq<real>, bins: nat)
    requires |labels| > 0 && ValidSamples(probabilities, labels)
    ensures forall b :: 0 <= b < bins ==> 0.0 <= BinRates(probabilities, labels, bins)[b] <= 1.0
  {
    forall i | 0 <= i < |labels|
      ensures 0.0 <= labels[i] <= 1.0
    {
      assert ValidSample(probabilities[i], labels[i]);
    }
    PrevalenceWithin(labels);
    forall b | 0 <= b < bins
      ensures 0.0 <= BinRates(probabilities, labels, bins)[b] <= 1.0
    {
      LabelsWithinCount(probabilities, labels, bins, b, |labels|);
      RateWithin(LabelsIn(probabilities, labels, bins, b, |labels|), CountIn(probabilities, bins, b, |labels|) as real, Prevalence(labels));
    }
  }

  // ----- every sample is tallied in exactly one bin

  ghost function LabelColumn(probabilities: seq<real>, labels: seq<real>, bins: nat, n: nat): (t: seq<real>)
    requires n <= |probabilities| == |labels|
    ensures |t| == bins
  {
    seq(bins, b requires 0 <= b < bins => LabelsIn(probabilities, labels, bins, b, n))
  }

  ghost function CountColumn(probabilities: seq<real>, bins: nat, n: nat): (t: seq<real>)
    requires n <= |probabilities|
    ensures |t| == bins
  {
    seq(bins, b requires 0 <= b < bins => CountIn(probabilities, bins, b, n) as real)
  }

  /** Adding x at one position of a column adds x to its total. */
  lemma TotalAfterBump(before: seq<real>, after: seq<real>, at: int, x: real)
    requires |before| == |after| && 0 <= at < |before|
    requires forall i :: 0 <= i < |before| ==> after[i] == before[i] + if i == at then x else 0.0
    ensures Total(after) == Total(before) + x
  {
    SumSplit(before, 0, at, |before|);
    SumSplit(before, at, at + 1, |before|);
    SumSplit(after, 0, at, |after|);
    SumSplit(after, at, at + 1, |after|);
    SumAgree(before, after, 0, at);
    SumAgree(before, after, at + 1, |before|);
    assert Sum(before, at, at + 1) == Sum(before, at, at) + before[at];
    assert Sum(after, at, at + 1) == Sum(after, at, at) + after[at];
  }

  lemma {:induction false} TalliesComplete(probabilities: seq<real>, labels: seq<real>, bins: nat, n: nat)
    requires bins >= 1 && n <= |labels| && ValidSamples(probabilities, labels)
    ensures Total(LabelColumn(probabilities, labels, bins, n)) == Sum(labels, 0, n)
    ensures Total(CountColumn(probabilities, bins, n)) == n as real
  {
    if n == 0 {
      SumZeros(bins, 0, bins);
      assert LabelColumn(probabilities, labels, bins, 0) == Zeros(bins);
      assert CountColumn(probabilities, bins, 0) == Zeros(bins);
    } else {
      TalliesComplete(probabilities, labels, bins, n - 1);
      assert ValidSample(probabilities[n - 1], labels[n - 1]);
      BinInRange(probabilities[n - 1], bins);
      var at := BinOf(probabilities[n - 1], bins);
      TotalAfterBump(LabelColumn(probabilities, labels, bins, n - 1), LabelColumn(probabilities, labels, bins, n), at, labels[n - 1]);
      TotalAfterBump(CountColumn(probabilities, bins, n - 1), CountColumn(probabilities, bins, n), at, 1.0);
    }
  }

  /** The bins' weighted mean rate is the sample prevalence: smoothing moves no mass. */
  lemma RatesKeepPrevalence(probabilities: seq<real>, labels: seq<real>, bins: nat)
    requires bins >= 1 && |labels| > 0 && ValidSamples(probabilities, labels)
    ensures Excess(BinWeights(probabilities, bins), BinRates(probabilities, labels, bins), Prevalence(labels), 0, bins) == 0.0
  {
    hide Sum, Residuals, CountIn, LabelsIn;
    var n, p := |labels|, Prevalence(labels);
    var w, y := BinWeights(probabilities, bins), BinRates(probabilities, labels, bins);
    var counts, sums := CountColumn(probabilities, bins, n), LabelColumn(probabilities, labels, bins, n);
    TalliesComplete(probabilities, labels, bins, n);
    SmoothedResiduals(w, y, p, counts, sums);
    SumLinear(Residuals(w, y, p), -p, counts, sums, 0, bins);
    QuotientTimes(Total(labels), n as real);
  }

  lemma SmoothedResiduals(w: seq<real>, y: seq<real>, p: real, counts: seq<real>, sums: seq<real>)
    requires |w| == |y| == |counts| == |sums|
    requires forall b :: 0 <= b < |w| ==> w[b] == counts[b] + PSEUDO_OBSERVATIONS && w[b] > 0.0
    requires forall b :: 0 <= b < |w| ==> y[b] == (sums[b] + PSEUDO_OBSERVATIONS * p) / w[b]
    ensures Combines(Residuals(w, y, p), -p, counts, sums, 0, |w|)
  {
    forall b | 0 <= b < |w|
      ensures Residuals(w, y, p)[b] == -p * counts[b] + sums[b]
    {
      SmoothedResidual(w[b], y[b], p, counts[b], sums[b]);
    }
  }

  lemma SmoothedResidual(u: real, a: real, p: real, count: real, labels: real)
    requires u == count + PSEUDO_OBSERVATIONS && u > 0.0 && a == (labels + PSEUDO_OBSERVATIONS * p) / u
    ensures u * (a - p) == -p * count + labels
  {
    QuotientTimes(labels + PSEUDO_OBSERVATIONS * p, u);
    assert u * (a - p) == a * u - u * p;
  }

  // ----- the fit

  ghost predicate EvenlySpaced(boundaries: seq<real>, bins: int)
    requires bins >= 1
  {
    && |boundaries| == bins + 1
    && forall i :: 0 <= i <= bins ==> boundaries[i] == i as real / bins as real
  }

  /** A fitted map of the effective bin count, as the training code relies on it. */
  ghost predicate Fitted(c: ProbabilityCalibrator, bins: int) {
    && bins >= 2
    && c.schemaVersion == CALIBRATION_VERSION
    && |c.values| == bins
    && EvenlySpaced(c.boundaries, bins)
    && (forall i :: 0 <= i < bins ==> 0.0 <= c.values[i] <= 1.0)
    && NearlyNonDecreasing(c.values)
  }

  /**
    The fitted values project the smoothed bin rates onto the monotone maps, and their weighted
    mean over the smoothed bins is the sample prevalence.
   */
  ghost predicate IsBestFit(c: ProbabilityCalibrator, probabilities: seq<real>, labels: seq<real>, bins: int)
    requires |probabilities| == |labels| > 0
  {
    && Fitted(c, bins)
    && Projects(BinWeights(probabilities, bins), BinRates(probabilities, labels, bins), c.values)
    && Excess(BinWeights(probabilities, bins), c.values, Prevalence(labels), 0, bins) == 0.0
  }

  /** Tallies the samples; stops at the first invalid one. */
  method Tally(probabilities: seq<real>, labels: seq<real>, bins: int)
    returns (ok: bool, counts: seq<real>, sums: seq<real>, positives: real)
    requires |probabilities| == |labels| && bins >= 1
    ensures ok <==> ValidSamples(probabilities, labels)
    ensures ok ==> counts == CountColumn(probabilities, bins, |labels|)
    ensures ok ==> sums == LabelColumn(probabilities, labels, bins, |labels|)
    ensures ok ==> positives == Total(labels)
  {
    counts, sums, positives := seq(bins, _ => 0.0), seq(bins, _ => 0.0), 0.0;
    for index := 0 to |probabilities|
      invariant forall i :: 0 <= i < index ==> ValidSample(probabilities[i], labels[i])
      invariant counts == CountColumn(probabilities, bins, index)
      invariant sums == LabelColumn(probabilities, labels, bins, index)
      invariant positives == Sum(labels, 0, index)
    {
      if !ValidSample(probabilities[index], labels[index]) {
        return false, [], [], 0.0;
      }
      BinInRange(probabilities[index], bins);
      var bin := BinOf(probabilities[index], bins);
      counts := counts[bin := counts[bin] + 1.0];
      sums := sums[bin := sums[bin] + labels[index]];
      positives := positives + labels[index];
    }
    ok := true;
  }

  method FitProbabilityCalibrator(probabilities: seq<real>, labels: seq<real>, binCount: int)
    returns (r: Result<ProbabilityCalibrator, CalibrationError>)
    ensures r == Err(InsufficientSamples) <==> |probabilities| != |labels| || |labels| < MINIMUM_SAMPLES
    ensures r.Ok? <==> |labels| >= MINIMUM_SAMPLES && ValidSamples(probabilities, labels)
    ensures r.Ok? ==> IsBestFit(r.value, probabilities, labels, EffectiveBins(binCount))
    ensures r.Ok? && SlackNeverBinds(|labels|, EffectiveBins(binCount)) ==> NonDecreasing(r.value.values)
  {
    if |probabilities| != |labels| || |labels| < MINIMUM_SAMPLES {
      return Err(InsufficientSamples);
    }
    hide Total, Excess, Tiles, Carries, Projects, EvenlySpaced, BinWeights, BinRates, Prevalence, SlackNeverBinds, NonDecreasing, ValidSamples, IsBestFit;
    var bins := if binCount < 2 then DEFAULT_BINS else binCount;
    var ok, weights, rates := SmoothedTally(probabilities, labels, bins);
    if !ok {
      return Err(InvalidSample);
    }
    var blocks := PoolAdjacentViolators(weights, rates);
    var values := Spread(blocks, weights, rates);
    if SlackNeverBinds(|labels|, bins) {
      ExactlyMonotone(probabilities, labels, bins, blocks, values);
    }
    var boundaries := EvenBoundaries(bins);
    var calibrator := ProbabilityCalibrator(CALIBRATION_VERSION, boundaries, values);
    FitIsBest(probabilities, labels, bins, blocks, calibrator);
    r := Ok(calibrator);
  }

  lemma FitIsBest(probabilities: seq<real>, labels: seq<real>, bins: nat, blocks: seq<Block>, c: ProbabilityCalibrator)
    requires bins >= 2 && |labels| > 0 && ValidSamples(probabilities, labels) && |c.values| == bins
    requires Tiles(blocks, BinWeights(probabilities, bins), BinRates(probabilities, labels, bins)) && Carries(c.values, blocks)
    requires c.schemaVersion == CALIBRATION_VERSION && EvenlySpaced(c.boundaries, bins) && NearlyNonDecreasing(c.values)
    ensures IsBestFit(c, probabilities, labels, bins)
  {
    hide Excess, Tiles, Carries, Projects, EvenlySpaced, BinWeights, BinRates, Prevalence, ValidSamples, NearlyNonDecreasing;
    PooledFit(probabilities, labels, bins, blocks, c.values);
  }

  /** The weight and the smoothed rate of each bin. */
  method SmoothedTally(probabilities: seq<real>, labels: seq<real>, bins: int)
    returns (ok: bool, weights: seq<real>, rates: seq<real>)
    requires |probabilities| == |labels| > 0 && bins >= 1
    ensures ok <==> ValidSamples(probabilities, labels)
    ensures ok ==> weights == BinWeights(probabilities, bins)
    ensures ok ==> rates == BinRates(probabilities, labels, bins)
  {
    hide Total, CountIn, LabelsIn, BinRates, BinWeights;
    var counts, sums, positives;
    ok, counts, sums, positives := Tally(probabilities, labels, bins);
    if !ok {
      return false, [], [];
    }
    weights, rates := Smooth(counts, sums, positives / |labels| as real);
    SmoothedBins(probabilities, labels, bins, weights, rates);
  }

  method EvenBoundaries(bins: int) returns (boundaries: seq<real>)
    requires bins >= 1
    ensures EvenlySpaced(boundaries, bins)
  {
    boundaries := [];
    for index := 0 to bins + 1
      invariant |boundaries| == index
      invariant forall i :: 0 <= i < index ==> boundaries[i] == i as real / bins as real
    {
      boundaries := boundaries + [index as real / bins as real];
    }
  }

  /** Adds the pseudo observations to the tallies. */
  method Smooth(counts: seq<real>, sums: seq<real>, prevalence: real) returns (weights: seq<real>, rates: seq<real>)
    requires |counts| == |sums|
    requires forall b :: 0 <= b < |counts| ==> counts[b] >= 0.0
    ensures |weights| == |rates| == |counts|
    ensures forall b :: 0 <= b < |counts| ==> weights[b] == counts[b] + PSEUDO_OBSERVATIONS
    ensures forall b :: 0 <= b < |counts| ==>
      rates[b] == (sums[b] + PSEUDO_OBSERVATIONS * prevalence) / (counts[b] + PSEUDO_OBSERVATIONS)
  {
    weights, rates := [], [];
    for index := 0 to |counts|
      invariant |weights| == |rates| == index
      invariant forall b :: 0 <= b < index ==> weights[b] == counts[b] + PSEUDO_OBSERVATIONS
      invariant forall b :: 0 <= b < index ==>
        rates[b] == (sums[b] + PSEUDO_OBSERVATIONS * prevalence) / (counts[b] + PSEUDO_OBSERVATIONS)
    {
      var weight := counts[index] + PSEUDO_OBSERVATIONS;
      weights := weights + [weight];
      rates := rates + [(sums[index] + PSEUDO_OBSERVATIONS * prevalence) / weight];
    }
  }

  lemma SmoothedBins(probabilities: seq<real>, labels: seq<real>, bins: nat, weights: seq<real>, rates: seq<real>)
    requires |probabilities| == |labels| > 0 && |weights| == |rates| == bins
    requires var counts, sums, p := CountColumn(probabilities, bins, |labels|), LabelColumn(probabilities, labels, bins, |labels|), Prevalence(labels);
      && (forall b :: 0 <= b < bins ==> weights[b] == counts[b] + PSEUDO_OBSERVATIONS)
      && (forall b :: 0 <= b < bins ==> counts[b] >= 0.0)
      && (forall b :: 0 <= b < bins ==> rates[b] == (sums[b] + PSEUDO_OBSERVATIONS * p) / (counts[b] + PSEUDO_OBSERVATIONS))
    ensures weights == BinWeights(probabilities, bins)
    ensures rates == BinRates(probabilities, labels, bins)
  {
    hide Prevalence, CountIn, LabelsIn;
    forall b | 0 <= b < bins
      ensures rates[b] == BinRates(probabilities, labels, bins)[b]
    {
    }
  }

  /** What pooling the smoothed bins yields. */
  lemma PooledFit(probabilities: seq<real>, labels: seq<real>, bins: nat, blocks: seq<Block>, values: seq<real>)
    requires bins >= 2 && |labels| > 0 && ValidSamples(probabilities, labels) && |values| == bins
    requires Tiles(blocks, BinWeights(probabilities, bins), BinRates(probabilities, labels, bins)) && Carries(values, blocks)
    ensures Projects(BinWeights(probabilities, bins), BinRates(probabilities, labels, bins), values)
    ensures Excess(BinWeights(probabilities, bins), values, Prevalence(labels), 0, bins) == 0.0
    ensures forall i :: 0 <= i < bins ==> 0.0 <= values[i] <= 1.0
  {
    hide Prevalence, CountIn, LabelsIn, BinWeights, BinRates, Excess;
    var weights, rates := BinWeights(probabilities, bins), BinRates(probabilities, labels, bins);
    PooledBlocksProject(blocks, weights, rates, values);
    RatesKeepPrevalence(probabilities, labels, bins);
    PoolingKeepsMean(blocks, |blocks|, weights, rates, values, Prevalence(labels));
    RatesWithin(probabilities, labels, bins);
    ValuesWithin(blocks, weights, rates, values, 0.0, 1.0);
  }

  lemma ValuesWithin(blocks: seq<Block>, w: seq<real>, y: seq<real>, v: seq<real>, least: real, most: real)
    requires |w| == |y| == |v| && Positive(w) && Tiles(blocks, w, y) && Carries(v, blocks)
    requires forall i :: 0 <= i < |y| ==> least <= y[i] <= most
    ensures forall i :: 0 <= i < |v| ==> least <= v[i] <= most
  {
    forall i | 0 <= i < |v|
      ensures least <= v[i] <= most
    {
      var j := BlockOf(blocks, |blocks|, w, y, i);
      PooledValueWithin(blocks[j], w, y, least, most);
    }
  }

  /** Every bin lies in some block. */
  lemma {:induction false} BlockOf(blocks: seq<Block>, n: nat, w: seq<real>, y: seq<real>, i: int) returns (j: int)
    requires |w| == |y| && Tiles(blocks, w, y) && 0 < n <= |blocks|
    requires 0 <= i <= blocks[n - 1].end
    ensures 0 <= j < |blocks| && blocks[j].start <= i <= blocks[j].end
    decreases n
  {
    assert Pooled(blocks[n - 1], w, y);
    if blocks[n - 1].start <= i {
      j := n - 1;
    } else {
      Adjacent(blocks, n - 2, w, y);
      j := BlockOf(blocks, n - 1, w, y, i);
    }
  }

  // ----- when the slack cannot matter

  /**
    Up to this size any two different block means differ by more than the slack, because each
    is a fraction whose denominator is the sample count times the block's weight.
   */
  predicate SlackNeverBinds(samples: nat, bins: nat) {
    var weight := (samples + 2 * bins) as real;
    DenominatorLimit(samples as real, weight, weight)
  }

  predicate DenominatorLimit(n: real, weightA: real, weightB: real) {
    n * (weightA * weightB) < 1_000_000_000_000_000.0
  }

  lemma {:induction false} LabelsInWhole(probabilities: seq<real>, labels: seq<real>, bins: int, bin: int, n: nat)
    requires n <= |probabilities| && ValidSamples(probabilities, labels)
    ensures Whole(LabelsIn(probabilities, labels, bins, bin, n))
  {
    if n > 0 {
      LabelsInWhole(probabilities, labels, bins, bin, n - 1);
      assert ValidSample(probabilities[n - 1], labels[n - 1]);
      WholeSum(LabelsIn(probabilities, labels, bins, bin, n - 1), labels[n - 1]);
    }
  }

  lemma LabelTotalWhole(labels: seq<real>)
    requires forall i :: 0 <= i < |labels| ==> labels[i] == 0.0 || labels[i] == 1.0
    ensures Whole(Total(labels))
  {
    SumOfWholes(labels, 0, |labels|);
  }

  /** A weight times a mean, scaled by the sample count n. */
  ghost function Mass(n: real, weight: real, mean: real): real {
    n * (weight * mean)
  }

  ghost function ScaledMasses(w: seq<real>, y: seq<real>, n: real): (m: seq<real>)
    requires |w| == |y|
    ensures |m| == |w|
  {
    seq(|w|, i requires 0 <= i < |w| => Mass(n, w[i], y[i]))
  }

  ghost function MassesOf(probabilities: seq<real>, labels: seq<real>, bins: nat): (m: seq<real>)
    requires |probabilities| == |labels| > 0
    ensures |m| == bins
  {
    ScaledMasses(BinWeights(probabilities, bins), BinRates(probabilities, labels, bins), |labels| as real)
  }

  lemma MassesWhole(probabilities: seq<real>, labels: seq<real>, bins: nat)
    requires |labels| > 0 && ValidSamples(probabilities, labels)
    ensures forall b :: 0 <= b < bins ==> Whole(BinWeights(probabilities, bins)[b])
    ensures forall b :: 0 <= b < bins ==>
      Whole(MassesOf(probabilities, labels, bins)[b])
  {
    hide Mass, Whole;
    var n, p := |labels|, Prevalence(labels);
    forall i | 0 <= i < n
      ensures labels[i] == 0.0 || labels[i] == 1.0
    {
      assert ValidSample(probabilities[i], labels[i]);
    }
    LabelTotalWhole(labels);
    QuotientTimes(Total(labels), n as real);
    forall b | 0 <= b < bins
      ensures Whole(BinWeights(probabilities, bins)[b])
      ensures Whole(MassesOf(probabilities, labels, bins)[b])
    {
      LabelsInWhole(probabilities, labels, bins, b, n);
      WholeInt(CountIn(probabilities, bins, b, n) + 2);
      var u := CountIn(probabilities, bins, b, n) as real + PSEUDO_OBSERVATIONS;
      MassWhole(LabelsIn(probabilities, labels, bins, b, n), u, BinRates(probabilities, labels, bins)[b], p, Total(labels), n);
    }
  }

  lemma MassWhole(labels: real, u: real, rate: real, p: real, positives: real, n: nat)
    requires Whole(labels) && Whole(positives) && p * n as real == positives
    requires u > 0.0 && rate == (labels + PSEUDO_OBSERVATIONS * p) / u
    ensures Whole(Mass(n as real, u, rate))
  {
    QuotientTimes(labels + PSEUDO_OBSERVATIONS * p, u);
    var m := n * labels.Floor + 2 * positives.Floor;
    MassValue(n as real, u, rate, labels, p);
    assert Mass(n as real, u, rate) == m as real;
  }

  lemma MassValue(n: real, u: real, rate: real, labels: real, p: real)
    requires rate * u == labels + PSEUDO_OBSERVATIONS * p
    ensures Mass(n, u, rate) == n * labels + PSEUDO_OBSERVATIONS * (p * n)
  {
  }

  /** A block's mean times its weight is its mass. */
  lemma BlockMass(b: Block, w: seq<real>, y: seq<real>, n: real)
    requires |w| == |y| && Pooled(b, w, y)
    ensures Mass(n, b.weight, b.value) == Sum(ScaledMasses(w, y, n), b.start, b.end + 1)
  {
    hide Residuals, Sum, ScaledMasses;
    var lo, hi := b.start, b.end + 1;
    var scaled := seq(|w|, i requires 0 <= i < |w| => n * Residuals(w, y, b.value)[i]);
    SumZeros(|w|, lo, hi);
    ScaledResiduals(w, y, b.value, n, scaled, lo, hi);
    SumLinear(scaled, n, Residuals(w, y, b.value), Zeros(|w|), lo, hi);
    SumLinear(scaled, -(n * b.value), w, ScaledMasses(w, y, n), lo, hi);
    assert Excess(w, y, b.value, lo, hi) == 0.0;
    MassAlgebra(Sum(scaled, lo, hi), n, b.value, Sum(w, lo, hi), Sum(ScaledMasses(w, y, n), lo, hi), Excess(w, y, b.value, lo, hi));
  }

  lemma MassAlgebra(s: real, n: real, v: real, w: real, m: real, e: real)
    requires e == 0.0 && s == n * e + 0.0 && s == -(n * v) * w + m
    ensures n * (w * v) == m
  {
  }

  lemma ScaledResiduals(w: seq<real>, y: seq<real>, v: real, n: real, scaled: seq<real>, lo: int, hi: int)
    requires 0 <= lo <= hi <= |w| == |y| == |scaled|
    requires forall i :: 0 <= i < |w| ==> scaled[i] == n * Residuals(w, y, v)[i]
    ensures Combines(scaled, n, Residuals(w, y, v), Zeros(|w|), lo, hi)
    ensures Combines(scaled, -(n * v), w, ScaledMasses(w, y, n), lo, hi)
  {
    forall i | lo <= i < hi
      ensures scaled[i] == -(n * v) * w[i] + ScaledMasses(w, y, n)[i]
    {
      ScaledResidual(n, w[i], y[i], v);
    }
  }

  lemma ScaledResidual(n: real, u: real, a: real, v: real)
    ensures n * (u * (a - v)) == -(n * v) * u + n * (u * a)
  {
  }

  /** Two means with whole weights and masses that differ at all differ by more than the slack. */
  lemma MeansApart(n: real, wa: real, va: real, wb: real, vb: real, mostA: real, mostB: real)
    requires Whole(wa) && Whole(wb) && Whole(Mass(n, wa, va)) && Whole(Mass(n, wb, vb))
    requires n > 0.0 && 0.0 < wa <= mostA && 0.0 < wb <= mostB
    requires DenominatorLimit(n, mostA, mostB)
    requires va <= vb + SLACK
    ensures va <= vb
  {
    hide Mass, Whole, DenominatorLimit;
    DenominatorBound(n, wa, wb, mostA, mostB);
    if va > vb {
      var d := n * (wa * wb);
      var gap := d * (va - vb);
      BelowLimit(d, n, mostA, mostB);
      SmallGap(d, va - vb, gap);
      GapIsWhole(n, wa, va, wb, vb, gap);
      WholeAtLeastOne(gap);
    }
  }

  lemma SmallGap(d: real, delta: real, gap: real)
    requires 0.0 < d < 1_000_000_000_000_000.0 && 0.0 < delta <= SLACK && gap == d * delta
    ensures 0.0 < gap < 1.0
  {
    MulPositive(d, delta);
    MulMonotone(d, delta, SLACK);
  }

  lemma WholeAtLeastOne(x: real)
    requires Whole(x) && x > 0.0
    ensures x >= 1.0
  {
  }

  lemma GapIsWhole(n: real, wa: real, va: real, wb: real, vb: real, gap: real)
    requires Whole(wa) && Whole(wb) && Whole(Mass(n, wa, va)) && Whole(Mass(n, wb, vb))
    requires gap == n * (wa * wb) * (va - vb)
    ensures Whole(gap)
  {
    hide Whole;
    WholeDifference(wb, Mass(n, wa, va), wa, Mass(n, wb, vb), gap);
  }

  lemma WholeDifference(a: real, x: real, b: real, y: real, d: real)
    requires Whole(a) && Whole(x) && Whole(b) && Whole(y) && d == a * x - b * y
    ensures Whole(d)
  {
    WholeProduct(a, x);
    WholeProduct(b, y);
    WholeSum(a * x, b * y);
  }

  lemma DenominatorBound(n: real, wa: real, wb: real, mostA: real, mostB: real)
    requires n > 0.0 && 0.0 < wa <= mostA && 0.0 < wb <= mostB
    ensures 0.0 < n * (wa * wb) <= n * (mostA * mostB)
  {
    MulPositive(n, wb);
    TripleProduct(n * wb, wa, mostA);
    MulPositive(n, mostA);
    TripleProduct(n * mostA, wb, mostB);
    Chain(n * wb * wa, n * wb * mostA, n * mostA * wb, n * mostA * mostB, n * (wa * wb), n * (mostA * mostB));
  }

  lemma Chain(a: real, b: real, c: real, d: real, e: real, f: real)
    requires 0.0 < a <= b && c <= d && e == a && b == c && d == f
    ensures 0.0 < e <= f
  {
  }

  lemma BelowLimit(d: real, n: real, a: real, b: real)
    requires d <= n * (a * b) && DenominatorLimit(n, a, b)
    ensures d < 1_000_000_000_000_000.0
  {
  }

  lemma TripleProduct(p: real, a: real, most: real)
    requires p > 0.0 && 0.0 < a <= most
    ensures 0.0 < p * a <= p * most
  {
    MulPositive(p, a);
    MulMonotone(p, a, most);
  }

  lemma TotalWeight(probabilities: seq<real>, labels: seq<real>, bins: nat)
    requires bins >= 1 && ValidSamples(probabilities, labels)
    ensures Total(BinWeights(probabilities, bins)) == (|labels| + 2 * bins) as real
  {
    var w, counts := BinWeights(probabilities, bins), CountColumn(probabilities, bins, |labels|);
    var pseudo := seq(bins, _ => PSEUDO_OBSERVATIONS);
    TalliesComplete(probabilities, labels, bins, |labels|);
    SumConstant(pseudo, PSEUDO_OBSERVATIONS, 0, bins);
    SumAdd(w, counts, pseudo, 0, bins);
  }

  lemma BlockWeightWithin(b: Block, w: seq<real>, y: seq<real>)
    requires |w| == |y| && Positive(w) && Pooled(b, w, y)
    ensures 0.0 < b.weight <= Total(w)
  {
    var lo, hi := b.start, b.end + 1;
    WeightsPositive(w, 0, lo);
    WeightsPositive(w, lo, hi);
    WeightsPositive(w, hi, |w|);
    SumSplit(w, 0, lo, |w|);
    SumSplit(w, lo, hi, |w|);
  }

  lemma BlockWhole(b: Block, probabilities: seq<real>, labels: seq<real>, bins: nat)
    requires |labels| > 0 && ValidSamples(probabilities, labels)
    requires Pooled(b, BinWeights(probabilities, bins), BinRates(probabilities, labels, bins))
    ensures Whole(b.weight) && Whole(Mass(|labels| as real, b.weight, b.value))
  {
    hide BinWeights, BinRates, ScaledMasses, Whole, Mass;
    var w, y, n := BinWeights(probabilities, bins), BinRates(probabilities, labels, bins), |labels| as real;
    MassesWhole(probabilities, labels, bins);
    BlockMass(b, w, y, n);
    SumOfWholes(w, b.start, b.end + 1);
    SumOfWholes(MassesOf(probabilities, labels, bins), b.start, b.end + 1);
  }

  /** Below the size limit the block means are exactly non-decreasing. */
  lemma ExactOrder(probabilities: seq<real>, labels: seq<real>, bins: nat, a: Block, b: Block)
    requires bins >= 2 && |labels| > 0 && ValidSamples(probabilities, labels) && SlackNeverBinds(|labels|, bins)
    requires Pooled(a, BinWeights(probabilities, bins), BinRates(probabilities, labels, bins))
    requires Pooled(b, BinWeights(probabilities, bins), BinRates(probabilities, labels, bins))
    requires a.value <= b.value + SLACK
    ensures a.value <= b.value
  {
    hide BinWeights, BinRates, Pooled, Whole, Total, Mass, DenominatorLimit;
    var w, y, n := BinWeights(probabilities, bins), BinRates(probabilities, labels, bins), |labels|;
    TotalWeight(probabilities, labels, bins);
    BlockWhole(a, probabilities, labels, bins);
    BlockWhole(b, probabilities, labels, bins);
    BlockWeightWithin(a, w, y);
    BlockWeightWithin(b, w, y);
    var most := (n + 2 * bins) as real;
    MeansApart(n as real, a.weight, a.value, b.weight, b.value, most, most);
  }

  lemma {:induction false} OrderedBlocks(blocks: seq<Block>, i: int, j: int)
    requires forall k :: 0 <= k && k + 1 < |blocks| ==> blocks[k].value <= blocks[k + 1].value
    requires 0 <= i <= j < |blocks|
    ensures blocks[i].value <= blocks[j].value
    decreases j - i
  {
    if i < j { OrderedBlocks(blocks, i, j - 1); }
  }

  lemma ExactlyMonotone(probabilities: seq<real>, labels: seq<real>, bins: nat, blocks: seq<Block>, values: seq<real>)
    requires bins >= 2 && |labels| > 0 && ValidSamples(probabilities, labels) && SlackNeverBinds(|labels|, bins)
    requires |values| == bins && Carries(values, blocks)
    requires Tiles(blocks, BinWeights(probabilities, bins), BinRates(probabilities, labels, bins))
    requires forall j :: 0 <= j && j + 1 < |blocks| ==> blocks[j].value <= blocks[j + 1].value + SLACK
    ensures NonDecreasing(values)
  {
    hide BinWeights, BinRates, Excess;
    var w, y := BinWeights(probabilities, bins), BinRates(probabilities, labels, bins);
    forall k | 0 <= k && k + 1 < |blocks|
      ensures blocks[k].value <= blocks[k + 1].value
    {
      ExactOrder(probabilities, labels, bins, blocks[k], blocks[k + 1]);
    }
    forall i, j | 0 <= i <= j < |values|
      ensures values[i] <= values[j]
    {
      var a := BlockOf(blocks, |blocks|, w, y, i);
      var b := BlockOf(blocks, |blocks|, w, y, j);
      if b < a {
        EndsBefore(blocks, a, w, y);
      } else {
        OrderedBlocks(blocks, a, b);
      }
    }
  }

  // ----- using the fit

  function Predict(c: ProbabilityCalibrator, probability: real): Result<real, CalibrationError> {
    if c.schemaVersion != CALIBRATION_VERSION || |c.boundaries| != |c.values| + 1 || |c.values| == 0 then
      Err(InvalidCalibrator)
    else
      var clipped := if probability < 0.0 then 0.0 else if probability > 1.0 then 1.0 else probability;
      BinInRange(clipped, |c.values|);
      Ok(c.values[BinOf(clipped, |c.values|)])
  }

  lemma {:induction false} SlackAccumulates(z: seq<real>, i: int, j: int)
    requires NearlyNonDecreasing(z) && 0 <= i <= j < |z|
    ensures z[i] <= z[j] + (j - i) as real * SLACK
    decreases j - i
  {
    if i < j { SlackAccumulates(z, i, j - 1); }
  }

  lemma BinMonotone(p: real, q: real, bins: int)
    requires p <= q && bins >= 1
    ensures BinOf(p, bins) <= BinOf(q, bins)
  {
    MulMonotone(bins as real, p, q);
  }

  /**
    Below the size limit the fit is the one non-decreasing vector of least weighted squared
    error, and prediction preserves order exactly.
   */
  lemma ExactFit(c: ProbabilityCalibrator, probabilities: seq<real>, labels: seq<real>, bins: nat, z: seq<real>, p: real, q: real)
    requires |probabilities| == |labels| > 0 && IsBestFit(c, probabilities, labels, bins) && NonDecreasing(c.values)
    requires |z| == bins && NonDecreasing(z) && p <= q
    ensures var w, y := BinWeights(probabilities, bins), BinRates(probabilities, labels, bins);
            Loss(w, y, z) <= Loss(w, y, c.values) ==> z == c.values
    ensures Predict(c, p).value <= Predict(c, q).value
  {
    hide BinWeights, BinRates, Loss, Excess, Projects;
    var w, y := BinWeights(probabilities, bins), BinRates(probabilities, labels, bins);
    if Loss(w, y, z) <= Loss(w, y, c.values) {
      ProjectionIsUnique(w, y, c.values, z);
    }
    var p' := if p < 0.0 then 0.0 else if p > 1.0 then 1.0 else p;
    var q' := if q < 0.0 then 0.0 else if q > 1.0 then 1.0 else q;
    BinInRange(p', bins);
    BinInRange(q', bins);
    BinMonotone(p', q', bins);
  }

  /**
    A fitted calibrator accepts every probability, answers with a probability, and preserves
    order up to the comparison slack of each bin boundary crossed.
   */
  lemma PredictIsMonotone(c: ProbabilityCalibrator, bins: int, p: real, q: real)
    requires Fitted(c, bins) && p <= q
    ensures Predict(c, p).Ok? && Predict(c, q).Ok?
    ensures 0.0 <= Predict(c, p).value <= 1.0
    ensures Predict(c, p).value <= Predict(c, q).value + (bins - 1) as real * SLACK
  {
    var p' := if p < 0.0 then 0.0 else if p > 1.0 then 1.0 else p;
    var q' := if q < 0.0 then 0.0 else if q > 1.0 then 1.0 else q;
    BinInRange(p', bins);
    BinInRange(q', bins);
    BinMonotone(p', q', bins);
    SlackAccumulates(c.values, BinOf(p', bins), BinOf(q', bins));
  }
}
