/**
  What a fitted calibrator says about its samples (internal/dynamicparam/calibration.go), in terms of
  the boundaries it carries: the weights and rates behind its values are tallies of the samples that
  lie between two boundaries, and predicting looks up the bin that holds the probability.
 */
module Reliability {
  import opened Wrappers
  import opened RealMath
  import opened Sums
  import opened Isotonic
  import opened Calibration

  /** The bin between two boundaries holds a probability; only the last one includes its right end. */
  ghost predicate Holds(boundaries: seq<real>, b: int, p: real) {
    && 0 <= b && b + 1 < |boundaries| && boundaries[b] <= p
    && if b + 2 == |boundaries| then p <= boundaries[b + 1] else p < boundaries[b + 1]
  }

  /** The samples that a bin holds. */
  ghost function SamplesIn(boundaries: seq<real>, b: int, probabilities: seq<real>, n: nat): set<int>
    requires n <= |probabilities|
  {
    set i | 0 <= i < n && Holds(boundaries, b, probabilities[i])
  }

  /** The positive samples that a bin holds. */
  ghost function PositivesIn(boundaries: seq<real>, b: int, probabilities: seq<real>, labels: seq<real>, n: nat): set<int>
    requires n <= |probabilities| == |labels|
  {
    set i | 0 <= i < n && Holds(boundaries, b, probabilities[i]) && labels[i] == 1.0
  }

  ghost function Positives(labels: seq<real>, n: nat): set<int>
    requires n <= |labels|
  {
    set i | 0 <= i < n && labels[i] == 1.0
  }

  /** The weight of each bin: the samples it holds, and two more. */
  ghost function HeldWeights(boundaries: seq<real>, probabilities: seq<real>, bins: nat): (w: seq<real>)
    ensures |w| == bins
  {
    seq(bins, b requires 0 <= b < bins => |SamplesIn(boundaries, b, probabilities, |probabilities|)| as real + 2.0)
  }

  /** The rate of each bin: its share of positive samples, with two more at the share of all samples. */
  ghost function HeldRates(boundaries: seq<real>, probabilities: seq<real>, labels: seq<real>, bins: nat): (y: seq<real>)
    requires |probabilities| == |labels| > 0
    ensures |y| == bins
  {
    var n := |labels|;
    seq(bins, b requires 0 <= b < bins =>
      (|PositivesIn(boundaries, b, probabilities, labels, n)| as real + 2.0 * (|Positives(labels, n)| as real / n as real))
      / (|SamplesIn(boundaries, b, probabilities, n)| as real + 2.0))
  }

  // ----- a bin is the interval between its boundaries

  lemma Between(p: real, bins: int, b: int)
    requires bins >= 1
    ensures b as real / bins as real <= p <==> b as real <= p * bins as real
  {
    var q, n := b as real / bins as real, bins as real;
    QuotientTimes(b as real, n);
    if q <= p { MulMonotone(n, q, p); } else { MulStrict(n, p, q); }
  }

  /** The bin of a probability is the only one that holds it. */
  lemma BinHolds(boundaries: seq<real>, bins: nat, b: int, p: real)
    requires bins >= 2 && EvenlySpaced(boundaries, bins) && 0.0 <= p <= 1.0
    ensures Holds(boundaries, b, p) <==> b == BinOf(p, bins)
  {
    BinInRange(p, bins);
    MulMonotone(bins as real, p, 1.0);
    if 0 <= b < bins {
      Between(p, bins, b);
      Between(p, bins, b + 1);
      LastBoundary(bins);
    }
  }

  lemma LastBoundary(bins: int)
    requires bins >= 1
    ensures bins as real / bins as real == 1.0
  {
  }

  // ----- tallies

  lemma {:induction false} CountIsHeld(boundaries: seq<real>, bins: nat, b: int, probabilities: seq<real>, labels: seq<real>, n: nat)
    requires bins >= 2 && EvenlySpaced(boundaries, bins) && ValidSamples(probabilities, labels) && n <= |probabilities|
    ensures CountIn(probabilities, bins, b, n) == |SamplesIn(boundaries, b, probabilities, n)|
    ensures LabelsIn(probabilities, labels, bins, b, n) == |PositivesIn(boundaries, b, probabilities, labels, n)| as real
  {
    hide EvenlySpaced, Holds, BinOf;
    if n > 0 {
      CountIsHeld(boundaries, bins, b, probabilities, labels, n - 1);
      assert ValidSample(probabilities[n - 1], labels[n - 1]);
      BinHolds(boundaries, bins, b, probabilities[n - 1]);
      OneMoreSample(boundaries, b, probabilities, n - 1);
      OneMorePositiveIn(boundaries, b, probabilities, labels, n - 1);
    }
  }

  lemma OneMoreSample(boundaries: seq<real>, b: int, probabilities: seq<real>, n: nat)
    requires n < |probabilities|
    ensures |SamplesIn(boundaries, b, probabilities, n + 1)|
         == |SamplesIn(boundaries, b, probabilities, n)| + if Holds(boundaries, b, probabilities[n]) then 1 else 0
  {
    hide Holds;
    var held := SamplesIn(boundaries, b, probabilities, n);
    assert SamplesIn(boundaries, b, probabilities, n + 1) == if Holds(boundaries, b, probabilities[n]) then held + {n} else held;
  }

  lemma OneMorePositiveIn(boundaries: seq<real>, b: int, probabilities: seq<real>, labels: seq<real>, n: nat)
    requires n < |probabilities| == |labels|
    ensures |PositivesIn(boundaries, b, probabilities, labels, n + 1)|
         == |PositivesIn(boundaries, b, probabilities, labels, n)| + if Holds(boundaries, b, probabilities[n]) && labels[n] == 1.0 then 1 else 0
  {
    hide Holds;
    var held := PositivesIn(boundaries, b, probabilities, labels, n);
    var grows := Holds(boundaries, b, probabilities[n]) && labels[n] == 1.0;
    assert PositivesIn(boundaries, b, probabilities, labels, n + 1) == if grows then held + {n} else held;
  }

  lemma OneMorePositive(labels: seq<real>, n: nat)
    requires n < |labels|
    ensures |Positives(labels, n + 1)| == |Positives(labels, n)| + if labels[n] == 1.0 then 1 else 0
  {
    assert Positives(labels, n + 1) == if labels[n] == 1.0 then Positives(labels, n) + {n} else Positives(labels, n);
  }

  lemma {:induction false} LabelsArePositives(probabilities: seq<real>, labels: seq<real>, n: nat)
    requires ValidSamples(probabilities, labels) && n <= |labels|
    ensures Sum(labels, 0, n) == |Positives(labels, n)| as real
  {
    if n > 0 {
      LabelsArePositives(probabilities, labels, n - 1);
      assert ValidSample(probabilities[n - 1], labels[n - 1]);
      OneMorePositive(labels, n - 1);
    }
  }

  lemma TalliesAreHeld(boundaries: seq<real>, probabilities: seq<real>, labels: seq<real>, bins: nat)
    requires bins >= 2 && EvenlySpaced(boundaries, bins) && |labels| > 0 && ValidSamples(probabilities, labels)
    ensures BinWeights(probabilities, bins) == HeldWeights(boundaries, probabilities, bins)
    ensures BinRates(probabilities, labels, bins) == HeldRates(boundaries, probabilities, labels, bins)
  {
    hide CountIn, LabelsIn, SamplesIn, PositivesIn, EvenlySpaced;
    var n := |labels|;
    LabelsArePositives(probabilities, labels, n);
    forall b | 0 <= b < bins
      ensures CountIn(probabilities, bins, b, n) == |SamplesIn(boundaries, b, probabilities, n)|
      ensures LabelsIn(probabilities, labels, bins, b, n) == |PositivesIn(boundaries, b, probabilities, labels, n)| as real
    {
      CountIsHeld(boundaries, bins, b, probabilities, labels, n);
    }
  }

  // ----- fit and prediction in terms of the boundaries

  /**
    The fitted values are the weighted projection onto the monotone maps of the rates between the
    boundaries: every monotone map pays at least their loss and its distance to them.
   */
  lemma FitsBetweenBoundaries(c: ProbabilityCalibrator, probabilities: seq<real>, labels: seq<real>, bins: nat)
    requires |labels| > 0 && ValidSamples(probabilities, labels) && IsBestFit(c, probabilities, labels, bins)
    ensures Projects(HeldWeights(c.boundaries, probabilities, bins), HeldRates(c.boundaries, probabilities, labels, bins), c.values)
  {
    hide EvenlySpaced, BinWeights, BinRates, HeldWeights, HeldRates, Projects, Excess, ValidSamples;
    TalliesAreHeld(c.boundaries, probabilities, labels, bins);
  }

  function Clipped(p: real): real {
    if p < 0.0 then 0.0 else if p > 1.0 then 1.0 else p
  }

  /** A prediction is the value of exactly the bin whose boundaries hold the probability. */
  lemma PredictsHeldBin(c: ProbabilityCalibrator, bins: nat, p: real) returns (b: nat)
    requires Fitted(c, bins)
    ensures b < bins && Predict(c, p) == Ok(c.values[b])
    ensures forall a :: Holds(c.boundaries, a, Clipped(p)) <==> a == b
  {
    hide Holds;
    BinInRange(Clipped(p), bins);
    b := BinOf(Clipped(p), bins);
    forall a ensures Holds(c.boundaries, a, Clipped(p)) <==> a == b {
      BinHolds(c.boundaries, bins, a, Clipped(p));
    }
  }
}
