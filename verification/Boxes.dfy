/**
  The guaranteed box around a point (internal/robustness/analysis.go, guaranteedBox): the largest
  radius at which the whole clipped box has been observed and qualified.
 */
module Boxes {
  import opened Counting
  import opened Grid
  import opened Regions

  datatype Reason = UnknownGap | ResearchLower(axis: string) | ResearchUpper(axis: string)

  predicate ObservedAt(all: map<string, EvaluationPoint>, c: seq<int>) {
    CoordinateKey(c) in all && all[CoordinateKey(c)].state != Unknown && all[CoordinateKey(c)].hasMetrics
  }

  predicate QualifiedAt(all: map<string, EvaluationPoint>, c: seq<int>) {
    ObservedAt(all, c) && all[CoordinateKey(c)].state == Qualified
  }

  /** A coordinate within a Chebyshev radius of the centre, in the window and not excluded. */
  ghost predicate Within(space: ParameterSpace, center: seq<int>, radius: int, c: seq<int>)
    requires |center| == |space.axes|
  {
    InBox(space, center, radius, |space.axes|, c) && !Excluded(space, c)
  }

  /** That is the Chebyshev distance: no coordinate is farther away than the radius. */
  lemma WithinMeans(space: ParameterSpace, center: seq<int>, radius: int, c: seq<int>)
    requires |center| == |space.axes|
    ensures Within(space, center, radius, c)
       <==> Regular(space, c) && forall d :: 0 <= d < |c| ==> -radius <= c[d] - center[d] <= radius
  {
    hide Excluded;
  }

  ghost predicate GoodBox(space: ParameterSpace, all: map<string, EvaluationPoint>, center: seq<int>, radius: int)
    requires |center| == |space.axes|
  {
    forall c :: Within(space, center, radius, c) ==> QualifiedAt(all, c)
  }

  /** A box is good exactly when every coordinate of it is that of a filed point that is qualified and has metrics. */
  lemma GoodBoxMeans(space: ParameterSpace, all: map<string, EvaluationPoint>, center: seq<int>, radius: int)
    requires |center| == |space.axes| && Regions.Filed(space, all)
    ensures GoodBox(space, all, center, radius)
       <==> forall c :: Within(space, center, radius, c) ==> exists k :: k in all && all[k].coordinates == c && all[k].state == Qualified && all[k].hasMetrics
  {
    hide Within, CoordinateKey;
    forall c ensures QualifiedAt(all, c) <==> exists k :: k in all && all[k].coordinates == c && all[k].state == Qualified && all[k].hasMetrics {
      if QualifiedAt(all, c) { KeyInjective(c, all[CoordinateKey(c)].coordinates); }
    }
  }

  /** An observed coordinate of the box fails. */
  ghost predicate HasFailure(space: ParameterSpace, all: map<string, EvaluationPoint>, center: seq<int>, radius: int)
    requires |center| == |space.axes|
  {
    exists c :: Within(space, center, radius, c) && ObservedAt(all, c) && !QualifiedAt(all, c)
  }

  ghost predicate HasGap(space: ParameterSpace, all: map<string, EvaluationPoint>, center: seq<int>, radius: int)
    requires |center| == |space.axes|
  {
    exists c :: Within(space, center, radius, c) && !ObservedAt(all, c)
  }

  /** The box touches an end of the study window that is not a legal bound. */
  predicate ClippedLow(axis: Axis, at: int, radius: int)
    requires 0 <= axis.studyStart < |axis.values|
  {
    at - radius <= axis.studyStart && axis.values[axis.studyStart] > axis.legalMin + SLACK
  }

  predicate ClippedHigh(axis: Axis, at: int, radius: int)
    requires 0 <= axis.studyEnd < |axis.values|
  {
    at + radius >= axis.studyEnd && axis.values[axis.studyEnd] < axis.legalMax - SLACK
  }

  /** A reason to stop: an end of the window that the box touches and that is not a legal bound. */
  ghost predicate IsEnd(space: ParameterSpace, center: seq<int>, radius: int, n: nat, reason: Reason)
    requires ValidSpace(space) && n <= |center| == |space.axes|
  {
    exists d :: 0 <= d < n && ((reason == ResearchLower(space.axes[d].name) && ClippedLow(space.axes[d], center[d], radius))
                               || (reason == ResearchUpper(space.axes[d].name) && ClippedHigh(space.axes[d], center[d], radius)))
  }

  ghost predicate Clipped(space: ParameterSpace, center: seq<int>, radius: int)
    requires ValidSpace(space) && |center| == |space.axes|
  {
    exists reason :: IsEnd(space, center, radius, |center|, reason)
  }

  /** The distance from a coordinate to the farther end of its axis window. */
  function Reach(axis: Axis, at: int): int {
    MaxInt(at - axis.studyStart, axis.studyEnd - at)
  }

  ghost predicate IsMaxRadius(space: ParameterSpace, center: seq<int>, maxRadius: int)
    requires |center| == |space.axes|
  {
    && maxRadius >= 0 && (forall d :: 0 <= d < |center| ==> Reach(space.axes[d], center[d]) <= maxRadius)
    && (maxRadius > 0 ==> exists d :: 0 <= d < |center| && Reach(space.axes[d], center[d]) == maxRadius)
  }

  method MaxRadius(space: ParameterSpace, center: seq<int>) returns (maxRadius: int)
    requires |center| == |space.axes|
    ensures IsMaxRadius(space, center, maxRadius)
  {
    maxRadius := 0;
    for d := 0 to |space.axes|
      invariant maxRadius >= 0 && forall e :: 0 <= e < d ==> Reach(space.axes[e], center[e]) <= maxRadius
      invariant maxRadius > 0 ==> exists e :: 0 <= e < d && Reach(space.axes[e], center[e]) == maxRadius
    {
      var distance := Reach(space.axes[d], center[d]);
      if distance > maxRadius {
        maxRadius := distance;
      }
    }
  }

  datatype Verdict = Good | Failure | Gap

  /** Looks through a box up to the first coordinate that is missing or fails. */
  method Inspect(space: ParameterSpace, all: map<string, EvaluationPoint>, center: seq<int>, radius: int) returns (verdict: Verdict)
    requires |center| == |space.axes|
    ensures verdict == Good <==> GoodBox(space, all, center, radius)
    ensures verdict == Failure ==> HasFailure(space, all, center, radius)
    ensures verdict == Gap ==> HasGap(space, all, center, radius)
  {
    hide InBox, Excluded, CoordinateKey;
    var box := BoxCoordinates(space, center, radius);
    for i := 0 to |box|
      invariant forall j :: 0 <= j < i ==> QualifiedAt(all, box[j])
    {
      var key := CoordinateKey(box[i]);
      assert box[i] in box;
      assert Within(space, center, radius, box[i]);
      if key !in all || all[key].state == Unknown || !all[key].hasMetrics {
        return Gap;
      }
      if all[key].state != Qualified {
        return Failure;
      }
    }
    verdict := Good;
  }

  lemma EndsGrow(space: ParameterSpace, center: seq<int>, radius: int, n: nat, reason: Reason)
    requires ValidSpace(space) && n < |center| == |space.axes|
    ensures IsEnd(space, center, radius, n + 1, reason)
       <==> IsEnd(space, center, radius, n, reason)
            || (reason == ResearchLower(space.axes[n].name) && ClippedLow(space.axes[n], center[n], radius))
            || (reason == ResearchUpper(space.axes[n].name) && ClippedHigh(space.axes[n], center[n], radius))
  {
    hide ClippedLow, ClippedHigh;
  }

  /** Which ends of the window a box touches without their being legal bounds. */
  method Clips(space: ParameterSpace, center: seq<int>, radius: int) returns (clipped: bool, reasons: set<Reason>)
    requires ValidSpace(space) && |center| == |space.axes|
    ensures clipped <==> Clipped(space, center, radius)
    ensures forall reason :: reason in reasons <==> IsEnd(space, center, radius, |center|, reason)
  {
    clipped, reasons := false, {};
    hide ClippedLow, ClippedHigh;
    for d := 0 to |space.axes|
      invariant forall reason :: reason in reasons <==> IsEnd(space, center, radius, d, reason)
      invariant clipped <==> reasons != {}
    {
      hide IsEnd;
      var axis := space.axes[d];
      assert ValidAxis(axis);
      forall reason ensures IsEnd(space, center, radius, d + 1, reason)
        <==> IsEnd(space, center, radius, d, reason)
             || (reason == ResearchLower(axis.name) && ClippedLow(axis, center[d], radius))
             || (reason == ResearchUpper(axis.name) && ClippedHigh(axis, center[d], radius)) {
        EndsGrow(space, center, radius, d, reason);
      }
      if ClippedLow(axis, center[d], radius) {
        clipped := true;
        reasons := reasons + {ResearchLower(axis.name)};
      }
      if ClippedHigh(axis, center[d], radius) {
        clipped := true;
        reasons := reasons + {ResearchUpper(axis.name)};
      }
    }
  }

  /** Running out of window is no reason of its own. */
  lemma NoGapAmongEnds(space: ParameterSpace, center: seq<int>, radius: int)
    requires ValidSpace(space) && |center| == |space.axes|
    ensures !IsEnd(space, center, radius, |center|, UnknownGap)
  {
  }

  lemma ClippedMeansEnds(space: ParameterSpace, center: seq<int>, radius: int, ends: set<Reason>)
    requires ValidSpace(space) && |center| == |space.axes|
    requires forall reason :: reason in ends <==> IsEnd(space, center, radius, |center|, reason)
    ensures Clipped(space, center, radius) <==> ends != {}
  {
  }

  /**
    The guaranteed radius. Every box up to it is observed and qualified; an exact radius is followed
    by a box with an observed failure and has no reasons, and an inexact one by a gap, or it is where
    the window stops the search; then the reasons are exactly the ends that the box touches.
   */
  method GuaranteedBox(space: ParameterSpace, all: map<string, EvaluationPoint>, center: seq<int>)
    returns (lastGood: int, exact: bool, reasons: set<Reason>)
    requires ValidSpace(space) && |center| == |space.axes|
    ensures lastGood >= 0 && forall radius :: 1 <= radius <= lastGood ==> GoodBox(space, all, center, radius)
    ensures exact ==> reasons == {} && HasFailure(space, all, center, lastGood + 1)
    ensures !exact && UnknownGap in reasons ==> reasons == {UnknownGap} && HasGap(space, all, center, lastGood + 1)
    ensures !exact && UnknownGap !in reasons ==> forall reason :: reason in reasons <==> IsEnd(space, center, lastGood, |center|, reason)
    ensures !exact && UnknownGap !in reasons ==>
              lastGood >= 1 && (Clipped(space, center, lastGood) || forall d :: 0 <= d < |center| ==> Reach(space.axes[d], center[d]) < lastGood)
    ensures forall radius :: 1 <= radius < lastGood ==> !Clipped(space, center, radius)
  {
    hide GoodBox, HasFailure, HasGap, Clipped, IsEnd, ValidSpace;
    var maxRadius := MaxRadius(space, center);
    reasons, lastGood := {}, 0;
    var radius := 1;
    while radius <= maxRadius + 1
      invariant 1 <= radius <= maxRadius + 1 && lastGood == radius - 1
      invariant forall k :: 1 <= k <= lastGood ==> GoodBox(space, all, center, k) && !Clipped(space, center, k)
      invariant reasons == {}
      decreases maxRadius + 1 - radius
    {
      var verdict := Inspect(space, all, center, radius);
      if verdict == Failure {
        return lastGood, true, reasons;
      }
      if verdict == Gap {
        return lastGood, false, reasons + {UnknownGap};
      }
      lastGood := radius;
      var clipped, ends := Clips(space, center, radius);
      reasons := reasons + ends;
      NoGapAmongEnds(space, center, radius);
      ClippedMeansEnds(space, center, radius, ends);
      if clipped || radius > maxRadius {
        return lastGood, false, reasons;
      }
      radius := radius + 1;
    }
    assert false;
    return lastGood, true, reasons;
  }
}
