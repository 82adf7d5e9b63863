/**
  What the points of a global plan are (internal/parameterresearch/planning.go): the first ones are
  exactly the new baseline and axis ends, a Sobol coordinate names the cell of the window that holds it,
  and the parameters of a point are the fixed ones with every axis at its coordinate.
 */
module PlannedPoints {
  import opened RealMath
  import opened Counting
  import opened Grid
  import opened PlanningSpace
  import opened Planning
  import Sobol

  // ----- the baseline and the ends of the axes

  /** The baseline, or the baseline with one of the first n axes at an end of its window. */
  ghost predicate IsAnchor(space: ParameterSpace, base: seq<int>, n: nat, c: seq<int>)
    requires n <= |base| == |space.axes|
  {
    c == base || exists d :: 0 <= d < n && IsEnd(space, base, d, c)
  }

  ghost predicate IsEnd(space: ParameterSpace, base: seq<int>, d: nat, c: seq<int>)
    requires d < |base| == |space.axes|
  {
    |c| == |base| && (c[d] == space.axes[d].studyStart || c[d] == space.axes[d].studyEnd) && forall e :: 0 <= e < |c| && e != d ==> c[e] == base[e]
  }

  /** What appending does: a legal coordinate is seen afterwards, and nothing is forgotten. */
  ghost predicate Keeps(before: Progress, after: Progress) {
    before.points <= after.points && forall h :: Seen(before.seen, h) ==> Seen(after.seen, h)
  }

  lemma AppendedKeeps(planner: Planner, p: Progress, c: seq<int>, origin: Origin)
    ensures Keeps(p, Appended(planner, p, c, origin))
    ensures Legal(planner, c) ==> Seen(Appended(planner, p, c, origin).seen, planner.hash(c))
  {
    hide Legal, PointAt;
  }

  lemma EndsGrow(space: ParameterSpace, base: seq<int>, n: nat, c: seq<int>)
    requires n < |base| == |space.axes|
    ensures IsAnchor(space, base, n + 1, c)
       <==> IsAnchor(space, base, n, c) || c == base[n := space.axes[n].studyStart] || c == base[n := space.axes[n].studyEnd]
  {
    var low, high := base[n := space.axes[n].studyStart], base[n := space.axes[n].studyEnd];
    assert IsEnd(space, base, n, low) && IsEnd(space, base, n, high);
    if IsEnd(space, base, n, c) { assert c == low || c == high; }
  }

  lemma {:induction false} AnchorsSeen(planner: Planner, base: seq<int>, p: Progress, n: nat, c: seq<int>)
    requires n <= |base| == |planner.space.axes| && IsAnchor(planner.space, base, n, c) && Legal(planner, c)
    ensures Seen(Anchored(planner, base, p, n).seen, planner.hash(c))
  {
    hide Appended, Legal, IsAnchor, Seen;
    if n == 0 {
      OnlyBase(planner.space, base, c);
      AppendedKeeps(planner, p, base, Baseline);
    } else {
      var axis, before := planner.space.axes[n - 1], Anchored(planner, base, p, n - 1);
      var low := Appended(planner, before, base[n - 1 := axis.studyStart], AxisAnchor(axis.name, false));
      EndsGrow(planner.space, base, n - 1, c);
      if IsAnchor(planner.space, base, n - 1, c) { AnchorsSeen(planner, base, p, n - 1, c); }
      AppendedKeeps(planner, before, base[n - 1 := axis.studyStart], AxisAnchor(axis.name, false));
      AppendedKeeps(planner, low, base[n - 1 := axis.studyEnd], AxisAnchor(axis.name, true));
    }
  }

  lemma OnlyBase(space: ParameterSpace, base: seq<int>, c: seq<int>)
    requires |base| == |space.axes|
    ensures IsAnchor(space, base, 0, c) <==> c == base
  {
  }

  /** All points have anchor coordinates. */
  ghost predicate OnlyAnchors(space: ParameterSpace, base: seq<int>, n: nat, points: seq<PlannedPoint>)
    requires n <= |base| == |space.axes|
  {
    forall i :: 0 <= i < |points| ==> IsAnchor(space, base, n, points[i].coordinates)
  }

  lemma AppendedAnchor(planner: Planner, base: seq<int>, p: Progress, n: nat, c: seq<int>, origin: Origin)
    requires n <= |base| == |planner.space.axes| && OnlyAnchors(planner.space, base, n, p.points) && IsAnchor(planner.space, base, n, c)
    ensures OnlyAnchors(planner.space, base, n, Appended(planner, p, c, origin).points)
  {
    hide Legal, IsAnchor, ParametersAt;
  }

  lemma {:induction false} AnchoredOnly(planner: Planner, base: seq<int>, p: Progress, n: nat)
    requires n <= |base| == |planner.space.axes| && p.points == []
    ensures OnlyAnchors(planner.space, base, n, Anchored(planner, base, p, n).points)
  {
    hide Appended, IsAnchor;
    if n == 0 {
      OnlyBase(planner.space, base, base);
      AppendedAnchor(planner, base, p, 0, base, Baseline);
    } else {
      AnchoredOnly(planner, base, p, n - 1);
      var axis, before := planner.space.axes[n - 1], Anchored(planner, base, p, n - 1);
      var low, high := base[n - 1 := axis.studyStart], base[n - 1 := axis.studyEnd];
      forall c | IsAnchor(planner.space, base, n - 1, c) || c == low || c == high ensures IsAnchor(planner.space, base, n, c) {
        EndsGrow(planner.space, base, n - 1, c);
      }
      AppendedAnchor(planner, base, before, n, low, AxisAnchor(axis.name, false));
      AppendedAnchor(planner, base, Appended(planner, before, low, AxisAnchor(axis.name, false)), n, high, AxisAnchor(axis.name, true));
    }
  }

  lemma {:induction false} ListedKeeps(planner: Planner, p: Progress, list: seq<seq<int>>, n: nat)
    requires n <= |list|
    ensures Keeps(p, Listed(planner, p, list, n))
  {
    hide Appended;
    if n > 0 {
      ListedKeeps(planner, p, list, n - 1);
      AppendedKeeps(planner, Listed(planner, p, list, n - 1), list[n - 1], FullEnumeration);
    }
  }

  lemma {:induction false} SampledKeeps(planner: Planner, p: Progress, start: nat, n: nat)
    requires |planner.space.axes| <= Sobol.MAX_DIMENSIONS
    ensures Keeps(p, Sampled(planner, p, start, n))
  {
    hide Appended, SobolCoordinate;
    if n > 0 {
      SampledKeeps(planner, p, start, n - 1);
      AppendedKeeps(planner, Sampled(planner, p, start, n - 1), SobolCoordinate(planner.space, start + n - 1), SobolOrigin(start + n - 1));
    }
  }

  /** A plan begins with the points of its opening. */
  lemma PlanKeepsOpening(planner: Planner, base: seq<int>, requested: nat, start: nat, existing: map<string, bool>, includeAnchors: bool, plan: GlobalPlan)
    requires IsPlan(planner, base, requested, start, existing, includeAnchors, plan)
    ensures plan.baseAndAnchorCount == |Opening(planner, base, existing, includeAnchors).points| <= |plan.points|
    ensures plan.points[..plan.baseAndAnchorCount] == Opening(planner, base, existing, includeAnchors).points
  {
    hide Opening, Listed, Sampled, Enumerates, StopsAfter, ValidSpace, Product;
    var opening := Opening(planner, base, existing, includeAnchors);
    if plan.mode == FullEnumerationMode {
      var list :| Enumerates(planner.space, list) && Tallies(plan, Listed(planner, opening, list, |list|));
      ListedKeeps(planner, opening, list, |list|);
    } else if GoesOn(opening, opening, requested, plan.totalCombinations) {
      StopsIsSmall(planner, opening, start, requested, plan.totalCombinations, plan.nextSobolIndex - start);
      SampledKeeps(planner, opening, start, plan.nextSobolIndex - start);
    }
  }

  /**
    The first points of a plan with anchors are exactly the legal ones, not known before, among the
    baseline and the ends of every axis.
   */
  lemma AnchorsArePlanned(planner: Planner, base: seq<int>, requested: nat, start: nat, existing: map<string, bool>, plan: GlobalPlan, c: seq<int>)
    requires IsPlan(planner, base, requested, start, existing, true, plan) && InjectiveHash(planner.hash)
    ensures plan.baseAndAnchorCount <= |plan.points|
    ensures (exists i :: 0 <= i < plan.baseAndAnchorCount && plan.points[i].coordinates == c)
       <==> |base| == |planner.space.axes| && IsAnchor(planner.space, base, |base|, c) && Legal(planner, c) && !Seen(existing, planner.hash(c))
  {
    hide IsPlan, Anchored, IsAnchor, Legal, Seen, InjectiveHash, HasHash, Keeps;
    PlanHasBase(planner, base, requested, start, existing, true, plan);
    PlanKeepsOpening(planner, base, requested, start, existing, true, plan);
    OpeningIsSound(planner, base, existing, true);
    AnchoredOnly(planner, base, Start(existing), |base|);
    var opening := Anchored(planner, base, Start(existing), |base|);
    var points := opening.points;
    SoundPoints(planner, existing, opening);
    forall i | 0 <= i < |points| ensures plan.points[i] == points[i] {
      assert plan.points[i] == plan.points[..plan.baseAndAnchorCount][i];
    }
    if IsAnchor(planner.space, base, |base|, c) && Legal(planner, c) && !Seen(existing, planner.hash(c)) {
      AnchorsSeen(planner, base, Start(existing), |base|, c);
      HashIsAPoint(planner, existing, points, c);
    }
  }

  lemma PlanHasBase(planner: Planner, base: seq<int>, requested: nat, start: nat, existing: map<string, bool>, includeAnchors: bool, plan: GlobalPlan)
    requires IsPlan(planner, base, requested, start, existing, includeAnchors, plan)
    ensures |base| == |planner.space.axes|
  {
  }

  lemma SoundPoints(planner: Planner, existing: map<string, bool>, p: Progress)
    requires SoundProgress(planner, existing, p)
    ensures forall i :: 0 <= i < |p.points| ==> SoundPoint(planner, existing, p.points[i])
    ensures forall i :: 0 <= i < |p.points| ==> Legal(planner, p.points[i].coordinates) && !Seen(existing, planner.hash(p.points[i].coordinates))
    ensures forall h :: Seen(p.seen, h) <==> Seen(existing, h) || HasHash(p.points, h)
  {
    hide HasHash, CoordinateValid, ParametersAt;
    forall i | 0 <= i < |p.points|
      ensures Legal(planner, p.points[i].coordinates) && !Seen(existing, planner.hash(p.points[i].coordinates))
    {
      assert SoundPoint(planner, existing, p.points[i]);
    }
  }

  /**
    A plan from the first index enumerates the window exactly when as many points are wanted as the study can hold
    coordinates, excluded ones included.
   */
  lemma EnumeratesSmallWindows(planner: Planner, base: seq<int>, requested: nat, existing: map<string, bool>, includeAnchors: bool, plan: GlobalPlan,
                               regular: seq<seq<int>>)
    requires IsPlan(planner, base, requested, 0, existing, includeAnchors, plan) && Enumerates(planner.space, regular)
    requires requested < MAX_UINT64
    ensures plan.mode == FullEnumerationMode <==> |regular| + |ExcludedSet(planner.space)| <= requested
  {
    hide Opening, IsEnumerationPlan, IsSobolPlan, ValidSpace, Enumerates, ExcludedSet, Product;
    ProductCounts(planner.space, regular);
  }

  // ----- the sampled points and their counts

  /** The attempts whose coordinate may not be planned. */
  ghost function Refused(planner: Planner, start: nat, n: nat): set<nat>
    requires |planner.space.axes| <= Sobol.MAX_DIMENSIONS
  {
    set i: nat | i < n && MayNotBePlanned(planner, start, i)
  }

  ghost predicate MayNotBePlanned(planner: Planner, start: nat, i: nat)
    requires |planner.space.axes| <= Sobol.MAX_DIMENSIONS
  {
    !Legal(planner, SobolCoordinate(planner.space, start + i))
  }

  lemma OneMoreRefused(planner: Planner, start: nat, n: nat)
    requires |planner.space.axes| <= Sobol.MAX_DIMENSIONS
    ensures |Refused(planner, start, n + 1)| == |Refused(planner, start, n)| + if Legal(planner, SobolCoordinate(planner.space, start + n)) then 0 else 1
  {
    hide Legal, SobolCoordinate;
    var few := Refused(planner, start, n);
    assert Refused(planner, start, n + 1) == if MayNotBePlanned(planner, start, n) then few + {n} else few;
  }

  lemma AppendedCounts(planner: Planner, p: Progress, c: seq<int>, origin: Origin)
    ensures var q := Appended(planner, p, c, origin);
            && |q.points| + q.duplicates + q.rejected == |p.points| + p.duplicates + p.rejected + 1
            && q.rejected == p.rejected + if Legal(planner, c) then 0 else 1
  {
    hide Legal, PointAt;
  }

  /** Every attempt is a point, a duplicate or a rejection, and the rejections are the attempts that may not be planned. */
  lemma {:induction false} AttemptsAreCounted(planner: Planner, p: Progress, start: nat, n: nat)
    requires |planner.space.axes| <= Sobol.MAX_DIMENSIONS
    ensures var q := Sampled(planner, p, start, n);
            && |q.points| + q.duplicates + q.rejected == |p.points| + p.duplicates + p.rejected + n
            && q.rejected == p.rejected + |Refused(planner, start, n)|
  {
    hide Appended, SobolCoordinate, Legal, Refused;
    if n == 0 {
      NothingRefused(planner, start);
    } else {
      AttemptsAreCounted(planner, p, start, n - 1);
      OneMoreRefused(planner, start, n - 1);
      AppendedCounts(planner, Sampled(planner, p, start, n - 1), SobolCoordinate(planner.space, start + n - 1), SobolOrigin(start + n - 1));
      assert start + (n - 1) == start + n - 1;
    }
  }

  lemma NothingRefused(planner: Planner, start: nat)
    requires |planner.space.axes| <= Sobol.MAX_DIMENSIONS
    ensures Refused(planner, start, 0) == {}
  {
  }

  /** A sampled point names the index of the Sobol point it lies at. */
  ghost predicate FromSequence(planner: Planner, start: nat, n: nat, point: PlannedPoint)
    requires |planner.space.axes| <= Sobol.MAX_DIMENSIONS
  {
    && point.origin.SobolOrigin? && start <= point.origin.index < start + n
    && point.coordinates == SobolCoordinate(planner.space, point.origin.index)
  }

  /** The points behind the first few come from the sequence, with ascending indices. */
  ghost predicate InSequence(planner: Planner, start: nat, n: nat, few: nat, points: seq<PlannedPoint>)
    requires |planner.space.axes| <= Sobol.MAX_DIMENSIONS
  {
    && few <= |points| && (forall i :: few <= i < |points| ==> FromSequence(planner, start, n, points[i]))
    && forall i, j :: few <= i < j < |points| ==> points[i].origin.index < points[j].origin.index
  }

  lemma SequenceGrows(planner: Planner, start: nat, n: nat, few: nat, p: Progress)
    requires |planner.space.axes| <= Sobol.MAX_DIMENSIONS && InSequence(planner, start, n, few, p.points)
    ensures InSequence(planner, start, n + 1, few, Appended(planner, p, SobolCoordinate(planner.space, start + n), SobolOrigin(start + n)).points)
  {
    hide SobolCoordinate, Legal, ParametersAt;
  }

  /** Every sampled point lies at the Sobol point of the index it names, and the indices ascend. */
  lemma {:induction false} SampledFromSequence(planner: Planner, p: Progress, start: nat, n: nat)
    requires |planner.space.axes| <= Sobol.MAX_DIMENSIONS
    ensures InSequence(planner, start, n, |p.points|, Sampled(planner, p, start, n).points)
  {
    hide SobolCoordinate, Appended, FromSequence;
    if n > 0 {
      SampledFromSequence(planner, p, start, n - 1);
      hide InSequence;
      SequenceGrows(planner, start, n - 1, |p.points|, Sampled(planner, p, start, n - 1));
      assert start + (n - 1) == start + n - 1;
    }
  }

  // ----- the cells of the window

  /** The cell of an axis window that holds a number of the unit interval. */
  ghost predicate InCell(axis: Axis, x: real, v: int)
    requires Width(axis) >= 1
  {
    && axis.studyStart <= v <= axis.studyEnd
    && (v - axis.studyStart) as real <= x * Width(axis) as real < (v - axis.studyStart + 1) as real
  }

  /** A Sobol number maps to the one value whose cell, of as many equal ones as the window has values, holds it. */
  lemma MappedIsInCell(axis: Axis, x: real, v: int)
    requires Width(axis) >= 1 && 0.0 <= x < 1.0
    ensures MappedValue(axis, x) == v <==> InCell(axis, x, v)
  {
    BelowCount(x, Width(axis));
    MulNonNegative(x, Width(axis) as real);
  }

  // ----- parameters

  /** Every axis at its coordinate, and the fixed parameters otherwise. */
  lemma {:induction false} ParametersMean(space: ParameterSpace, c: seq<int>, n: nat)
    requires ValidSpace(space) && CoordinateValid(space, c) && n <= |c|
    ensures forall d :: 0 <= d < n ==> space.axes[d].name in ParametersAt(space, c, n)
                                       && ParametersAt(space, c, n)[space.axes[d].name] == space.axes[d].values[c[d]]
    ensures forall name :: (forall d :: 0 <= d < n ==> space.axes[d].name != name) ==>
              (name in ParametersAt(space, c, n) <==> name in space.fixedValues)
              && (name in space.fixedValues ==> ParametersAt(space, c, n)[name] == space.fixedValues[name])
  {
    if n > 0 { ParametersMean(space, c, n - 1); }
  }
}
