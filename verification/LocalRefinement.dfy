/**
  Local refinement around a coordinate (internal/parameterresearch/planning.go,
  PlanLocalRefinementLimited): the window clipped to a radius, enumerated, without known points.
 */
module LocalRefinement {
  import opened Wrappers
  import opened Counting
  import opened Grid
  import opened RealMath
  import opened PlanningSpace
  import opened Planning
  import Text

  // ----- the neighbourhood

  /** The radius reaches the window of an axis. */
  predicate Meets(axis: Axis, at: int, radius: int) {
    at - radius <= axis.studyEnd && axis.studyStart <= at + radius
  }

  /** The values of one axis that are enumerated: those within the radius, or all when it misses the window. */
  predicate Enumerated(axis: Axis, at: int, radius: int, v: int) {
    axis.studyStart <= v <= axis.studyEnd && (Meets(axis, at, radius) ==> at - radius <= v <= at + radius)
  }

  /** A refinement point: valid, enumerated in every axis and not known before. */
  ghost predicate Wanted(planner: Planner, center: seq<int>, radius: int, existing: map<string, bool>, c: seq<int>)
    requires |center| == |planner.space.axes|
  {
    && CoordinateValid(planner.space, c) && !Seen(existing, planner.hash(c))
    && forall d :: 0 <= d < |c| ==> Enumerated(planner.space.axes[d], center[d], radius, c[d])
  }

  /** Every refinement point, each once. */
  ghost predicate IsRefinement(planner: Planner, center: seq<int>, radius: int, existing: map<string, bool>, points: seq<seq<int>>)
    requires |center| == |planner.space.axes|
  {
    AllDistinct(points) && forall c :: c in points <==> Wanted(planner, center, radius, existing, c)
  }

  /** Within the radius of the centre in every axis. */
  ghost predicate Close(center: seq<int>, radius: int, c: seq<int>) {
    |c| == |center| && forall d :: 0 <= d < |c| ==> center[d] - radius <= c[d] <= center[d] + radius
  }

  /** How many values of an axis lie within the radius. */
  function RangeWidth(axis: Axis, at: int, radius: int): nat {
    var first, last := MaxInt(axis.studyStart, at - radius), MinInt(axis.studyEnd, at + radius);
    if last < first then 0 else last - first + 1
  }

  /** The candidates of the first n axes. */
  ghost function Candidates(space: ParameterSpace, center: seq<int>, radius: int, n: nat): nat
    requires n <= |space.axes| == |center|
  {
    if n == 0 then 1 else Candidates(space, center, radius, n - 1) * RangeWidth(space.axes[n - 1], center[n - 1], radius)
  }

  /** A limit that the candidates of the first n axes break. */
  ghost predicate BreaksLimit(space: ParameterSpace, center: seq<int>, radius: int, maximum: int, n: nat)
    requires n <= |space.axes| == |center|
  {
    maximum > 0 && ((exists d :: 0 <= d < n && RangeWidth(space.axes[d], center[d], radius) == 0) || Candidates(space, center, radius, n) > maximum)
  }

  // ----- ranges

  ghost predicate IsAxisRange(axis: Axis, at: int, radius: int, range: seq<int>) {
    && AllDistinct(range) && |range| == RangeWidth(axis, at, radius)
    && forall v :: v in range <==> axis.studyStart <= v <= axis.studyEnd && at - radius <= v <= at + radius
  }

  ghost predicate AreRanges(space: ParameterSpace, center: seq<int>, radius: int, ranges: seq<seq<int>>, n: nat)
    requires n <= |space.axes| == |center|
  {
    |ranges| == n && forall d :: 0 <= d < n ==> IsAxisRange(space.axes[d], center[d], radius, ranges[d])
  }

  method AxisRange(axis: Axis, at: int, radius: int) returns (range: seq<int>)
    ensures IsAxisRange(axis, at, radius, range)
  {
    var first, last := at - radius, at + radius;
    if first < axis.studyStart {
      first := axis.studyStart;
    }
    if last > axis.studyEnd {
      last := axis.studyEnd;
    }
    range := [];
    var value := first;
    while value <= last
      invariant first <= value && AllDistinct(range) && |range| == value - first
      invariant if first <= last then value <= last + 1 else value == first
      invariant forall v :: v in range <==> first <= v < value && v <= last
      decreases last - value
    {
      NewMember(range, value);
      range := range + [value];
      value := value + 1;
    }
    assert first == MaxInt(axis.studyStart, at - radius) && last == MinInt(axis.studyEnd, at + radius);
    assert |range| == RangeWidth(axis, at, radius);
  }

  lemma LimitBroken(candidates: nat, maximum: int, width: nat)
    requires maximum > 0 && width > 0
    ensures candidates > maximum / width <==> candidates * width > maximum
    ensures candidates * width >= candidates
  {
    QuotientBounds(maximum, width);
    IntMonotone(candidates, 1, width);
    if candidates > maximum / width {
      IntMonotone(width, maximum / width + 1, candidates);
    } else {
      IntMonotone(width, candidates, maximum / width);
    }
  }

  lemma LimitGrows(space: ParameterSpace, center: seq<int>, radius: int, maximum: int, n: nat)
    requires n < |space.axes| == |center|
    ensures var width := RangeWidth(space.axes[n], center[n], radius);
            BreaksLimit(space, center, radius, maximum, n + 1)
            <==> BreaksLimit(space, center, radius, maximum, n)
                 || (maximum > 0 && (width == 0 || Candidates(space, center, radius, n) > maximum / width))
  {
    hide RangeWidth;
    var width := RangeWidth(space.axes[n], center[n], radius);
    if maximum > 0 && width > 0 { LimitBroken(Candidates(space, center, radius, n), maximum, width); }
  }

  /** The ranges of all axes, or nothing when their candidates break the limit. */
  method Ranges(space: ParameterSpace, center: seq<int>, radius: int, maximum: int) returns (r: Option<seq<seq<int>>>)
    requires |center| == |space.axes|
    ensures r.None? <==> BreaksLimit(space, center, radius, maximum, |space.axes|)
    ensures r.Some? ==> AreRanges(space, center, radius, r.value, |space.axes|)
  {
    hide RangeWidth, BreaksLimit;
    var ranges, candidates: nat := [], 1;
    NothingBroken(space, center, radius, maximum);
    for d := 0 to |space.axes|
      invariant AreRanges(space, center, radius, ranges, d)
      invariant !BreaksLimit(space, center, radius, maximum, d)
      invariant candidates == Candidates(space, center, radius, d)
    {
      var range := AxisRange(space.axes[d], center[d], radius);
      LimitGrows(space, center, radius, maximum, d);
      if maximum > 0 && (|range| == 0 || candidates > maximum / |range|) {
        BrokenStays(space, center, radius, maximum, d + 1, |space.axes|);
        return None;
      }
      candidates := candidates * |range|;
      ranges := ranges + [range];
    }
    r := Some(ranges);
  }

  lemma NothingBroken(space: ParameterSpace, center: seq<int>, radius: int, maximum: int)
    requires |center| == |space.axes|
    ensures !BreaksLimit(space, center, radius, maximum, 0)
  {
  }

  lemma {:induction false} BrokenStays(space: ParameterSpace, center: seq<int>, radius: int, maximum: int, n: nat, m: nat)
    requires n <= m <= |space.axes| == |center| && BreaksLimit(space, center, radius, maximum, n)
    ensures BreaksLimit(space, center, radius, maximum, m)
    decreases m
  {
    hide BreaksLimit;
    if n < m {
      BrokenStays(space, center, radius, maximum, n, m - 1);
      LimitGrows(space, center, radius, maximum, m - 1);
    }
  }

  // ----- the refinement

  ghost function CoordinatesOf(points: seq<PlannedPoint>): (list: seq<seq<int>>)
    ensures |list| == |points|
  {
    seq(|points|, i requires 0 <= i < |points| => points[i].coordinates)
  }

  /** Planned points of the given coordinates, each described by its own coordinate and the refinement it comes from. */
  ghost predicate Describes(planner: Planner, origin: Origin, points: seq<PlannedPoint>) {
    forall i :: 0 <= i < |points| ==>
      CoordinateValid(planner.space, points[i].coordinates) && points[i] == PointAt(planner, points[i].coordinates, origin)
  }

  method PlanLocalRefinementLimited(planner: Planner, center: seq<int>, radius: int, existing: map<string, bool>, maximumPoints: int)
    returns (r: Result<seq<PlannedPoint>, PlanError>)
    ensures r.Err? <==> !ValidSpace(planner.space) || |center| != |planner.space.axes| || radius < 1
                        || BreaksLimit(planner.space, center, radius, maximumPoints, |center|)
    ensures r.Ok? ==> IsRefinement(planner, center, radius, existing, CoordinatesOf(r.value))
    ensures r.Ok? ==> Describes(planner, RefinementAround(center, radius), r.value)
  {
    hide AreRanges, BreaksLimit, CoordinateValid, InRanges, ValidSpace, Enumerated, IsRefinement;
    var valid := ValidateSpace(planner.space);
    if !valid || |center| != |planner.space.axes| || radius < 1 {
      return Err(InvalidPlan);
    }
    var ranges := Ranges(planner.space, center, radius, maximumPoints);
    if ranges.None? {
      return Err(InvalidPlan);
    }
    AxesExist(planner.space);
    RangesDistinct(planner.space, center, radius, ranges.value);
    var coordinates := EnumerateCoordinates(planner.space, ranges.value, 0);
    var points := DescribeNew(planner, RefinementAround(center, radius), existing, coordinates);
    NewAreWanted(planner, center, radius, existing, ranges.value, coordinates, CoordinatesOf(points));
    r := Ok(points);
  }

  /** The planned points of valid coordinates that are not known, in order. */
  method DescribeNew(planner: Planner, origin: Origin, existing: map<string, bool>, coordinates: seq<seq<int>>) returns (points: seq<PlannedPoint>)
    requires AllDistinct(coordinates) && forall c :: c in coordinates ==> CoordinateValid(planner.space, c)
    ensures Describes(planner, origin, points) && AllDistinct(CoordinatesOf(points))
    ensures forall c :: c in CoordinatesOf(points) <==> c in coordinates && !Seen(existing, planner.hash(c))
  {
    hide CoordinateValid, ParametersAt;
    points := [];
    for i := 0 to |coordinates|
      invariant Describes(planner, origin, points) && AllDistinct(CoordinatesOf(points))
      invariant forall c :: c in CoordinatesOf(points) <==> c in coordinates[..i] && !Seen(existing, planner.hash(c))
    {
      assert coordinates[..i + 1] == coordinates[..i] + [coordinates[i]];
      assert coordinates[i] in coordinates;
      var point := PointAt(planner, coordinates[i], origin);
      if Seen(existing, point.vectorHash) {
        continue;
      }
      assert coordinates[i] !in coordinates[..i];
      NewMember(CoordinatesOf(points), coordinates[i]);
      assert CoordinatesOf(points + [point]) == CoordinatesOf(points) + [coordinates[i]];
      points := points + [point];
    }
    assert coordinates[..|coordinates|] == coordinates;
  }

  lemma NewAreWanted(planner: Planner, center: seq<int>, radius: int, existing: map<string, bool>, ranges: seq<seq<int>>,
                     coordinates: seq<seq<int>>, list: seq<seq<int>>)
    requires ValidSpace(planner.space) && |center| == |planner.space.axes| && radius >= 1
    requires AreRanges(planner.space, center, radius, ranges, |center|)
    requires forall c :: c in coordinates <==> InRanges(planner.space, ranges, 0, c) && CoordinateValid(planner.space, c)
    requires AllDistinct(list) && forall c :: c in list <==> c in coordinates && !Seen(existing, planner.hash(c))
    ensures IsRefinement(planner, center, radius, existing, list)
  {
    hide AreRanges, CoordinateValid, InRanges, ValidSpace, Enumerated;
    forall c ensures c in list <==> Wanted(planner, center, radius, existing, c) {
      if CoordinateValid(planner.space, c) {
        ValidLength(planner.space, c);
        RangesEnumerate(planner.space, center, radius, ranges, c);
      }
    }
  }

  lemma ValidLength(space: ParameterSpace, c: seq<int>)
    requires CoordinateValid(space, c)
    ensures |c| == |space.axes|
  {
  }

  lemma RangesDistinct(space: ParameterSpace, center: seq<int>, radius: int, ranges: seq<seq<int>>)
    requires |center| == |space.axes| && AreRanges(space, center, radius, ranges, |space.axes|)
    ensures forall d :: 0 <= d < |ranges| ==> AllDistinct(ranges[d])
  {
    forall d | 0 <= d < |ranges| ensures AllDistinct(ranges[d]) {
      assert IsAxisRange(space.axes[d], center[d], radius, ranges[d]);
    }
  }

  lemma RangeOfAxis(space: ParameterSpace, center: seq<int>, radius: int, ranges: seq<seq<int>>, d: nat, v: int)
    requires ValidSpace(space) && |center| == |space.axes| && AreRanges(space, center, radius, ranges, |space.axes|)
    requires d < |center| && radius >= 1
    ensures InRange(space, ranges, d, v) <==> Enumerated(space.axes[d], center[d], radius, v)
  {
    var axis, at := space.axes[d], center[d];
    assert ValidAxis(axis);
    assert IsAxisRange(axis, at, radius, ranges[d]);
    hide IsAxisRange;
    EmptyWhenMissed(axis, at, radius, ranges[d]);
    RangeMember(axis, at, radius, ranges[d], v);
  }

  lemma RangeMember(axis: Axis, at: int, radius: int, range: seq<int>, v: int)
    requires IsAxisRange(axis, at, radius, range)
    ensures v in range <==> axis.studyStart <= v <= axis.studyEnd && at - radius <= v <= at + radius
  {
  }

  lemma EmptyWhenMissed(axis: Axis, at: int, radius: int, range: seq<int>)
    requires IsAxisRange(axis, at, radius, range) && axis.studyStart <= axis.studyEnd && radius >= 1
    ensures |range| > 0 <==> Meets(axis, at, radius)
  {
  }

  lemma RangesEnumerate(space: ParameterSpace, center: seq<int>, radius: int, ranges: seq<seq<int>>, c: seq<int>)
    requires ValidSpace(space) && |center| == |space.axes| == |c| && AreRanges(space, center, radius, ranges, |space.axes|) && radius >= 1
    ensures InRanges(space, ranges, 0, c) <==> forall d :: 0 <= d < |c| ==> Enumerated(space.axes[d], center[d], radius, c[d])
  {
    hide InRange, AreRanges, Enumerated, ValidSpace;
    forall d | 0 <= d < |c| ensures InRange(space, ranges, 0 + d, c[d]) <==> Enumerated(space.axes[d], center[d], radius, c[d]) {
      RangeOfAxis(space, center, radius, ranges, d, c[d]);
    }
  }

  // ----- how far it reaches

  /** The radius reaches the window in every axis. */
  ghost predicate MeetsWindow(space: ParameterSpace, center: seq<int>, radius: int)
    requires |center| == |space.axes|
  {
    forall d :: 0 <= d < |center| ==> Meets(space.axes[d], center[d], radius)
  }

  /** Under a limit a neighbourhood that misses the window is refused. */
  lemma LimitMeetsWindow(space: ParameterSpace, center: seq<int>, radius: int, maximum: int)
    requires |center| == |space.axes| && maximum > 0 && !BreaksLimit(space, center, radius, maximum, |center|)
    ensures MeetsWindow(space, center, radius)
  {
    forall d | 0 <= d < |center| ensures Meets(space.axes[d], center[d], radius) {
      assert RangeWidth(space.axes[d], center[d], radius) > 0;
    }
  }

  lemma MissedIsFar(planner: Planner, center: seq<int>, radius: int, existing: map<string, bool>, c: seq<int>)
    requires |center| == |planner.space.axes| && Wanted(planner, center, radius, existing, c)
    ensures Close(center, radius, c) <==> MeetsWindow(planner.space, center, radius)
  {
    forall d | 0 <= d < |center|
      ensures center[d] - radius <= c[d] <= center[d] + radius <==> Meets(planner.space.axes[d], center[d], radius)
    {
      assert Enumerated(planner.space.axes[d], center[d], radius, c[d]);
    }
  }

  function LowestEnumerated(axis: Axis, at: int, radius: int): int {
    if Meets(axis, at, radius) && at - radius > axis.studyStart then at - radius else axis.studyStart
  }

  /** Without exclusions and known points there is always something to refine. */
  lemma SomethingWanted(planner: Planner, center: seq<int>, radius: int, existing: map<string, bool>) returns (c: seq<int>)
    requires ValidSpace(planner.space) && |center| == |planner.space.axes| && radius >= 1
    requires planner.space.excluded == [] && forall h :: !Seen(existing, h)
    ensures Wanted(planner, center, radius, existing, c)
  {
    var space := planner.space;
    c := seq(|center|, d requires 0 <= d < |center| => LowestEnumerated(space.axes[d], center[d], radius));
    forall d | 0 <= d < |center|
      ensures Enumerated(space.axes[d], center[d], radius, c[d]) && 0 <= c[d] < |space.axes[d].values|
    {
      assert ValidAxis(space.axes[d]);
    }
  }

  /**
    A refinement stays within its radius exactly when the radius reaches the window in every axis, or
    nothing is found; under a limit it always does. An axis that the radius misses is enumerated as a
    whole, so without a limit, exclusions and known points, reaching the window is all that decides.
   */
  lemma RefinementStaysClose(planner: Planner, center: seq<int>, radius: int, existing: map<string, bool>, maximumPoints: int, points: seq<seq<int>>)
    requires ValidSpace(planner.space) && |center| == |planner.space.axes| && radius >= 1
    requires !BreaksLimit(planner.space, center, radius, maximumPoints, |center|)
    requires IsRefinement(planner, center, radius, existing, points)
    ensures (forall c :: c in points ==> Close(center, radius, c)) <==> points == [] || MeetsWindow(planner.space, center, radius)
    ensures maximumPoints > 0 ==> forall c :: c in points ==> Close(center, radius, c)
    ensures planner.space.excluded == [] && (forall h :: !Seen(existing, h)) ==>
              ((forall c :: c in points ==> Close(center, radius, c)) <==> MeetsWindow(planner.space, center, radius))
  {
    hide ValidSpace, BreaksLimit, Wanted, Close, MeetsWindow, Seen;
    forall c | c in points ensures Close(center, radius, c) <==> MeetsWindow(planner.space, center, radius) {
      MissedIsFar(planner, center, radius, existing, c);
    }
    if points != [] { assert points[0] in points; }
    if maximumPoints > 0 { LimitMeetsWindow(planner.space, center, radius, maximumPoints); }
    if planner.space.excluded == [] && forall h :: !Seen(existing, h) {
      var c := SomethingWanted(planner, center, radius, existing);
      assert c in points;
    }
  }

  /**
    A window of the one value zero, refined around five by one: without a limit zero is returned,
    unless it is known, and then nothing is; with a limit the request is refused.
   */
  lemma FarRefinement(planner: Planner, existing: map<string, bool>, points: seq<seq<int>>)
    requires planner.space == ParameterSpace("1", [Axis("x", IntParameter, [0.0], 0.0, 0.0, 1.0, 0, 0)], map[], [])
    requires IsRefinement(planner, [5], 1, existing, points)
    ensures ValidSpace(planner.space) && !BreaksLimit(planner.space, [5], 1, 0, 1) && BreaksLimit(planner.space, [5], 1, 1, 1)
    ensures !Close([5], 1, [0]) && !MeetsWindow(planner.space, [5], 1)
    ensures points == if Seen(existing, planner.hash([0])) then [] else [[0]]
  {
    hide Text.Blank;
    NotBlank();
    var axis := planner.space.axes[0];
    assert ValidValue(axis, 0.0);
    assert RangeWidth(axis, 5, 1) == 0;
    forall c ensures Wanted(planner, [5], 1, existing, c) <==> c == [0] && !Seen(existing, planner.hash([0])) {
      if Wanted(planner, [5], 1, existing, c) { assert c == [c[0]]; }
    }
    assert [0] in points <==> !Seen(existing, planner.hash([0]));
    OnlyMember(points, [0]);
  }

  lemma OnlyMember<T>(s: seq<T>, x: T)
    requires AllDistinct(s) && forall y :: y in s ==> y == x
    ensures s == if x in s then [x] else []
  {
    forall y | y in Members(s, |s|) ensures y in {x} {
      MembersAre(s, y);
    }
    MembersCount(s, |s|);
    SubsetCount(Members(s, |s|), {x});
    assert |s| == 1 ==> s == [s[0]] && s[0] in s;
  }
}
