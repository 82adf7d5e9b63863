/**
  Global parameter plans (internal/parameterresearch/planning.go): a baseline with axis anchors, then
  Sobol points or the full enumeration of the study window. The hash of a coordinate and the
  strategy's own validator are parameters of the model.
 */
module Planning {
  import opened Wrappers
  import opened Counting
  import opened Grid
  import opened PlanningSpace
  import opened Bits
  import RealMath
  import Sobol

  datatype Origin = Baseline | AxisAnchor(axis: string, maximum: bool) | SobolOrigin(index: nat) | FullEnumeration | RefinementAround(center: seq<int>, radius: int)

  datatype PlannedPoint = PlannedPoint(coordinates: seq<int>, parameters: map<string, real>, vectorHash: string, origin: Origin)

  datatype PlanMode = SobolMode | FullEnumerationMode

  datatype GlobalPlan = GlobalPlan(mode: PlanMode, requestedSobol: nat, baseAndAnchorCount: nat, uniquePointCount: nat, duplicateCount: nat,
                                   rejectedCount: nat, totalCombinations: nat, sobolStartIndex: nat, sobolEndIndex: int, nextSobolIndex: nat,
                                   points: seq<PlannedPoint>)

  /** The space with the hash of a coordinate and the validator of its parameters. */
  datatype Planner = Planner(space: ParameterSpace, hash: seq<int> -> string, accepts: map<string, real> -> bool)

  // ----- planned points

  /** The fixed parameters with the values of the first n axes at a coordinate. */
  function ParametersAt(space: ParameterSpace, c: seq<int>, n: nat): map<string, real>
    requires CoordinateValid(space, c) && n <= |c|
  {
    if n == 0 then space.fixedValues else ParametersAt(space, c, n - 1)[space.axes[n - 1].name := space.axes[n - 1].values[c[n - 1]]]
  }

  /** A valid coordinate whose parameters the strategy accepts. */
  predicate Legal(planner: Planner, c: seq<int>) {
    CoordinateValid(planner.space, c) && planner.accepts(ParametersAt(planner.space, c, |c|))
  }

  function PointAt(planner: Planner, c: seq<int>, origin: Origin): PlannedPoint
    requires CoordinateValid(planner.space, c)
  {
    PlannedPoint(c, ParametersAt(planner.space, c, |c|), planner.hash(c), origin)
  }

  /** The points so far, the hashes seen, and the coordinates that were repeated or rejected. */
  datatype Progress = Progress(points: seq<PlannedPoint>, seen: map<string, bool>, duplicates: nat, rejected: nat)

  predicate Seen(seen: map<string, bool>, hash: string) {
    hash in seen && seen[hash]
  }

  function Appended(planner: Planner, p: Progress, c: seq<int>, origin: Origin): Progress {
    if !Legal(planner, c) then p.(rejected := p.rejected + 1)
    else if Seen(p.seen, planner.hash(c)) then p.(duplicates := p.duplicates + 1)
    else p.(points := p.points + [PointAt(planner, c, origin)], seen := p.seen[planner.hash(c) := true])
  }

  /** After the baseline and the two anchors of each of the first n axes. */
  ghost function Anchored(planner: Planner, base: seq<int>, p: Progress, n: nat): Progress
    requires |base| == |planner.space.axes| && n <= |base|
  {
    if n == 0 then Appended(planner, p, base, Baseline)
    else
      var axis := planner.space.axes[n - 1];
      var low := Appended(planner, Anchored(planner, base, p, n - 1), base[n - 1 := axis.studyStart], AxisAnchor(axis.name, false));
      Appended(planner, low, base[n - 1 := axis.studyEnd], AxisAnchor(axis.name, true))
  }

  /** After the first n coordinates of a list. */
  ghost function Listed(planner: Planner, p: Progress, list: seq<seq<int>>, n: nat): Progress
    requires n <= |list|
  {
    if n == 0 then p else Appended(planner, Listed(planner, p, list, n - 1), list[n - 1], FullEnumeration)
  }

  /** The axis value of a Sobol coordinate. */
  function MappedValue(axis: Axis, x: real): int {
    var count := axis.studyEnd - axis.studyStart + 1;
    var mapped := (x * count as real).Floor;
    axis.studyStart + if mapped >= count then count - 1 else mapped
  }

  ghost function SobolCoordinate(space: ParameterSpace, index: nat): (c: seq<int>)
    requires |space.axes| <= Sobol.MAX_DIMENSIONS
    ensures |c| == |space.axes|
  {
    seq(|space.axes|, d requires 0 <= d < |space.axes| => MappedValue(space.axes[d], Sobol.Coordinate(index, d)))
  }

  /** After n Sobol points from an index on. */
  ghost function Sampled(planner: Planner, p: Progress, start: nat, n: nat): Progress
    requires |planner.space.axes| <= Sobol.MAX_DIMENSIONS
  {
    if n == 0 then p
    else Appended(planner, Sampled(planner, p, start, n - 1), SobolCoordinate(planner.space, start + n - 1), SobolOrigin(start + n - 1))
  }

  /** Sampling goes on while points are missing and the window is not exhausted. */
  ghost predicate GoesOn(first: Progress, now: Progress, target: nat, total: nat) {
    |now.points| < |first.points| + target && |now.seen| < total
  }

  /** Sampling stops after exactly n attempts. */
  ghost predicate StopsAfter(planner: Planner, p: Progress, start: nat, target: nat, total: nat, n: nat) {
    && |planner.space.axes| <= Sobol.MAX_DIMENSIONS
    && (forall k :: 0 <= k < n ==> GoesOn(p, Sampled(planner, p, start, k), target, total))
    && !GoesOn(p, Sampled(planner, p, start, n), target, total)
  }

  // ----- what a plan is

  ghost function Start(existing: map<string, bool>): Progress {
    Progress([], existing, 0, 0)
  }

  ghost function Opening(planner: Planner, base: seq<int>, existing: map<string, bool>, includeAnchors: bool): Progress
    requires |base| == |planner.space.axes|
  {
    if includeAnchors then Anchored(planner, base, Start(existing), |base|) else Start(existing)
  }

  ghost predicate ValidRequest(planner: Planner, base: seq<int>) {
    ValidSpace(planner.space) && InWindow(planner.space, base)
  }

  /** The counts of a plan are those of its progress. */
  ghost predicate Tallies(plan: GlobalPlan, p: Progress) {
    && plan.points == p.points && plan.uniquePointCount == |p.points|
    && plan.duplicateCount == p.duplicates && plan.rejectedCount == p.rejected
  }

  /** A plan that lists the whole window. */
  ghost predicate IsEnumerationPlan(planner: Planner, opening: Progress, plan: GlobalPlan) {
    exists list :: Enumerates(planner.space, list) && Tallies(plan, Listed(planner, opening, list, |list|))
  }

  /** A plan of Sobol points from an index on; none when nothing is wanted or the window is exhausted. */
  ghost predicate IsSobolPlan(planner: Planner, opening: Progress, requested: nat, start: nat, plan: GlobalPlan) {
    && start <= plan.nextSobolIndex && plan.sobolEndIndex == plan.nextSobolIndex - 1
    && if GoesOn(opening, opening, requested, plan.totalCombinations) then
         && StopsAfter(planner, opening, start, requested, plan.totalCombinations, plan.nextSobolIndex - start)
         && Tallies(plan, Sampled(planner, opening, start, plan.nextSobolIndex - start))
       else
         Tallies(plan, opening) && plan.nextSobolIndex == start
  }

  ghost predicate IsPlan(planner: Planner, base: seq<int>, requested: nat, start: nat, existing: map<string, bool>, includeAnchors: bool, plan: GlobalPlan) {
    && ValidRequest(planner, base)
    && var opening := Opening(planner, base, existing, includeAnchors);
       && plan.requestedSobol == requested && plan.sobolStartIndex == start
       && plan.totalCombinations == Saturated(Product(planner.space, |planner.space.axes|))
       && plan.baseAndAnchorCount == |opening.points|
       && if plan.totalCombinations <= requested && start == 0 then
            plan.mode == FullEnumerationMode && IsEnumerationPlan(planner, opening, plan)
          else
            plan.mode == SobolMode && IsSobolPlan(planner, opening, requested, start, plan)
  }

  // ----- what every plan guarantees

  /** Distinct hashes, all of them new and now seen; every point legal and described by its coordinate. */
  ghost predicate SoundProgress(planner: Planner, existing: map<string, bool>, p: Progress) {
    && (forall i, j :: 0 <= i < j < |p.points| ==> p.points[i].vectorHash != p.points[j].vectorHash)
    && (forall i :: 0 <= i < |p.points| ==> SoundPoint(planner, existing, p.points[i]))
    && (forall h :: h in p.seen <==> h in existing || HasHash(p.points, h))
    && (forall h :: Seen(p.seen, h) <==> Seen(existing, h) || HasHash(p.points, h))
  }

  ghost predicate HasHash(points: seq<PlannedPoint>, h: string) {
    exists i :: 0 <= i < |points| && points[i].vectorHash == h
  }

  ghost predicate SoundPoint(planner: Planner, existing: map<string, bool>, point: PlannedPoint) {
    Legal(planner, point.coordinates) && point == PointAt(planner, point.coordinates, point.origin) && !Seen(existing, point.vectorHash)
  }

  lemma StartIsSound(planner: Planner, existing: map<string, bool>)
    ensures SoundProgress(planner, existing, Start(existing))
  {
  }

  lemma HashAdded(points: seq<PlannedPoint>, point: PlannedPoint, h: string)
    ensures HasHash(points + [point], h) <==> HasHash(points, h) || point.vectorHash == h
  {
    var more := points + [point];
    if HasHash(points, h) {
      var i :| 0 <= i < |points| && points[i].vectorHash == h;
      assert more[i].vectorHash == h;
    }
    if point.vectorHash == h { assert more[|points|].vectorHash == h; }
  }

  lemma AppendedIsSound(planner: Planner, existing: map<string, bool>, p: Progress, c: seq<int>, origin: Origin)
    requires SoundProgress(planner, existing, p)
    ensures SoundProgress(planner, existing, Appended(planner, p, c, origin))
  {
    hide CoordinateValid, HasHash, ParametersAt;
    var q := Appended(planner, p, c, origin);
    if q.points != p.points {
      forall h ensures HasHash(q.points, h) <==> HasHash(p.points, h) || planner.hash(c) == h {
        HashAdded(p.points, q.points[|p.points|], h);
      }
      NotYetUsed(p.points, planner.hash(c));
    }
  }

  lemma NotYetUsed(points: seq<PlannedPoint>, h: string)
    ensures HasHash(points, h) || forall i :: 0 <= i < |points| ==> points[i].vectorHash != h
  {
  }

  lemma {:induction false} AnchoredIsSound(planner: Planner, base: seq<int>, existing: map<string, bool>, n: nat)
    requires |base| == |planner.space.axes| && n <= |base|
    ensures SoundProgress(planner, existing, Anchored(planner, base, Start(existing), n))
  {
    hide SoundProgress, Appended;
    StartIsSound(planner, existing);
    if n == 0 {
      AppendedIsSound(planner, existing, Start(existing), base, Baseline);
    } else {
      AnchoredIsSound(planner, base, existing, n - 1);
      var axis, p := planner.space.axes[n - 1], Anchored(planner, base, Start(existing), n - 1);
      AppendedIsSound(planner, existing, p, base[n - 1 := axis.studyStart], AxisAnchor(axis.name, false));
      var low := Appended(planner, p, base[n - 1 := axis.studyStart], AxisAnchor(axis.name, false));
      AppendedIsSound(planner, existing, low, base[n - 1 := axis.studyEnd], AxisAnchor(axis.name, true));
    }
  }

  lemma OpeningIsSound(planner: Planner, base: seq<int>, existing: map<string, bool>, includeAnchors: bool)
    requires |base| == |planner.space.axes|
    ensures SoundProgress(planner, existing, Opening(planner, base, existing, includeAnchors))
  {
    hide SoundProgress, Anchored;
    StartIsSound(planner, existing);
    AnchoredIsSound(planner, base, existing, |base|);
  }

  lemma {:induction false} ListedIsSound(planner: Planner, existing: map<string, bool>, p: Progress, list: seq<seq<int>>, n: nat)
    requires SoundProgress(planner, existing, p) && n <= |list|
    ensures SoundProgress(planner, existing, Listed(planner, p, list, n))
  {
    hide SoundProgress, Appended;
    if n > 0 {
      ListedIsSound(planner, existing, p, list, n - 1);
      AppendedIsSound(planner, existing, Listed(planner, p, list, n - 1), list[n - 1], FullEnumeration);
    }
  }

  lemma {:induction false} SampledIsSound(planner: Planner, existing: map<string, bool>, p: Progress, start: nat, n: nat)
    requires |planner.space.axes| <= Sobol.MAX_DIMENSIONS && SoundProgress(planner, existing, p)
    ensures SoundProgress(planner, existing, Sampled(planner, p, start, n))
  {
    hide SoundProgress, Appended, SobolCoordinate;
    if n > 0 {
      SampledIsSound(planner, existing, p, start, n - 1);
      AppendedIsSound(planner, existing, Sampled(planner, p, start, n - 1), SobolCoordinate(planner.space, start + n - 1), SobolOrigin(start + n - 1));
    }
  }

  /** The progress a plan reports. */
  ghost predicate IsProgressOf(planner: Planner, existing: map<string, bool>, plan: GlobalPlan, p: Progress) {
    SoundProgress(planner, existing, p) && Tallies(plan, p)
  }

  /** In every plan the hashes are distinct and new, and every point is legal. */
  lemma PlanIsSound(planner: Planner, base: seq<int>, requested: nat, start: nat, existing: map<string, bool>, includeAnchors: bool, plan: GlobalPlan)
    requires IsPlan(planner, base, requested, start, existing, includeAnchors, plan)
    ensures exists p :: IsProgressOf(planner, existing, plan, p)
    ensures forall i, j :: 0 <= i < j < |plan.points| ==> plan.points[i].vectorHash != plan.points[j].vectorHash
    ensures forall i :: 0 <= i < |plan.points| ==> SoundPoint(planner, existing, plan.points[i])
  {
    hide Opening, Listed, Sampled, Enumerates, StopsAfter, ValidSpace, Product, SoundPoint;
    var opening := Opening(planner, base, existing, includeAnchors);
    OpeningIsSound(planner, base, existing, includeAnchors);
    if plan.mode == FullEnumerationMode {
      var list :| Enumerates(planner.space, list) && Tallies(plan, Listed(planner, opening, list, |list|));
      ListedIsSound(planner, existing, opening, list, |list|);
      assert IsProgressOf(planner, existing, plan, Listed(planner, opening, list, |list|));
    } else if !GoesOn(opening, opening, requested, plan.totalCombinations) {
      assert IsProgressOf(planner, existing, plan, opening);
    } else {
      StopsIsSmall(planner, opening, start, requested, plan.totalCombinations, plan.nextSobolIndex - start);
      SampledIsSound(planner, existing, opening, start, plan.nextSobolIndex - start);
      assert IsProgressOf(planner, existing, plan, Sampled(planner, opening, start, plan.nextSobolIndex - start));
    }
  }

  lemma StopsIsSmall(planner: Planner, p: Progress, start: nat, target: nat, total: nat, n: nat)
    requires StopsAfter(planner, p, start, target, total, n)
    ensures |planner.space.axes| <= Sobol.MAX_DIMENSIONS
  {
  }

  // ----- resuming

  /** One progress is a first one continued by a second. */
  ghost predicate Continues(one: Progress, first: Progress, second: Progress) {
    && one.points == first.points + second.points && one.seen == second.seen
    && one.duplicates == first.duplicates + second.duplicates && one.rejected == first.rejected + second.rejected
  }

  lemma AppendedContinues(planner: Planner, one: Progress, first: Progress, second: Progress, c: seq<int>, origin: Origin)
    requires Continues(one, first, second)
    ensures Continues(Appended(planner, one, c, origin), first, Appended(planner, second, c, origin))
  {
    hide Legal, PointAt;
  }

  lemma {:induction false} SampledContinues(planner: Planner, p: Progress, start: nat, a: nat, n: nat)
    requires |planner.space.axes| <= Sobol.MAX_DIMENSIONS
    ensures var first := Sampled(planner, p, start, a);
            Continues(Sampled(planner, p, start, a + n), first, Sampled(planner, Start(first.seen), start + a, n))
  {
    hide Appended, SobolCoordinate;
    var first := Sampled(planner, p, start, a);
    if n > 0 {
      SampledContinues(planner, p, start, a, n - 1);
      var one, second := Sampled(planner, p, start, a + n - 1), Sampled(planner, Start(first.seen), start + a, n - 1);
      AppendedContinues(planner, one, first, second, SobolCoordinate(planner.space, start + a + n - 1), SobolOrigin(start + a + n - 1));
    }
  }

  lemma AppendedAddsOne(planner: Planner, p: Progress, c: seq<int>, origin: Origin)
    ensures |p.points| <= |Appended(planner, p, c, origin).points| <= |p.points| + 1
    ensures |p.seen| <= |Appended(planner, p, c, origin).seen|
  {
    hide Legal;
    var q := Appended(planner, p, c, origin);
    assert p.seen.Keys <= q.seen.Keys;
    SubsetCount(p.seen.Keys, q.seen.Keys);
  }

  lemma {:induction false} SampledGrows(planner: Planner, p: Progress, start: nat, n: nat)
    requires |planner.space.axes| <= Sobol.MAX_DIMENSIONS
    ensures |Sampled(planner, p, start, n).points| >= |p.points| && |Sampled(planner, p, start, n).seen| >= |p.seen|
    ensures n > 0 ==> |Sampled(planner, p, start, n).points| <= |Sampled(planner, p, start, n - 1).points| + 1
  {
    hide Appended, SobolCoordinate;
    if n > 0 {
      SampledGrows(planner, p, start, n - 1);
      AppendedAddsOne(planner, Sampled(planner, p, start, n - 1), SobolCoordinate(planner.space, start + n - 1), SobolOrigin(start + n - 1));
    }
  }

  /** Sampling stops after one number of attempts only. */
  lemma StopsOnce(planner: Planner, p: Progress, start: nat, target: nat, total: nat, m: nat, n: nat)
    requires StopsAfter(planner, p, start, target, total, m) && StopsAfter(planner, p, start, target, total, n)
    ensures m == n
  {
    hide GoesOn, Sampled;
  }

  /** Stopping for the first target and then for the second is stopping for their sum. */
  lemma StopsInTwo(planner: Planner, p: Progress, start: nat, n: nat, m: nat, total: nat, a: nat, b: nat)
    requires StopsAfter(planner, p, start, n, total, a)
    requires StopsAfter(planner, Start(Sampled(planner, p, start, a).seen), start + a, m, total, b)
    ensures StopsAfter(planner, p, start, n + m, total, a + b)
  {
    hide Sampled, GoesOn;
    forall k | 0 <= k < a + b ensures GoesOn(p, Sampled(planner, p, start, k), n + m, total) {
      if k < a {
        GoesOnLonger(p, Sampled(planner, p, start, k), n, m, total);
      } else {
        GoesOnLater(planner, p, start, n, m, total, a, k - a);
      }
    }
    StopsLater(planner, p, start, n, m, total, a, b);
  }

  lemma GoesOnLonger(p: Progress, now: Progress, n: nat, m: nat, total: nat)
    requires GoesOn(p, now, n, total)
    ensures GoesOn(p, now, n + m, total)
  {
  }

  lemma GoesOnLater(planner: Planner, p: Progress, start: nat, n: nat, m: nat, total: nat, a: nat, i: nat)
    requires StopsAfter(planner, p, start, n, total, a)
    requires var after := Start(Sampled(planner, p, start, a).seen); GoesOn(after, Sampled(planner, after, start + a, i), m, total)
    ensures GoesOn(p, Sampled(planner, p, start, a + i), n + m, total)
  {
    hide Sampled, StopsAfter;
    StopsIsSmall(planner, p, start, n, total, a);
    FirstIsFull(planner, p, start, n, total, a);
    SampledContinues(planner, p, start, a, i);
  }

  lemma StopsLater(planner: Planner, p: Progress, start: nat, n: nat, m: nat, total: nat, a: nat, b: nat)
    requires StopsAfter(planner, p, start, n, total, a)
    requires var after := Start(Sampled(planner, p, start, a).seen);
             |planner.space.axes| <= Sobol.MAX_DIMENSIONS && !GoesOn(after, Sampled(planner, after, start + a, b), m, total)
    ensures !GoesOn(p, Sampled(planner, p, start, a + b), n + m, total)
  {
    hide Sampled;
    assert !GoesOn(p, Sampled(planner, p, start, a), n, total);
    hide StopsAfter;
    var first := Sampled(planner, p, start, a);
    SampledContinues(planner, p, start, a, b);
    SampledGrows(planner, Start(first.seen), start + a, b);
  }

  /** The first stretch adds no more than its target. */
  lemma FirstIsFull(planner: Planner, p: Progress, start: nat, n: nat, total: nat, a: nat)
    requires StopsAfter(planner, p, start, n, total, a)
    ensures |Sampled(planner, p, start, a).points| <= |p.points| + n
  {
    if a > 0 {
      SampledGrows(planner, p, start, a);
      assert GoesOn(p, Sampled(planner, p, start, a - 1), n, total);
    }
  }

  /** The hashes to resume with: those known before and those of the points planned since. */
  ghost function WithHashes(existing: map<string, bool>, points: seq<PlannedPoint>): map<string, bool> {
    map h | h in existing.Keys + Hashes(points) :: Seen(existing, h) || h in Hashes(points)
  }

  ghost function Hashes(points: seq<PlannedPoint>): (s: set<string>)
    ensures forall h :: h in s <==> HasHash(points, h)
  {
    set i | 0 <= i < |points| :: points[i].vectorHash
  }

  lemma SeenIsWithHashes(planner: Planner, existing: map<string, bool>, p: Progress)
    requires SoundProgress(planner, existing, p)
    ensures p.seen == WithHashes(existing, p.points)
  {
    hide HasHash, SoundPoint;
    var w := WithHashes(existing, p.points);
    forall h ensures h in p.seen <==> h in w {
    }
    forall h | h in p.seen ensures p.seen[h] == w[h] {
      assert Seen(p.seen, h) == p.seen[h];
    }
  }

  /** What a resumed plan and its predecessor make up. */
  ghost predicate Resumes(whole: GlobalPlan, first: GlobalPlan, second: GlobalPlan) {
    && whole.points == first.points + second.points
    && whole.nextSobolIndex == second.nextSobolIndex && whole.sobolEndIndex == second.sobolEndIndex
    && whole.uniquePointCount == first.uniquePointCount + second.uniquePointCount
    && whole.duplicateCount == first.duplicateCount + second.duplicateCount
    && whole.rejectedCount == first.rejectedCount + second.rejectedCount
  }

  /**
    Planning n points and then m more from where the first plan ended, with its hashes known, is
    planning n + m points at once, whenever the window holds more than n + m coordinates.
   */
  lemma ResumingIsPlanningAtOnce(planner: Planner, base: seq<int>, n: nat, m: nat, start: nat, existing: map<string, bool>, anchors: bool,
                                 first: GlobalPlan, second: GlobalPlan, whole: GlobalPlan)
    requires IsPlan(planner, base, n, start, existing, anchors, first)
    requires IsPlan(planner, base, m, first.nextSobolIndex, WithHashes(existing, first.points), false, second)
    requires IsPlan(planner, base, n + m, start, existing, anchors, whole)
    requires whole.totalCombinations > n + m
    ensures Resumes(whole, first, second)
  {
    hide Sampled, ValidSpace, Product, StopsAfter, WithHashes, Anchored, GoesOn;
    var opening, total := Opening(planner, base, existing, anchors), whole.totalCombinations;
    OpeningIsSound(planner, base, existing, anchors);
    if |planner.space.axes| <= Sobol.MAX_DIMENSIONS {
      var a, b := first.nextSobolIndex - start, second.nextSobolIndex - first.nextSobolIndex;
      ShortPlan(planner, opening, n, start, first);
      SampledIsSound(planner, existing, opening, start, a);
      SeenIsWithHashes(planner, existing, Sampled(planner, opening, start, a));
      var after := Start(Sampled(planner, opening, start, a).seen);
      ShortPlan(planner, after, m, first.nextSobolIndex, second);
      ShortPlan(planner, opening, n + m, start, whole);
      StopsInTwo(planner, opening, start, n, m, total, a, b);
      StopsOnce(planner, opening, start, n + m, total, a + b, whole.nextSobolIndex - start);
      SampledContinues(planner, opening, start, a, b);
    } else {
      var after := Start(WithHashes(existing, first.points));
      TooManyAxes(planner, opening, n, start, first);
      TooManyAxes(planner, opening, n + m, start, whole);
      TooManyAxes(planner, after, m, first.nextSobolIndex, second);
    }
  }

  /** With more axes than the sampler has dimensions a plan holds no Sobol points. */
  lemma TooManyAxes(planner: Planner, opening: Progress, requested: nat, start: nat, plan: GlobalPlan)
    requires |planner.space.axes| > Sobol.MAX_DIMENSIONS && IsSobolPlan(planner, opening, requested, start, plan)
    ensures Tallies(plan, opening) && plan.nextSobolIndex == start
  {
  }

  /** A Sobol plan in either case, with the stop also for nothing requested. */
  lemma ShortPlan(planner: Planner, opening: Progress, requested: nat, start: nat, plan: GlobalPlan)
    requires |planner.space.axes| <= Sobol.MAX_DIMENSIONS
    requires IsSobolPlan(planner, opening, requested, start, plan)
    ensures start <= plan.nextSobolIndex && plan.sobolEndIndex == plan.nextSobolIndex - 1
    ensures StopsAfter(planner, opening, start, requested, plan.totalCombinations, plan.nextSobolIndex - start)
    ensures Tallies(plan, Sampled(planner, opening, start, plan.nextSobolIndex - start))
  {
  }

  // ----- full enumeration

  ghost predicate InjectiveHash(hash: seq<int> -> string) {
    forall c: seq<int>, d: seq<int> :: hash(c) == hash(d) ==> c == d
  }

  lemma {:induction false} ListedCovers(planner: Planner, existing: map<string, bool>, p: Progress, list: seq<seq<int>>, n: nat, k: nat)
    requires SoundProgress(planner, existing, p) && k < n <= |list|
    requires Legal(planner, list[k])
    ensures Seen(Listed(planner, p, list, n).seen, planner.hash(list[k]))
  {
    hide Legal, SoundProgress, PointAt;
    if k < n - 1 { ListedCovers(planner, existing, p, list, n - 1, k); }
  }

  /**
    A full enumeration holds every legal coordinate of the window that was not known before: each
    exactly once, and no other.
   */
  lemma EnumerationCovers(planner: Planner, base: seq<int>, requested: nat, existing: map<string, bool>, includeAnchors: bool, plan: GlobalPlan, c: seq<int>)
    requires IsPlan(planner, base, requested, 0, existing, includeAnchors, plan) && plan.mode == FullEnumerationMode
    requires InjectiveHash(planner.hash)
    ensures (exists i :: 0 <= i < |plan.points| && plan.points[i].coordinates == c) <==> Legal(planner, c) && !Seen(existing, planner.hash(c))
    ensures forall i, j :: 0 <= i < j < |plan.points| ==> plan.points[i].coordinates != plan.points[j].coordinates
  {
    hide Opening, Listed, CoordinateValid, ParametersAt, ValidSpace, Product, HasHash, AllDistinct;
    PlanIsSound(planner, base, requested, 0, existing, includeAnchors, plan);
    var opening := Opening(planner, base, existing, includeAnchors);
    OpeningIsSound(planner, base, existing, includeAnchors);
    var list :| Enumerates(planner.space, list) && Tallies(plan, Listed(planner, opening, list, |list|));
    ListedIsSound(planner, existing, opening, list, |list|);
    if Legal(planner, c) && !Seen(existing, planner.hash(c)) {
      ValidIsRegular(planner.space, c);
      var k :| 0 <= k < |list| && list[k] == c;
      ListedCovers(planner, existing, opening, list, |list|, k);
      HashIsAPoint(planner, existing, plan.points, c);
    }
  }

  lemma HashIsAPoint(planner: Planner, existing: map<string, bool>, points: seq<PlannedPoint>, c: seq<int>)
    requires HasHash(points, planner.hash(c)) && InjectiveHash(planner.hash)
    requires forall i :: 0 <= i < |points| ==> SoundPoint(planner, existing, points[i])
    ensures exists i :: 0 <= i < |points| && points[i].coordinates == c
  {
    var i :| 0 <= i < |points| && points[i].vectorHash == planner.hash(c);
    assert SoundPoint(planner, existing, points[i]);
    assert planner.hash(points[i].coordinates) == planner.hash(c);
  }

  // ----- the planner

  function MaxAttempts(requested: nat): nat {
    requested * 1024 + 65536
  }

  /** Sampling that cannot finish: no sampler for so many axes, indices run out, or attempts do. */
  ghost predicate SamplingFails(planner: Planner, p: Progress, start: nat, target: nat, total: nat) {
    if |planner.space.axes| > Sobol.MAX_DIMENSIONS then
      GoesOn(p, p, target, total)
    else
      exists k: nat :: k <= MaxAttempts(target) && (k == MaxAttempts(target) || start + k > Sobol.MAX_UINT32 - 1)
        && RunsFor(planner, p, start, target, total, k)
  }

  /** Sampling has not stopped within n attempts. */
  ghost predicate RunsFor(planner: Planner, p: Progress, start: nat, target: nat, total: nat, n: nat)
    requires |planner.space.axes| <= Sobol.MAX_DIMENSIONS
  {
    forall j :: 0 <= j <= n ==> GoesOn(p, Sampled(planner, p, start, j), target, total)
  }

  /** Why a request has no plan. */
  ghost predicate HasNoPlan(planner: Planner, base: seq<int>, requested: int, start: int, existing: map<string, bool>, includeAnchors: bool) {
    || !ValidRequest(planner, base) || requested < 0 || start < 0
    || (requested > 0 && (Saturated(Product(planner.space, |planner.space.axes|)) > requested || start > 0)
        && SamplingFails(planner, Opening(planner, base, existing, includeAnchors), start, requested, Saturated(Product(planner.space, |planner.space.axes|))))
  }

  /** Sampling that stops has not failed. */
  lemma StoppedDoesNotFail(planner: Planner, p: Progress, start: nat, target: nat, total: nat, n: nat)
    requires |planner.space.axes| <= Sobol.MAX_DIMENSIONS && !GoesOn(p, Sampled(planner, p, start, n), target, total)
    requires n <= MaxAttempts(target) && (n > 0 ==> start + n - 1 <= Sobol.MAX_UINT32 - 1)
    ensures !SamplingFails(planner, p, start, target, total)
  {
    hide GoesOn, Sampled;
  }

  lemma NoSampler(planner: Planner, p: Progress, start: nat, target: nat, total: nat)
    requires |planner.space.axes| > Sobol.MAX_DIMENSIONS
    ensures SamplingFails(planner, p, start, target, total) <==> GoesOn(p, p, target, total)
  {
  }

  lemma NothingSampled(planner: Planner, p: Progress, start: nat)
    requires |planner.space.axes| <= Sobol.MAX_DIMENSIONS
    ensures Sampled(planner, p, start, 0) == p
  {
  }

  lemma OneMoreSample(planner: Planner, p: Progress, start: nat, index: nat, was: Progress)
    requires |planner.space.axes| <= Sobol.MAX_DIMENSIONS && start <= index && was == Sampled(planner, p, start, index - start)
    ensures Sampled(planner, p, start, index + 1 - start) == Appended(planner, was, SobolCoordinate(planner.space, index), SobolOrigin(index))
  {
    hide Appended, SobolCoordinate;
    var n := index - start;
    assert Sampled(planner, p, start, n + 1)
        == Appended(planner, Sampled(planner, p, start, n), SobolCoordinate(planner.space, start + n), SobolOrigin(start + n));
    assert start + n == index;
  }

  lemma StillRuns(planner: Planner, p: Progress, start: nat, target: nat, total: nat, n: nat)
    requires |planner.space.axes| <= Sobol.MAX_DIMENSIONS && (n > 0 ==> RunsFor(planner, p, start, target, total, n - 1))
    requires GoesOn(p, Sampled(planner, p, start, n), target, total)
    ensures RunsFor(planner, p, start, target, total, n)
  {
    hide GoesOn, Sampled;
  }

  lemma CannotFinish(planner: Planner, p: Progress, start: nat, target: nat, total: nat, n: nat)
    requires |planner.space.axes| <= Sobol.MAX_DIMENSIONS && RunsFor(planner, p, start, target, total, n)
    requires n <= MaxAttempts(target) && (n == MaxAttempts(target) || start + n > Sobol.MAX_UINT32 - 1)
    ensures SamplingFails(planner, p, start, target, total)
  {
    hide RunsFor;
  }

  lemma Stopped(planner: Planner, p: Progress, start: nat, target: nat, total: nat, n: nat)
    requires |planner.space.axes| <= Sobol.MAX_DIMENSIONS && (n > 0 ==> RunsFor(planner, p, start, target, total, n - 1))
    requires !GoesOn(p, Sampled(planner, p, start, n), target, total)
    ensures StopsAfter(planner, p, start, target, total, n)
    ensures !GoesOn(p, p, target, total) ==> n == 0
  {
    hide GoesOn;
    NothingSampled(planner, p, start);
  }

  class PlanBuilder {
    const planner: Planner
    var points: seq<PlannedPoint>
    var seen: map<string, bool>
    var duplicateCount: nat
    var rejectedCount: nat

    function Now(): Progress
      reads this
    {
      Progress(points, seen, duplicateCount, rejectedCount)
    }

    constructor (planner: Planner, existing: map<string, bool>)
      ensures this.planner == planner && Now() == Start(existing)
    {
      this.planner := planner;
      points, seen, duplicateCount, rejectedCount := [], existing, 0, 0;
    }

    method AppendCoordinate(c: seq<int>, origin: Origin)
      modifies this
      ensures Now() == Appended(planner, old(Now()), c, origin)
    {
      hide CoordinateValid, ParametersAt;
      if !CoordinateValid(planner.space, c) {
        rejectedCount := rejectedCount + 1;
        return;
      }
      var point := PointAt(planner, c, origin);
      if !planner.accepts(point.parameters) {
        rejectedCount := rejectedCount + 1;
        return;
      }
      if Seen(seen, point.vectorHash) {
        duplicateCount := duplicateCount + 1;
        return;
      }
      seen := seen[point.vectorHash := true];
      points := points + [point];
    }

    method AppendAnchors(base: seq<int>)
      requires |base| == |planner.space.axes|
      modifies this
      ensures Now() == Anchored(planner, base, old(Now()), |base|)
    {
      hide Appended;
      ghost var start := Now();
      AppendCoordinate(base, Baseline);
      for d := 0 to |planner.space.axes|
        invariant Now() == Anchored(planner, base, start, d)
      {
        var axis := planner.space.axes[d];
        AppendCoordinate(base[d := axis.studyStart], AxisAnchor(axis.name, false));
        AppendCoordinate(base[d := axis.studyEnd], AxisAnchor(axis.name, true));
      }
    }

    method AppendAll() returns (ghost list: seq<seq<int>>)
      requires ValidSpace(planner.space)
      modifies this
      ensures Enumerates(planner.space, list) && Now() == Listed(planner, old(Now()), list, |list|)
    {
      hide Appended, ValidSpace, Regular;
      ghost var start := Now();
      var coordinates := EnumerateWindow(planner.space);
      list := coordinates;
      for i := 0 to |coordinates|
        invariant Now() == Listed(planner, start, coordinates, i)
      {
        AppendCoordinate(coordinates[i], FullEnumeration);
      }
    }

    /** Sobol points until enough are found, the window is exhausted or the attempts are. */
    method Sample(requested: nat, start: nat, total: nat) returns (next: Option<nat>)
      requires requested > 0 && |planner.space.axes| > 0
      modifies this
      ensures next.None? <==> SamplingFails(planner, old(Now()), start, requested, total)
      ensures next.Some? ==> next.value >= start
      ensures next.Some? ==> if GoesOn(old(Now()), old(Now()), requested, total) then
                               StopsAfter(planner, old(Now()), start, requested, total, next.value - start)
                               && Now() == Sampled(planner, old(Now()), start, next.value - start)
                             else
                               Now() == old(Now()) && next.value == start
    {
      hide Appended, SobolCoordinate, Sampled, SamplingFails, StopsAfter, RunsFor, MaxAttempts;
      ghost var first := Now();
      var target, index := |points| + requested, start;
      var maxAttempts := MaxAttempts(requested);
      if |planner.space.axes| > Sobol.MAX_DIMENSIONS {
        NoSampler(planner, first, start, requested, total);
        next := if |points| < target && |seen| < total then None else Some(start);
        return;
      }
      NothingSampled(planner, first, start);
      while |points| < target && index - start < maxAttempts && |seen| < total
        invariant start <= index <= start + maxAttempts && (index > start ==> index - 1 <= Sobol.MAX_UINT32 - 1)
        invariant Now() == Sampled(planner, first, start, index - start)
        invariant index > start ==> RunsFor(planner, first, start, requested, total, index - start - 1)
        decreases start + maxAttempts - index
      {
        StillRuns(planner, first, start, requested, total, index - start);
        OneMoreSample(planner, first, start, index, Now());
        var sampled := SampleOne(index);
        if !sampled {
          CannotFinish(planner, first, start, requested, total, index - start);
          return None;
        }
        index := index + 1;
      }
      if |points| < target && |seen| < total {
        StillRuns(planner, first, start, requested, total, index - start);
        CannotFinish(planner, first, start, requested, total, index - start);
        return None;
      }
      StoppedDoesNotFail(planner, first, start, requested, total, index - start);
      Stopped(planner, first, start, requested, total, index - start);
      next := Some(index);
    }

    /** The Sobol point of one index, quantized to the window. */
    method SampleOne(index: nat) returns (sampled: bool)
      requires 0 < |planner.space.axes| <= Sobol.MAX_DIMENSIONS
      modifies this
      ensures sampled <==> index <= Sobol.MAX_UINT32 - 1
      ensures sampled ==> Now() == Appended(planner, old(Now()), SobolCoordinate(planner.space, index), SobolOrigin(index))
    {
      hide Appended, SobolCoordinate;
      var sequence := Sobol.SobolPoint(index, |planner.space.axes|);
      if sequence.Err? {
        return false;
      }
      var coordinate := MapPoint(sequence.value, index);
      AppendCoordinate(coordinate, SobolOrigin(index));
      sampled := true;
    }

    method MapPoint(sequence: seq<real>, ghost index: nat) returns (c: seq<int>)
      requires |planner.space.axes| <= Sobol.MAX_DIMENSIONS && sequence == Sobol.PointOf(index, |planner.space.axes|)
      ensures c == SobolCoordinate(planner.space, index)
    {
      c := seq(|sequence|, d requires 0 <= d < |sequence| && |sequence| == |planner.space.axes| => MappedValue(planner.space.axes[d], sequence[d]));
    }
  }

  /**
    A plan, or the reason there is none. The plan is what IsPlan describes; nothing but an invalid
    request or sampling that cannot finish stands in its way.
   */
  method PlanGlobalValidated(planner: Planner, base: seq<int>, requestedSobol: int, startIndex: int, existing: map<string, bool>, includeAnchors: bool)
    returns (r: Result<GlobalPlan, PlanError>)
    ensures r.Err? <==> HasNoPlan(planner, base, requestedSobol, startIndex, existing, includeAnchors)
    ensures r.Ok? ==> IsPlan(planner, base, requestedSobol, startIndex, existing, includeAnchors, r.value)
  {
    hide ValidSpace, Product, Anchored, Listed, Sampled, SamplingFails, StopsAfter, Enumerates;
    var valid := ValidateRequest(planner.space, base);
    if !valid || requestedSobol < 0 || startIndex < 0 {
      return Err(InvalidPlan);
    }
    var combinations := CombinationCount(planner.space);
    if combinations.Err? {
      return Err(InvalidPlan);
    }
    var total := combinations.value;
    var builder := new PlanBuilder(planner, existing);
    if includeAnchors {
      builder.AppendAnchors(base);
    }
    var anchors := |builder.points|;
    if total <= requestedSobol && startIndex == 0 {
      ghost var list := builder.AppendAll();
      return Ok(GlobalPlan(FullEnumerationMode, requestedSobol, anchors, |builder.points|, builder.duplicateCount, builder.rejectedCount, total,
                           startIndex, startIndex - 1, startIndex, builder.points));
    }
    AxesExist(planner.space);
    var next: Option<nat> := Some(startIndex);
    if requestedSobol > 0 {
      next := builder.Sample(requestedSobol, startIndex, total);
    }
    if next.None? {
      return Err(InvalidPlan);
    }
    r := Ok(GlobalPlan(SobolMode, requestedSobol, anchors, |builder.points|, builder.duplicateCount, builder.rejectedCount, total,
                       startIndex, next.value - 1, next.value, builder.points));
  }

  method ValidateRequest(space: ParameterSpace, base: seq<int>) returns (valid: bool)
    ensures valid <==> ValidSpace(space) && InWindow(space, base)
  {
    valid := ValidateSpace(space);
    if !valid || |base| != |space.axes| {
      return false;
    }
    for d := 0 to |base|
      invariant forall e :: 0 <= e < d ==> space.axes[e].studyStart <= base[e] <= space.axes[e].studyEnd
    {
      if base[d] < space.axes[d].studyStart || base[d] > space.axes[d].studyEnd {
        return false;
      }
    }
  }

  // ----- Sobol points on the grid

  lemma MappedIsCell(axis: Axis, x: real, k: nat)
    requires Width(axis) == Pow2(k) && 0.0 <= x < 1.0
    ensures MappedValue(axis, x) == axis.studyStart + Sobol.Cell(x, k)
  {
    hide Pow2;
    BelowCount(x, Width(axis));
  }

  lemma BelowCount(x: real, count: int)
    requires 0.0 <= x < 1.0 && count > 0
    ensures (x * count as real).Floor < count
  {
    var scaled := x * count as real;
    RealMath.MulStrict(count as real, x, 1.0);
  }

  /**
    On an axis of 2^k values, any aligned block of 2^k Sobol indices maps to every value of the axis
    exactly once.
   */
  lemma AxisValuesHitOnce(space: ParameterSpace, d: nat, k: nat, start: nat, v: int) returns (t: nat)
    requires |space.axes| <= Sobol.MAX_DIMENSIONS && d < |space.axes|
    requires k <= Sobol.WORD && Width(space.axes[d]) == Pow2(k)
    requires space.axes[d].studyStart <= v <= space.axes[d].studyEnd
    ensures t < Pow2(k)
    ensures forall u: nat :: u < Pow2(k) ==> (ValueInBlock(space, d, k, start, u) == v <==> u == t)
  {
    hide Pow2, Sobol.Cell, MappedValue, Sobol.Coordinate;
    var axis := space.axes[d];
    t := Sobol.DyadicIntervalsHitOnce(start, d, k, v - axis.studyStart);
    forall u: nat | u < Pow2(k) ensures ValueInBlock(space, d, k, start, u) == v <==> u == t {
      var x := Sobol.BlockCoordinates(start, d, k)[u];
      MappedIsCell(axis, x, k);
    }
  }

  /** The value of one axis at a point of an aligned block. */
  ghost function ValueInBlock(space: ParameterSpace, d: nat, k: nat, start: nat, u: nat): int
    requires |space.axes| <= Sobol.MAX_DIMENSIONS && d < |space.axes|
  {
    SobolCoordinate(space, start * Pow2(k) + u)[d]
  }
}
