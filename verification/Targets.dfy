/**
  Prediction targets and causal feature points (internal/dynamicparam/targets.go). The logarithm and
  the activity of a window of bars are parameters of the model.
 */
module Targets {
  import opened Wrappers
  import opened RealMath
  import opened Sums
  import opened Simplex
  import opened Quant
  import opened ActivityScale

  const HORIZON_ONE_DAY: nat := 1
  const HORIZON_TWENTY_DAY: nat := 20

  datatype TargetError = UnsupportedHorizon | TooFewBars | InvalidBar(index: nat) | Unordered | LookbackTooShort

  // ----- medians

  /** The positive values, in order of appearance. */
  function Positives(values: seq<real>): seq<real> {
    if |values| == 0 then [] else Positives(values[..|values| - 1]) + if values[|values| - 1] > 0.0 then [values[|values| - 1]] else []
  }

  /**
    The middle of the sorted positive values; none without a positive value. Sorting downwards gives
    the same middle as sorting upwards.
   */
  function PositiveMedian(values: seq<real>): Option<real> {
    MiddleOf(SortDescending(Positives(values)))
  }

  function MiddleOf(sorted: seq<real>): Option<real> {
    var middle := |sorted| / 2;
    if |sorted| == 0 then None
    else if |sorted| % 2 == 1 then Some(sorted[middle])
    else Some((sorted[middle - 1] + sorted[middle]) / 2.0)
  }

  method MedianOfPositives(values: seq<real>) returns (median: Option<real>)
    ensures median == PositiveMedian(values)
  {
    hide MiddleOf, SortDescending;
    var valid: seq<real> := [];
    for i := 0 to |values|
      invariant valid == Positives(values[..i])
    {
      assert values[..i + 1][..i] == values[..i];
      if values[i] > 0.0 {
        valid := valid + [values[i]];
      }
    }
    assert values[..|values|] == values;
    median := MiddleOf(SortDescending(valid));
  }

  ghost function AtMost(bound: real): real -> real {
    x => if x <= bound then 1.0 else 0.0
  }

  ghost function AtLeast(bound: real): real -> real {
    x => if x >= bound then 1.0 else 0.0
  }

  /** How many values satisfy a condition given as one or zero. */
  ghost function Count(s: seq<real>, f: real -> real): real {
    Total(Mapped(s, f))
  }

  lemma Indicator(x: real, bound: real)
    ensures AtMost(bound)(x) == if x <= bound then 1.0 else 0.0
    ensures AtLeast(bound)(x) == if x >= bound then 1.0 else 0.0
  {
  }

  lemma {:induction false} Indicates(s: seq<real>, f: real -> real, lo: nat, hi: nat)
    requires lo <= hi <= |s| && forall i :: 0 <= i < |s| ==> f(s[i]) >= 0.0
    requires forall i :: lo <= i < hi ==> f(s[i]) == 1.0
    ensures Count(s, f) >= (hi - lo) as real
  {
    var t := Mapped(s, f);
    forall i | 0 <= i < |t| ensures t[i] >= 0.0 && (lo <= i < hi ==> t[i] == 1.0) {
      assert t[i] == f(s[i]);
    }
    SumSplit(t, 0, lo, |t|);
    SumSplit(t, lo, hi, |t|);
    SumNonNegative(t, 0, lo);
    SumNonNegative(t, hi, |t|);
    SumConstant(t, 1.0, lo, hi);
  }

  lemma SortedMember(s: seq<real>, t: seq<real>, i: nat)
    requires multiset(s) == multiset(t) && i < |s|
    ensures s[i] in t
  {
    assert s[i] in multiset(s);
    assert s[i] in multiset(t);
  }

  lemma PositiveMembers(values: seq<real>, i: nat)
    requires i < |SortDescending(Positives(values))|
    ensures SortDescending(Positives(values))[i] > 0.0
  {
    hide Positives;
    PositivesArePositive(values);
    SortedMember(SortDescending(Positives(values)), Positives(values), i);
  }

  lemma {:induction false} PositivesArePositive(values: seq<real>)
    ensures forall x :: x in Positives(values) ==> x > 0.0
  {
    if |values| > 0 { PositivesArePositive(values[..|values| - 1]); }
  }

  ghost predicate Between(valid: seq<real>, m: real) {
    && (forall i :: 0 <= i < (|valid| + 1) / 2 ==> valid[i] >= m)
    && (forall i :: |valid| / 2 <= i < |valid| ==> valid[i] <= m)
  }

  /** The median lies between the upper and the lower half of the sorted values. */
  lemma MedianBetween(values: seq<real>)
    requires PositiveMedian(values).Some?
    ensures var m, valid := PositiveMedian(values).value, SortDescending(Positives(values));
            m > 0.0 && Between(valid, m)
  {
    var valid := SortDescending(Positives(values));
    SortOrders(Positives(values));
    hide SortDescending;
    var middle := |valid| / 2;
    PositiveMembers(values, middle);
    if |valid| % 2 == 0 { PositiveMembers(values, middle - 1); }
  }

  /** At least half of the positive values are no greater, and at least half no smaller, than their median. */
  lemma MedianIsCentral(values: seq<real>)
    requires PositiveMedian(values).Some?
    ensures var m, n := PositiveMedian(values).value, |Positives(values)| as real;
            m > 0.0 && 2.0 * Count(Positives(values), AtMost(m)) >= n && 2.0 * Count(Positives(values), AtLeast(m)) >= n
  {
    hide SortDescending, PositiveMedian, Count, Positives;
    var m, positives := PositiveMedian(values).value, Positives(values);
    var valid := SortDescending(positives);
    MedianBetween(values);
    assert |valid| == |positives| by { assert |multiset(valid)| == |multiset(positives)|; }
    HalvesCount(valid, m);
    SameCount(valid, positives, AtMost(m));
    SameCount(valid, positives, AtLeast(m));
    assert 2 * (|valid| - |valid| / 2) >= |valid| && 2 * ((|valid| + 1) / 2) >= |valid|;
  }

  /**
    The median is the mean of two positive values: at least half of the positive values, and for an odd number more,
    are no smaller than the one, and as many no greater than the other.
   */
  lemma MedianIsMean(values: seq<real>) returns (upper: real, lower: real)
    requires PositiveMedian(values).Some?
    ensures upper in Positives(values) && lower in Positives(values) && 2.0 * PositiveMedian(values).value == upper + lower
    ensures var n := ((|Positives(values)| + 1) / 2) as real;
            Count(Positives(values), AtLeast(upper)) >= n && Count(Positives(values), AtMost(lower)) >= n
  {
    hide Count, Positives;
    var positives := Positives(values);
    var valid := SortDescending(positives);
    SortOrders(positives);
    hide SortDescending;
    assert |valid| == |positives| by { assert |multiset(valid)| == |multiset(positives)|; }
    var n := |valid|;
    upper, lower := valid[(n - 1) / 2], valid[n / 2];
    SortedMember(valid, positives, (n - 1) / 2);
    SortedMember(valid, positives, n / 2);
    UpperCount(valid, upper);
    LowerCount(valid, lower);
    SameCount(valid, positives, AtLeast(upper));
    SameCount(valid, positives, AtMost(lower));
  }

  lemma UpperCount(valid: seq<real>, m: real)
    requires |valid| > 0 && Descending(valid) && m == valid[(|valid| - 1) / 2]
    ensures Count(valid, AtLeast(m)) >= ((|valid| + 1) / 2) as real
  {
    hide Count;
    forall i | 0 <= i < |valid| ensures AtLeast(m)(valid[i]) >= 0.0 && (i < (|valid| + 1) / 2 ==> AtLeast(m)(valid[i]) == 1.0) {
      Indicator(valid[i], m);
      if i < (|valid| + 1) / 2 { assert valid[i] >= m; }
    }
    Indicates(valid, AtLeast(m), 0, (|valid| + 1) / 2);
  }

  lemma LowerCount(valid: seq<real>, m: real)
    requires |valid| > 0 && Descending(valid) && m == valid[|valid| / 2]
    ensures Count(valid, AtMost(m)) >= ((|valid| + 1) / 2) as real
  {
    hide Count;
    forall i | 0 <= i < |valid| ensures AtMost(m)(valid[i]) >= 0.0 && (|valid| / 2 <= i ==> AtMost(m)(valid[i]) == 1.0) {
      Indicator(valid[i], m);
      if |valid| / 2 <= i { assert valid[i] <= m; }
    }
    Indicates(valid, AtMost(m), |valid| / 2, |valid|);
  }

  lemma HalvesCount(valid: seq<real>, m: real)
    requires Between(valid, m)
    ensures Count(valid, AtLeast(m)) >= ((|valid| + 1) / 2) as real
    ensures Count(valid, AtMost(m)) >= (|valid| - |valid| / 2) as real
  {
    hide Count;
    forall i | 0 <= i < |valid|
      ensures AtMost(m)(valid[i]) >= 0.0 && AtLeast(m)(valid[i]) >= 0.0
      ensures i < (|valid| + 1) / 2 ==> AtLeast(m)(valid[i]) == 1.0
      ensures |valid| / 2 <= i ==> AtMost(m)(valid[i]) == 1.0
    {
      Indicator(valid[i], m);
    }
    Indicates(valid, AtLeast(m), 0, (|valid| + 1) / 2);
    Indicates(valid, AtMost(m), |valid| / 2, |valid|);
  }

  lemma SameCount(s: seq<real>, t: seq<real>, f: real -> real)
    requires multiset(s) == multiset(t)
    ensures Count(s, f) == Count(t, f)
  {
    MappedTotalOfPermutation(s, t, f);
  }

  // ----- bars

  predicate ValidBar(bar: Bar) {
    bar.openTime > 0 && bar.open > 0.0 && bar.high > 0.0 && bar.low > 0.0 && bar.close > 0.0
  }

  ghost predicate ValidBars(bars: seq<Bar>) {
    && (forall i :: 0 <= i < |bars| ==> ValidBar(bars[i]))
    && (forall i :: 0 < i < |bars| ==> bars[i - 1].openTime < bars[i].openTime)
  }

  method ValidateBars(bars: seq<Bar>) returns (r: Option<TargetError>)
    ensures r.None? <==> ValidBars(bars)
    ensures r.Some? ==> r.value.InvalidBar? || r.value.Unordered?
  {
    for index := 0 to |bars|
      invariant ValidBars(bars[..index])
    {
      if !ValidBar(bars[index]) {
        return Some(InvalidBar(index));
      }
      if index > 0 && bars[index].openTime <= bars[index - 1].openTime {
        return Some(Unordered);
      }
    }
    assert bars[..|bars|] == bars;
    r := None;
  }

  // ----- targets

  /** Functions the model does not define. */
  datatype Measures = Measures(log: real -> real, future: (real, seq<Bar>) -> ActivityVector, activity: seq<Bar> -> Option<ActivityVector>,
                               sequence: seq<Bar> -> seq<seq<real>>)

  datatype TargetPoint = TargetPoint(index: nat, timeMs: int, horizon: nat, directionUp: bool, upSpace: real, downSpace: real, totalSpace: real,
                                     causalMedian: Option<real>, normalizedUp: real, normalizedDown: real, futureActivity: ActivityVector)

  /** The highest log rise, and the deepest log fall, over the next n bars; never negative. */
  ghost function UpSpace(bars: seq<Bar>, index: nat, n: nat, log: real -> real): real
    requires index + n < |bars| && bars[index].close != 0.0
  {
    if n == 0 then 0.0 else Max(UpSpace(bars, index, n - 1, log), log(bars[index + n].high / bars[index].close))
  }

  ghost function DownSpace(bars: seq<Bar>, index: nat, n: nat, log: real -> real): real
    requires index + n < |bars| && forall i :: index < i <= index + n ==> bars[i].low != 0.0
  {
    if n == 0 then 0.0 else Max(DownSpace(bars, index, n - 1, log), log(bars[index].close / bars[index + n].low))
  }

  ghost function TotalSpace(bars: seq<Bar>, index: nat, horizon: nat, log: real -> real): real
    requires ValidBars(bars) && index + horizon < |bars|
  {
    UpSpace(bars, index, horizon, log) + DownSpace(bars, index, horizon, log)
  }

  /** The total spaces of the points whose horizon has passed at an index. */
  ghost function CompletedTotals(bars: seq<Bar>, index: nat, horizon: nat, log: real -> real): seq<real>
    requires ValidBars(bars) && index < |bars|
  {
    seq(if index < horizon then 0 else index - horizon + 1,
        j requires 0 <= j && j + horizon <= index => TotalSpace(bars, j, horizon, log))
  }

  ghost function CausalMedian(bars: seq<Bar>, index: nat, horizon: nat, log: real -> real): Option<real>
    requires ValidBars(bars) && index < |bars|
  {
    PositiveMedian(CompletedTotals(bars, index, horizon, log))
  }

  function Normalized(space: real, median: Option<real>): real {
    if median.Some? && median.value != 0.0 then space / median.value else 0.0
  }

  ghost function TargetAt(bars: seq<Bar>, index: nat, horizon: nat, m: Measures): TargetPoint
    requires ValidBars(bars) && index + horizon < |bars|
  {
    var up, down := UpSpace(bars, index, horizon, m.log), DownSpace(bars, index, horizon, m.log);
    var median := CausalMedian(bars, index, horizon, m.log);
    TargetPoint(index, bars[index].openTime, horizon, bars[index + horizon].close > bars[index].close, up, down, up + down,
                median, Normalized(up, median), Normalized(down, median), m.future(bars[index].close, bars[index + 1..index + horizon + 1]))
  }

  method Spaces(bars: seq<Bar>, index: nat, horizon: nat, log: real -> real) returns (up: real, down: real)
    requires ValidBars(bars) && index + horizon < |bars|
    ensures up == UpSpace(bars, index, horizon, log) && down == DownSpace(bars, index, horizon, log)
  {
    var anchor := bars[index].close;
    up, down := 0.0, 0.0;
    for future := index + 1 to index + horizon + 1
      invariant up == UpSpace(bars, index, future - index - 1, log) && down == DownSpace(bars, index, future - index - 1, log)
    {
      up := Max(up, log(bars[future].high / anchor));
      down := Max(down, log(anchor / bars[future].low));
    }
    SpacesNonNegative(bars, index, horizon, log);
    up := Max(0.0, up);
    down := Max(0.0, down);
  }

  lemma {:induction false} SpacesNonNegative(bars: seq<Bar>, index: nat, n: nat, log: real -> real)
    requires ValidBars(bars) && index + n < |bars|
    ensures UpSpace(bars, index, n, log) >= 0.0 && DownSpace(bars, index, n, log) >= 0.0
  {
    if n > 0 { SpacesNonNegative(bars, index, n - 1, log); }
  }

  /** One target an index, each with the median of the total spaces completed by then. */
  method BuildTargets(bars: seq<Bar>, horizon: int, m: Measures) returns (r: Result<seq<TargetPoint>, TargetError>)
    ensures r.Err? <==> (horizon != HORIZON_ONE_DAY && horizon != HORIZON_TWENTY_DAY) || |bars| <= horizon || !ValidBars(bars)
    ensures r.Ok? ==> |r.value| == |bars| - horizon && forall i :: 0 <= i < |r.value| ==> r.value[i] == TargetAt(bars, i, horizon, m)
  {
    hide ValidBars, TargetAt, TotalSpace, CompletedTotals;
    if horizon != HORIZON_ONE_DAY && horizon != HORIZON_TWENTY_DAY {
      return Err(UnsupportedHorizon);
    }
    if |bars| <= horizon {
      return Err(TooFewBars);
    }
    var problem := ValidateBars(bars);
    if problem.Some? {
      return Err(problem.value);
    }
    var points: seq<TargetPoint> := [];
    var completedTotals: seq<real> := [];
    for index := 0 to |bars| - horizon
      invariant |points| == index && forall i :: 0 <= i < index ==> points[i] == TargetAt(bars, i, horizon, m)
      invariant completedTotals == if index > 0 then CompletedTotals(bars, index - 1, horizon, m.log) else []
    {
      var completedIndex := index - horizon;
      TotalsGrow(bars, index, horizon, m.log);
      if completedIndex >= 0 {
        TargetTotal(bars, completedIndex, horizon, m);
        completedTotals := completedTotals + [points[completedIndex].totalSpace];
      }
      var point := BuildTarget(bars, index, horizon, m, completedTotals);
      points := points + [point];
    }
    r := Ok(points);
  }

  lemma TargetTotal(bars: seq<Bar>, index: nat, horizon: nat, m: Measures)
    requires ValidBars(bars) && index + horizon < |bars|
    ensures TargetAt(bars, index, horizon, m).totalSpace == TotalSpace(bars, index, horizon, m.log)
  {
    hide UpSpace, DownSpace, CausalMedian;
  }

  /** The target of one index, from the totals completed by then. */
  method BuildTarget(bars: seq<Bar>, index: nat, horizon: nat, m: Measures, completedTotals: seq<real>) returns (point: TargetPoint)
    requires ValidBars(bars) && index + horizon < |bars| && completedTotals == CompletedTotals(bars, index, horizon, m.log)
    ensures point == TargetAt(bars, index, horizon, m)
  {
    hide ValidBars, UpSpace, DownSpace, PositiveMedian, CompletedTotals;
    var up, down := Spaces(bars, index, horizon, m.log);
    var median := MedianOfPositives(completedTotals);
    point := TargetPoint(index, bars[index].openTime, horizon, bars[index + horizon].close > bars[index].close, up, down, up + down,
                         median, Normalized(up, median), Normalized(down, median), m.future(bars[index].close, bars[index + 1..index + horizon + 1]));
  }

  /** One more completed total from the horizon on. */
  lemma TotalsGrow(bars: seq<Bar>, index: nat, horizon: nat, log: real -> real)
    requires ValidBars(bars) && index < |bars|
    ensures CompletedTotals(bars, index, horizon, log)
         == (if index == 0 then [] else CompletedTotals(bars, index - 1, horizon, log))
          + if index >= horizon then [TotalSpace(bars, index - horizon, horizon, log)] else []
  {
    hide ValidBars, TotalSpace;
  }

  // ----- what a target says

  /** A bound of all values of a function of the next n positions that is zero or attained. */
  ghost predicate IsLargest(space: real, n: nat, move: nat -> real) {
    && space >= 0.0 && (forall i: nat :: 1 <= i <= n ==> move(i) <= space)
    && (space == 0.0 || exists i: nat :: 1 <= i <= n && move(i) == space)
  }

  /** The log rise from a close to the i-th high after it, and the log fall to the i-th low. */
  ghost function Rise(bars: seq<Bar>, index: nat, log: real -> real): nat -> real {
    (i: nat) => if index + i < |bars| && bars[index].close != 0.0 then log(bars[index + i].high / bars[index].close) else 0.0
  }

  ghost function Fall(bars: seq<Bar>, index: nat, log: real -> real): nat -> real {
    (i: nat) => if index + i < |bars| && bars[index + i].low != 0.0 then log(bars[index].close / bars[index + i].low) else 0.0
  }

  lemma LargestGrows(space: real, n: nat, move: nat -> real)
    requires IsLargest(space, n, move)
    ensures IsLargest(Max(space, move(n + 1)), n + 1, move)
  {
    var more := Max(space, move(n + 1));
    if more == space && space != 0.0 {
      var i: nat :| 1 <= i <= n && move(i) == space;
      assert move(i) == more;
    }
    forall i: nat | 1 <= i <= n + 1 ensures move(i) <= more {
      if i <= n { assert move(i) <= space; }
    }
  }

  lemma {:induction false} SpacesAreLargest(bars: seq<Bar>, index: nat, n: nat, log: real -> real)
    requires ValidBars(bars) && index + n < |bars|
    ensures IsLargest(UpSpace(bars, index, n, log), n, Rise(bars, index, log))
    ensures IsLargest(DownSpace(bars, index, n, log), n, Fall(bars, index, log))
  {
    hide ValidBars, IsLargest;
    ValidPrices(bars);
    if n == 0 {
      NoMoves(Rise(bars, index, log));
      NoMoves(Fall(bars, index, log));
    } else {
      SpacesAreLargest(bars, index, n - 1, log);
      LargestGrows(UpSpace(bars, index, n - 1, log), n - 1, Rise(bars, index, log));
      LargestGrows(DownSpace(bars, index, n - 1, log), n - 1, Fall(bars, index, log));
    }
  }

  lemma NoMoves(move: nat -> real)
    ensures IsLargest(0.0, 0, move)
  {
  }

  /** A target is up exactly when the close at its horizon is higher; its spaces are the largest log rise and fall within it, zero or attained. */
  lemma TargetMeans(bars: seq<Bar>, index: nat, horizon: nat, m: Measures)
    requires ValidBars(bars) && index + horizon < |bars|
    ensures var t := TargetAt(bars, index, horizon, m);
            && t.index == index && t.timeMs == bars[index].openTime && t.horizon == horizon
            && t.futureActivity == m.future(bars[index].close, bars[index + 1..index + 1 + horizon])
            && (t.directionUp <==> bars[index + horizon].close > bars[index].close)
            && IsLargest(t.upSpace, horizon, Rise(bars, index, m.log)) && IsLargest(t.downSpace, horizon, Fall(bars, index, m.log))
            && t.totalSpace == t.upSpace + t.downSpace
  {
    hide ValidBars, UpSpace, DownSpace, IsLargest, Rise, Fall, CausalMedian, Normalized;
    SpacesAreLargest(bars, index, horizon, m.log);
  }

  /** Normalised spaces are the spaces in units of the causal median, zero without one. */
  lemma NormalizedTargetMeans(bars: seq<Bar>, index: nat, horizon: nat, m: Measures)
    requires ValidBars(bars) && index + horizon < |bars|
    ensures var t := TargetAt(bars, index, horizon, m);
            if t.causalMedian.Some? then
              && t.causalMedian.value > 0.0
              && t.normalizedUp * t.causalMedian.value == t.upSpace && t.normalizedDown * t.causalMedian.value == t.downSpace
            else t.normalizedUp == 0.0 == t.normalizedDown
  {
    hide ValidBars, UpSpace, DownSpace, CausalMedian, Normalized;
    ValidPrices(bars);
    CausalMedianPositive(bars, index, horizon, m.log);
    var median := CausalMedian(bars, index, horizon, m.log);
    NormalizedMeans(UpSpace(bars, index, horizon, m.log), median);
    NormalizedMeans(DownSpace(bars, index, horizon, m.log), median);
  }

  /** The causal median is that of the total spaces of the targets whose horizon has passed by the index. */
  lemma CausalMedianMeans(bars: seq<Bar>, index: nat, horizon: nat, m: Measures)
    requires ValidBars(bars) && index < |bars|
    ensures CausalMedian(bars, index, horizon, m.log) == PositiveMedian(PassedTotals(bars, index, horizon, m))
  {
    hide ValidBars, PositiveMedian, TargetAt, TotalSpace;
    forall j: nat | j + horizon <= index ensures TargetAt(bars, j, horizon, m).totalSpace == TotalSpace(bars, j, horizon, m.log) {
      TargetTotal(bars, j, horizon, m);
    }
    assert CompletedTotals(bars, index, horizon, m.log) == PassedTotals(bars, index, horizon, m);
  }

  ghost function PassedTotals(bars: seq<Bar>, index: nat, horizon: nat, m: Measures): seq<real>
    requires ValidBars(bars) && index < |bars|
  {
    var passed: nat := if horizon <= index then index + 1 - horizon else 0;
    seq(passed, j requires 0 <= j < passed => TargetAt(bars, j, horizon, m).totalSpace)
  }

  lemma CausalMedianPositive(bars: seq<Bar>, index: nat, horizon: nat, log: real -> real)
    requires ValidBars(bars) && index < |bars|
    ensures CausalMedian(bars, index, horizon, log).Some? ==> CausalMedian(bars, index, horizon, log).value > 0.0
  {
    hide ValidBars, CompletedTotals, PositiveMedian, Between;
    if CausalMedian(bars, index, horizon, log).Some? { MedianBetween(CompletedTotals(bars, index, horizon, log)); }
  }

  lemma NormalizedMeans(space: real, median: Option<real>)
    requires median.Some? ==> median.value > 0.0
    ensures median.Some? ==> Normalized(space, median) * median.value == space
    ensures median.None? ==> Normalized(space, median) == 0.0
  {
    if median.Some? { QuotientTimes(space, median.value); }
  }

  // ----- no look-ahead in targets

  lemma {:induction false} SpacesAreLocal(bars: seq<Bar>, other: seq<Bar>, index: nat, n: nat, log: real -> real)
    requires ValidBars(bars) && ValidBars(other) && index + n < |bars| && index + n < |other|
    requires bars[..index + n + 1] == other[..index + n + 1]
    ensures UpSpace(bars, index, n, log) == UpSpace(other, index, n, log)
    ensures DownSpace(bars, index, n, log) == DownSpace(other, index, n, log)
  {
    hide ValidBars;
    assert bars[index] == bars[..index + n + 1][index] == other[index];
    assert bars[index + n] == bars[..index + n + 1][index + n] == other[index + n];
    ValidPrices(bars);
    ValidPrices(other);
    if n > 0 {
      assert bars[..index + n] == bars[..index + n + 1][..index + n];
      assert other[..index + n] == other[..index + n + 1][..index + n];
      SpacesAreLocal(bars, other, index, n - 1, log);
    }
  }

  lemma ValidPrices(bars: seq<Bar>)
    requires ValidBars(bars)
    ensures forall i :: 0 <= i < |bars| ==> bars[i].close != 0.0 && bars[i].low != 0.0
  {
  }

  lemma SamePrefix(bars: seq<Bar>, other: seq<Bar>, n: nat, k: nat)
    requires k <= n <= |bars| && n <= |other| && bars[..n] == other[..n]
    ensures bars[..k] == other[..k]
  {
    assert bars[..k] == bars[..n][..k] && other[..k] == other[..n][..k];
  }

  /** No look-ahead: bars after an index cannot change the causal median at that index. */
  lemma CausalMedianIsCausal(bars: seq<Bar>, other: seq<Bar>, index: nat, horizon: nat, log: real -> real)
    requires ValidBars(bars) && ValidBars(other) && index < |bars| && index < |other|
    requires bars[..index + 1] == other[..index + 1]
    ensures CausalMedian(bars, index, horizon, log) == CausalMedian(other, index, horizon, log)
  {
    hide ValidBars, UpSpace, DownSpace, PositiveMedian;
    var a, b := CompletedTotals(bars, index, horizon, log), CompletedTotals(other, index, horizon, log);
    forall j | 0 <= j < |a| ensures a[j] == b[j] {
      SamePrefix(bars, other, index + 1, j + horizon + 1);
      SpacesAreLocal(bars, other, j, horizon, log);
    }
    assert a == b;
  }

  /** A target looks no further than its horizon. */
  lemma TargetIsLocal(bars: seq<Bar>, other: seq<Bar>, index: nat, horizon: nat, m: Measures)
    requires ValidBars(bars) && ValidBars(other) && index + horizon < |bars| && index + horizon < |other|
    requires bars[..index + horizon + 1] == other[..index + horizon + 1]
    ensures TargetAt(bars, index, horizon, m) == TargetAt(other, index, horizon, m)
  {
    hide ValidBars, UpSpace, DownSpace, CausalMedian;
    SpacesAreLocal(bars, other, index, horizon, m.log);
    SamePrefix(bars, other, index + horizon + 1, index + 1);
    CausalMedianIsCausal(bars, other, index, horizon, m.log);
    assert bars[index] == bars[..index + horizon + 1][index] == other[index];
    assert bars[index + horizon] == bars[..index + horizon + 1][index + horizon] == other[index + horizon];
    assert bars[index + 1..index + horizon + 1] == bars[..index + horizon + 1][index + 1..];
    assert other[index + 1..index + horizon + 1] == other[..index + horizon + 1][index + 1..];
  }

  // ----- feature points

  datatype Unavailability = InsufficientLookback | ActivityUnavailable | CausalHistoryMedianUnavailable

  datatype FeaturePoint = FeaturePoint(index: nat, timeMs: int, lookback: nat, activity: Option<ActivityVector>, sequence: seq<seq<real>>,
                                       historyRatio: seq<Option<real>>, unavailable: Option<Unavailability>)

  /** One metric of every vector. */
  function Picked(history: seq<ActivityVector>, name: string): seq<real> {
    seq(|history|, i requires 0 <= i < |history| => MetricValue(history[i], name))
  }

  /** A value relative to the median of the history; none without a positive history. */
  function RatioToMedian(current: real, history: seq<ActivityVector>, name: string): Option<real> {
    var median := PositiveMedian(Picked(history, name));
    if median.Some? && median.value != 0.0 then Some(current / median.value) else None
  }

  function ActivityRatios(current: ActivityVector, history: seq<ActivityVector>): (r: seq<Option<real>>)
    ensures |r| == METRICS
  {
    seq(METRICS, i requires 0 <= i < METRICS => RatioToMedian(MetricValue(current, METRIC_NAMES[i]), history, METRIC_NAMES[i]))
  }

  /** Means and ranges are positive, deviations are not negative. */
  predicate ValidMetric(i: nat, value: real) {
    if i == 1 || i == 3 then value >= 0.0 else value > 0.0
  }

  predicate ActivityValid(v: ActivityVector) {
    v.trMean > 0.0 && v.trStdDev >= 0.0 && v.highLowMean > 0.0 && v.highLowStdDev >= 0.0 && v.parkinson > 0.0 && v.yangZhang > 0.0
  }

  predicate RatiosValid(r: seq<Option<real>>) {
    forall i :: 0 <= i < |r| ==> r[i].Some? && ValidMetric(i, r[i].value)
  }

  /** The window of bars that ends at an index. */
  function WindowAt(bars: seq<Bar>, index: nat, lookback: nat): seq<Bar>
    requires lookback <= index + 1 <= |bars|
  {
    bars[index - lookback + 1..index + 1]
  }

  /** The activities that were available before an index, in order. */
  ghost function HistoryBefore(bars: seq<Bar>, lookback: nat, m: Measures, index: nat): seq<ActivityVector>
    requires index <= |bars|
  {
    if index == 0 then []
    else
      HistoryBefore(bars, lookback, m, index - 1)
      + if index >= lookback && m.activity(WindowAt(bars, index - 1, lookback)).Some? then [m.activity(WindowAt(bars, index - 1, lookback)).value] else []
  }

  ghost function FeatureAt(bars: seq<Bar>, lookback: nat, includeSequence: bool, m: Measures, index: nat): FeaturePoint
    requires index < |bars|
  {
    var time := bars[index].openTime;
    if index + 1 < lookback then FeaturePoint(index, time, lookback, None, [], [], Some(InsufficientLookback))
    else
      var window := WindowAt(bars, index, lookback);
      var activity := m.activity(window);
      if activity.None? then FeaturePoint(index, time, lookback, None, [], [], Some(ActivityUnavailable))
      else
        var ratios := ActivityRatios(activity.value, HistoryBefore(bars, lookback, m, index));
        FeaturePoint(index, time, lookback, activity, if includeSequence then m.sequence(window) else [], ratios,
                     if ActivityValid(activity.value) && RatiosValid(ratios) then None else Some(CausalHistoryMedianUnavailable))
  }

  /** The feature point of one index, and the history with its activity. */
  method BuildFeaturePoint(bars: seq<Bar>, lookback: nat, includeSequence: bool, m: Measures, index: nat, history: seq<ActivityVector>)
    returns (point: FeaturePoint, later: seq<ActivityVector>)
    requires index < |bars| && history == HistoryBefore(bars, lookback, m, index)
    ensures point == FeatureAt(bars, lookback, includeSequence, m, index)
    ensures later == HistoryBefore(bars, lookback, m, index + 1)
  {
    hide ActivityRatios, ActivityValid, RatiosValid;
    var time := bars[index].openTime;
    later := history;
    if index + 1 < lookback {
      point := FeaturePoint(index, time, lookback, None, [], [], Some(InsufficientLookback));
      return;
    }
    var window := WindowAt(bars, index, lookback);
    var activity := m.activity(window);
    if activity.None? {
      point := FeaturePoint(index, time, lookback, None, [], [], Some(ActivityUnavailable));
      return;
    }
    var sequence := if includeSequence then m.sequence(window) else [];
    var ratios := ActivityRatios(activity.value, history);
    var available := ActivityValid(activity.value) && RatiosValid(ratios);
    point := FeaturePoint(index, time, lookback, activity, sequence, ratios, if available then None else Some(CausalHistoryMedianUnavailable));
    later := history + [activity.value];
  }

  method BuildFeaturePoints(bars: seq<Bar>, lookback: int, includeSequence: bool, m: Measures) returns (r: Result<seq<FeaturePoint>, TargetError>)
    ensures r.Err? <==> lookback < 2 || !ValidBars(bars)
    ensures r.Ok? ==> |r.value| == |bars| && forall i :: 0 <= i < |bars| ==> r.value[i] == FeatureAt(bars, lookback, includeSequence, m, i)
  {
    hide ValidBars, FeatureAt;
    if lookback < 2 {
      return Err(LookbackTooShort);
    }
    var problem := ValidateBars(bars);
    if problem.Some? {
      return Err(problem.value);
    }
    var result: seq<FeaturePoint> := [];
    var history: seq<ActivityVector> := [];
    for index := 0 to |bars|
      invariant |result| == index && forall i :: 0 <= i < index ==> result[i] == FeatureAt(bars, lookback, includeSequence, m, i)
      invariant history == HistoryBefore(bars, lookback, m, index)
    {
      var point, later := BuildFeaturePoint(bars, lookback, includeSequence, m, index, history);
      result, history := result + [point], later;
    }
    r := Ok(result);
  }

  // ----- what a feature point says

  /** The history at an index holds the activity of every window that ended before it and had one, and no other. */
  lemma {:induction false} HistoryMeans(bars: seq<Bar>, lookback: nat, m: Measures, index: nat, v: ActivityVector)
    requires index <= |bars|
    ensures v in HistoryBefore(bars, lookback, m, index) <==> exists j: nat :: EndsWith(bars, lookback, m, index, j, v)
  {
    hide EndsWith, HistoryBefore;
    if index == 0 {
      NoHistory(bars, lookback, m, v);
    } else {
      HistoryMeans(bars, lookback, m, index - 1, v);
      HistoryStep(bars, lookback, m, index, v);
      if v in HistoryBefore(bars, lookback, m, index - 1) {
        var j: nat :| EndsWith(bars, lookback, m, index - 1, j, v);
        EndsEarlier(bars, lookback, m, index, j, v);
      }
      if j: nat :| EndsWith(bars, lookback, m, index, j, v) { EndsEarlier(bars, lookback, m, index, j, v); }
    }
  }

  lemma NoHistory(bars: seq<Bar>, lookback: nat, m: Measures, v: ActivityVector)
    ensures HistoryBefore(bars, lookback, m, 0) == [] && forall j: nat :: !EndsWith(bars, lookback, m, 0, j, v)
  {
  }

  lemma HistoryStep(bars: seq<Bar>, lookback: nat, m: Measures, index: nat, v: ActivityVector)
    requires 0 < index <= |bars|
    ensures v in HistoryBefore(bars, lookback, m, index)
       <==> v in HistoryBefore(bars, lookback, m, index - 1) || EndsWith(bars, lookback, m, index, index - 1, v)
  {
  }

  lemma EndsEarlier(bars: seq<Bar>, lookback: nat, m: Measures, index: nat, j: nat, v: ActivityVector)
    requires 0 < index <= |bars|
    ensures EndsWith(bars, lookback, m, index, j, v)
       <==> EndsWith(bars, lookback, m, index - 1, j, v) || (j == index - 1 && EndsWith(bars, lookback, m, index, index - 1, v))
  {
  }

  /** A full window that ends at a bar before the index has that activity. */
  ghost predicate EndsWith(bars: seq<Bar>, lookback: nat, m: Measures, index: nat, j: nat, v: ActivityVector)
    requires index <= |bars|
  {
    j < index && lookback <= j + 1 && m.activity(bars[j + 1 - lookback..j + 1]) == Some(v)
  }

  /** The ratios of an available point are its metrics in units of the medians of their earlier positive values. */
  lemma FeatureMeans(bars: seq<Bar>, lookback: nat, includeSequence: bool, m: Measures, index: nat, i: nat)
    requires index < |bars| && FeatureAt(bars, lookback, includeSequence, m, index).unavailable.None? && i < METRICS
    ensures var p, history := FeatureAt(bars, lookback, includeSequence, m, index), HistoryBefore(bars, lookback, m, index);
            && p.index == index && p.timeMs == bars[index].openTime && lookback <= index + 1
            && p.activity == m.activity(bars[index + 1 - lookback..index + 1]) && p.activity.Some?
            && |p.historyRatio| == METRICS && p.historyRatio[i].Some?
            && var median := PositiveMedian(Picked(history, METRIC_NAMES[i]));
               median.Some? && median.value > 0.0
               && p.historyRatio[i].value * median.value == MetricValue(p.activity.value, METRIC_NAMES[i])
  {
    hide PositiveMedian, ActivityValid, HistoryBefore, Picked, MetricValue, ValidMetric, RatioToMedian;
    var p, history := FeatureAt(bars, lookback, includeSequence, m, index), HistoryBefore(bars, lookback, m, index);
    assert p.historyRatio[i].Some?;
    RatioMeans(MetricValue(p.activity.value, METRIC_NAMES[i]), history, METRIC_NAMES[i]);
  }

  /** A ratio is the value in units of the median of the earlier positive ones. */
  lemma RatioMeans(current: real, history: seq<ActivityVector>, name: string)
    requires RatioToMedian(current, history, name).Some?
    ensures var median := PositiveMedian(Picked(history, name));
            median.Some? && median.value > 0.0 && RatioToMedian(current, history, name).value * median.value == current
  {
    hide PositiveMedian, Picked;
    MedianBetween(Picked(history, name));
    QuotientTimes(current, PositiveMedian(Picked(history, name)).value);
  }

  lemma {:induction false} HistoryIsCausal(bars: seq<Bar>, other: seq<Bar>, lookback: nat, m: Measures, index: nat)
    requires index <= |bars| && index <= |other| && bars[..index] == other[..index]
    ensures HistoryBefore(bars, lookback, m, index) == HistoryBefore(other, lookback, m, index)
  {
    if index > 0 {
      SamePrefix(bars, other, index, index - 1);
      HistoryIsCausal(bars, other, lookback, m, index - 1);
      if index >= lookback { SameWindow(bars, other, index - 1, lookback); }
    }
  }

  lemma SameWindow(bars: seq<Bar>, other: seq<Bar>, index: nat, lookback: nat)
    requires lookback <= index + 1 <= |bars| && index + 1 <= |other| && bars[..index + 1] == other[..index + 1]
    ensures WindowAt(bars, index, lookback) == WindowAt(other, index, lookback)
  {
    assert bars[index - lookback + 1..index + 1] == bars[..index + 1][index - lookback + 1..];
    assert other[index - lookback + 1..index + 1] == other[..index + 1][index - lookback + 1..];
  }

  /** No look-ahead: bars after an index cannot change the feature point at that index. */
  lemma FeatureIsCausal(bars: seq<Bar>, other: seq<Bar>, lookback: nat, includeSequence: bool, m: Measures, index: nat)
    requires index < |bars| && index < |other| && bars[..index + 1] == other[..index + 1]
    ensures FeatureAt(bars, lookback, includeSequence, m, index) == FeatureAt(other, lookback, includeSequence, m, index)
  {
    hide ActivityRatios, ActivityValid, RatiosValid;
    assert bars[index] == bars[..index + 1][index] == other[index];
    SamePrefix(bars, other, index + 1, index);
    HistoryIsCausal(bars, other, lookback, m, index);
    if index + 1 >= lookback { SameWindow(bars, other, index, lookback); }
  }
}
