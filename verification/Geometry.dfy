/**
  Causal trend geometry (internal/dynamicparam/geometry.go): the area of the OHLC envelope of a
  window, computed afresh or in a reused workspace, and the least-squares slope of its closes.
 */
module Geometry {
  import opened Wrappers
  import opened RealMath
  import opened Sums
  import opened Quant
  import opened Hull
  import LeastSquares

  datatype GeometryError = InvalidBar(index: nat) | Unordered | TooShort | LookbackTooShort

  // ----- validated windows

  predicate ValidOhlc(bar: Bar) {
    && bar.openTime > 0
    && bar.open > 0.0 && bar.high > 0.0 && bar.low > 0.0 && bar.close > 0.0
    && bar.high >= Max(bar.open, bar.close)
    && bar.low <= Min(bar.open, bar.close)
  }

  predicate ValidBars(bars: seq<Bar>) {
    && (forall i :: 0 <= i < |bars| ==> ValidOhlc(bars[i]))
    && (forall i :: 0 < i < |bars| ==> bars[i - 1].openTime < bars[i].openTime)
  }

  method ValidateGeometryBars(bars: seq<Bar>) returns (r: Option<GeometryError>)
    ensures r == None <==> ValidBars(bars)
    ensures r.Some? && r.value.InvalidBar? ==> r.value.index < |bars| && !ValidOhlc(bars[r.value.index]) && ValidBars(bars[..r.value.index])
    ensures r.Some? ==> r.value.InvalidBar? || r.value.Unordered?
  {
    for index := 0 to |bars|
      invariant ValidBars(bars[..index])
    {
      if !ValidOhlc(bars[index]) {
        assert bars[..index] <= bars;
        return Some(InvalidBar(index));
      }
      if index > 0 && bars[index].openTime <= bars[index - 1].openTime {
        return Some(Unordered);
      }
    }
    assert bars[..|bars|] == bars;
    r := None;
  }

  // ----- the points of a window

  /** The (index, low) and (index, high) points of the first n bars. */
  function WindowPoints(bars: seq<Bar>, n: nat): (points: seq<Point>)
    requires n <= |bars|
    ensures |points| == 2 * n
  {
    if n == 0 then []
    else WindowPoints(bars, n - 1) + [Point((n - 1) as real, bars[n - 1].low), Point((n - 1) as real, bars[n - 1].high)]
  }

  /** Non-strict scanning order, the order of the library sort. */
  predicate Upto(a: Point, b: Point) {
    a == b || Ahead(false, a, b)
  }

  ghost predicate Sorted(s: seq<Point>) {
    forall i, j :: 0 <= i <= j < |s| ==> Upto(s[i], s[j])
  }

  /** Library sort by x and then y, modelled by insertion; any sort gives the same result. */
  function InsertPoint(p: Point, s: seq<Point>): (t: seq<Point>)
    ensures multiset(t) == multiset(s) + multiset{p}
  {
    if |s| == 0 || Upto(p, s[0]) then [p] + s
    else
      assert s == [s[0]] + s[1..];
      [s[0]] + InsertPoint(p, s[1..])
  }

  function SortPoints(s: seq<Point>): (t: seq<Point>)
    ensures multiset(t) == multiset(s)
  {
    if |s| == 0 then []
    else
      assert s == [s[0]] + s[1..];
      InsertPoint(s[0], SortPoints(s[1..]))
  }

  lemma {:induction false} SortedIsFixed(s: seq<Point>)
    requires Sorted(s)
    ensures SortPoints(s) == s
  {
    hide Ahead;
    if |s| > 0 {
      assert Sorted(s[1..]);
      SortedIsFixed(s[1..]);
      if |s| > 1 { assert Upto(s[0], s[1]); }
    }
  }

  /** A sorted rearrangement is unique, whatever the sorting algorithm. */
  lemma {:induction false} SortedIsUnique(s: seq<Point>, t: seq<Point>)
    requires Sorted(s) && Sorted(t) && multiset(s) == multiset(t)
    ensures s == t
    decreases |s|
  {
    hide Ahead;
    assert |s| == |multiset(s)| == |multiset(t)| == |t|;
    if |s| > 0 {
      assert s[0] in multiset(t) && t[0] in multiset(s);
      var i :| 0 <= i < |t| && t[i] == s[0];
      var j :| 0 <= j < |s| && s[j] == t[0];
      assert Upto(t[0], t[i]) && Upto(s[0], s[j]);
      AheadTotal(false, s[0], t[0]);
      assert s == [s[0]] + s[1..] && t == [t[0]] + t[1..];
      assert s[0] == t[0];
      assert multiset(s) == multiset(s[1..]) + multiset{s[0]};
      assert multiset(t) == multiset(t[1..]) + multiset{t[0]};
      SameAfterRemoval(multiset(s[1..]), multiset(t[1..]), s[0]);
      SortedIsUnique(s[1..], t[1..]);
    }
  }

  /** Consecutive repetitions dropped from the first n points. */
  function Distinct(s: seq<Point>, n: nat): (u: seq<Point>)
    requires n <= |s|
    ensures n > 0 ==> |u| > 0 && u[|u| - 1] == s[n - 1]
  {
    if n == 0 then []
    else
      var u := Distinct(s, n - 1);
      if |u| == 0 || s[n - 1] != u[|u| - 1] then u + [s[n - 1]] else u
  }

  lemma {:induction false} DistinctIsOrdered(s: seq<Point>, n: nat)
    requires Sorted(s) && n <= |s|
    ensures Ordered(false, Distinct(s, n))
    ensures forall k :: 0 <= k < n ==> s[k] in Distinct(s, n)
    ensures forall p :: p in Distinct(s, n) ==> p in s
  {
    hide Ahead;
    if n > 0 {
      DistinctIsOrdered(s, n - 1);
      var u := Distinct(s, n - 1);
      if |u| > 0 && s[n - 1] != u[|u| - 1] {
        assert Upto(s[n - 2], s[n - 1]);
        forall i | 0 <= i < |u|
          ensures Ahead(false, u[i], s[n - 1])
        {
          if i < |u| - 1 { AheadTransitive(false, u[i], u[|u| - 1], s[n - 1]); }
        }
      }
    }
  }

  lemma {:induction false} WindowPointAt(bars: seq<Bar>, n: nat, k: nat)
    requires n <= |bars| && k < n
    ensures WindowPoints(bars, n)[2 * k] == Point(k as real, bars[k].low)
    ensures WindowPoints(bars, n)[2 * k + 1] == Point(k as real, bars[k].high)
  {
    if k < n - 1 { WindowPointAt(bars, n - 1, k); }
  }

  lemma {:induction false} WindowPrefixSorted(bars: seq<Bar>, n: nat)
    requires ValidBars(bars) && n <= |bars|
    ensures Sorted(WindowPoints(bars, n))
    ensures forall i :: 0 <= i < 2 * n ==> WindowPoints(bars, n)[i].x <= n as real - 1.0
  {
    if n > 0 {
      WindowPrefixSorted(bars, n - 1);
      assert ValidOhlc(bars[n - 1]);
    }
  }

  lemma WindowPointsSorted(bars: seq<Bar>)
    requires ValidBars(bars)
    ensures Sorted(WindowPoints(bars, |bars|))
  {
    WindowPrefixSorted(bars, |bars|);
  }

  /** The distinct low and high points of a window, in scanning order. */
  function Outline(bars: seq<Bar>): seq<Point> {
    Distinct(WindowPoints(bars, |bars|), 2 * |bars|)
  }

  /** The envelope of a window: the hull of its low and high points. */
  function Envelope(bars: seq<Bar>): seq<Point> {
    HullOf(Outline(bars))
  }

  lemma OutlineIsOrdered(bars: seq<Bar>)
    requires ValidBars(bars)
    ensures Ordered(false, Outline(bars))
    ensures |bars| >= 1 ==> |Outline(bars)| >= 1
    ensures |bars| >= 2 ==> |Outline(bars)| >= 2
    ensures forall k :: 0 <= k < |bars| ==> Point(k as real, bars[k].low) in Outline(bars) && Point(k as real, bars[k].high) in Outline(bars)
  {
    var points := WindowPoints(bars, |bars|);
    WindowPointsSorted(bars);
    DistinctIsOrdered(points, |points|);
    forall k | 0 <= k < |bars|
      ensures Point(k as real, bars[k].low) in Outline(bars) && Point(k as real, bars[k].high) in Outline(bars)
    {
      WindowPointAt(bars, |bars|, k);
      assert points[2 * k] in Distinct(points, |points|) && points[2 * k + 1] in Distinct(points, |points|);
    }
    if |bars| >= 2 {
      TwoMembers(Outline(bars), Point(0.0, bars[0].low), Point(1.0, bars[1].low));
    }
  }

  lemma TwoMembers(s: seq<Point>, p: Point, q: Point)
    requires p in s && q in s && p != q
    ensures |s| >= 2
  {
  }

  /**
    The envelope of every validated window of at least two bars encloses each bar's low and high;
    with three vertices or more it is strictly convex, and its vertices are lows and highs.
   */
  lemma EnvelopeEncloses(bars: seq<Bar>, i: nat, k: nat)
    requires ValidBars(bars) && |bars| >= 2 && i < |Envelope(bars)| && k < |bars|
    ensures var hull := Envelope(bars);
            var a, b := hull[i], hull[Next(i, |hull|)];
            Cross(a, b, Point(k as real, bars[k].low)) >= 0.0 && Cross(a, b, Point(k as real, bars[k].high)) >= 0.0
    ensures exists j :: 0 <= j < |bars| && (Envelope(bars)[i] == Point(j as real, bars[j].low) || Envelope(bars)[i] == Point(j as real, bars[j].high))
    ensures |Envelope(bars)| >= 3 ==> StrictlyConvex(Envelope(bars))
  {
    hide Cross, HullOf, StrictlyConvex, WindowPoints, Distinct;
    var unique := Outline(bars);
    OutlineIsOrdered(bars);
    HullEncloses(unique);
    if |Envelope(bars)| >= 3 { HullStrictlyConvex(unique); }
    var low, high := Point(k as real, bars[k].low), Point(k as real, bars[k].high);
    assert low in unique && high in unique;
    var l :| 0 <= l < |unique| && unique[l] == low;
    var h :| 0 <= h < |unique| && unique[h] == high;
    assert Cross(Envelope(bars)[i], Envelope(bars)[Next(i, |Envelope(bars)|)], unique[l]) >= 0.0;
    assert Cross(Envelope(bars)[i], Envelope(bars)[Next(i, |Envelope(bars)|)], unique[h]) >= 0.0;
    WindowPointsSorted(bars);
    DistinctIsOrdered(WindowPoints(bars, |bars|), 2 * |bars|);
    assert Envelope(bars)[i] in unique;
    WindowPointIs(bars, |bars|, Envelope(bars)[i]);
  }

  /** A window point is the low or the high of a bar. */
  lemma {:induction false} WindowPointIs(bars: seq<Bar>, n: nat, p: Point)
    requires n <= |bars| && p in WindowPoints(bars, n)
    ensures exists j :: 0 <= j < n && (p == Point(j as real, bars[j].low) || p == Point(j as real, bars[j].high))
  {
    if p in WindowPoints(bars, n - 1) { WindowPointIs(bars, n - 1, p); }
  }

  // ----- the loops

  method BuildChain(input: seq<Point>) returns (result: seq<Point>)
    ensures result == MonotoneChain(input)
  {
    result := [];
    for index := 0 to |input|
      invariant result == MonotoneChain(input[..index])
    {
      var point := input[index];
      assert input[..index + 1][..index] == input[..index];
      while |result| >= 2 && Cross(result[|result| - 2], result[|result| - 1], point) <= 0.0
        invariant Push(result, point) == MonotoneChain(input[..index + 1])
        decreases |result|
      {
        result := result[..|result| - 1];
      }
      result := result + [point];
    }
    assert input[..|input|] == input;
  }

  method DropRepeats(points: seq<Point>) returns (unique: seq<Point>)
    ensures unique == Distinct(points, |points|)
  {
    unique := [];
    for index := 0 to |points|
      invariant unique == Distinct(points, index)
    {
      if |unique| == 0 || points[index] != unique[|unique| - 1] {
        unique := unique + [points[index]];
      }
    }
  }

  /** Sorts, drops repetitions and joins the two chains. */
  method GeometryHull(points: seq<Point>) returns (hull: seq<Point>)
    ensures var sorted := SortPoints(points); hull == HullOf(Distinct(sorted, |sorted|))
  {
    hide Cross;
    var ordered := SortPoints(points);
    var unique := DropRepeats(ordered);
    if |unique| <= 1 {
      return unique;
    }
    var lower := BuildChain(unique);
    var reverse := [];
    for i := 0 to |unique|
      invariant |reverse| == i
      invariant forall k :: 0 <= k < i ==> reverse[k] == unique[|unique| - 1 - k]
    {
      reverse := reverse + [unique[|unique| - 1 - i]];
    }
    assert reverse == Backwards(unique);
    var upper := BuildChain(reverse);
    hull := lower[..|lower| - 1] + upper[..|upper| - 1];
  }

  /** Shoelace area of a polygon; zero below three vertices. */
  method ShoelaceArea(hull: seq<Point>) returns (area: real)
    ensures area == PolygonArea(hull)
  {
    if |hull| < 3 {
      return 0.0;
    }
    var sum := 0.0;
    for index := 0 to |hull|
      invariant sum == Shoelace(hull, index)
    {
      NextIsModulo(index, |hull|);
      var point, next := hull[index], hull[(index + 1) % |hull|];
      sum := sum + (point.x * next.y - next.x * point.y);
    }
    area := Abs(sum) / 2.0;
  }

  /** The cyclic successor is the index arithmetic of the source. */
  lemma NextIsModulo(i: nat, n: nat)
    requires i < n
    ensures Next(i, n) == (i + 1) % n
  {
  }

  method ConvexHullArea(bars: seq<Bar>) returns (r: Result<real, GeometryError>)
    ensures r.Ok? <==> ValidBars(bars) && |bars| >= 2
    ensures r == Err(TooShort) <==> ValidBars(bars) && |bars| < 2
    ensures r.Ok? ==> r.value == PolygonArea(Envelope(bars))
    ensures r.Ok? ==> r.value >= 0.0 && (r.value == 0.0 <==> Collinear(Outline(bars)))
  {
    hide Cross, PolygonArea, HullOf;
    var invalid := ValidateGeometryBars(bars);
    if invalid.Some? {
      return Err(invalid.value);
    }
    if |bars| < 2 {
      return Err(TooShort);
    }
    var points := [];
    for index := 0 to |bars|
      invariant points == WindowPoints(bars, index)
    {
      points := points + [Point(index as real, bars[index].low)];
      points := points + [Point(index as real, bars[index].high)];
    }
    WindowPointsSorted(bars);
    SortedIsFixed(points);
    var hull := GeometryHull(points);
    var area := ShoelaceArea(hull);
    OutlineIsOrdered(bars);
    AreaOfHull(Outline(bars));
    r := Ok(area);
  }

  class GeometryWorkspace {
    var points: seq<Point>
    var unique: seq<Point>
    var lower: seq<Point>
    var upper: seq<Point>
    var hull: seq<Point>

    constructor ()
      ensures points == unique == lower == upper == hull == []
    {
      points, unique, lower, upper, hull := [], [], [], [], [];
    }

    method CollectPoints(bars: seq<Bar>)
      modifies `points
      ensures points == WindowPoints(bars, |bars|)
    {
      points := [];
      for index := 0 to |bars|
        invariant points == WindowPoints(bars, index)
      {
        points := points + [Point(index as real, bars[index].low), Point(index as real, bars[index].high)];
      }
    }

    method KeepDistinct()
      modifies `unique
      ensures unique == Distinct(points, |points|)
    {
      unique := [];
      for index := 0 to |points|
        invariant unique == Distinct(points, index)
      {
        if |unique| == 0 || points[index] != unique[|unique| - 1] {
          unique := unique + [points[index]];
        }
      }
    }

    method ScanLower()
      modifies `lower
      ensures lower == MonotoneChain(unique)
    {
      lower := [];
      for index := 0 to |unique|
        invariant lower == MonotoneChain(unique[..index])
      {
        var point := unique[index];
        assert unique[..index + 1][..index] == unique[..index];
        while |lower| >= 2 && Cross(lower[|lower| - 2], lower[|lower| - 1], point) <= 0.0
          invariant Push(lower, point) == MonotoneChain(unique[..index + 1])
          decreases |lower|
        {
          lower := lower[..|lower| - 1];
        }
        lower := lower + [point];
      }
      assert unique[..|unique|] == unique;
    }

    method ScanUpper()
      modifies `upper
      ensures upper == MonotoneChain(Backwards(unique))
    {
      ghost var reverse := Backwards(unique);
      upper := [];
      var index := |unique|;
      while index > 0
        invariant 0 <= index <= |unique|
        invariant upper == MonotoneChain(reverse[..|unique| - index])
      {
        index := index - 1;
        var point := unique[index];
        ghost var done := |unique| - index;
        assert reverse[..done][..done - 1] == reverse[..done - 1] && reverse[..done][done - 1] == point;
        while |upper| >= 2 && Cross(upper[|upper| - 2], upper[|upper| - 1], point) <= 0.0
          invariant Push(upper, point) == MonotoneChain(reverse[..done])
          decreases |upper|
        {
          upper := upper[..|upper| - 1];
        }
        upper := upper + [point];
      }
      assert reverse[..|unique|] == reverse;
    }

    /**
      The envelope area of a validated window, in buffers reused from window to window: the same
      value `ConvexHullArea` computes, whatever the buffers held before.
     */
    method ConvexHullAreaOrdered(bars: seq<Bar>) returns (area: real)
      requires |bars| >= 1
      modifies this
      ensures area == PolygonArea(Envelope(bars))
      ensures hull == if |unique| <= 1 then [] else Envelope(bars)
      ensures unique == Outline(bars)
    {
      hide Cross, MonotoneChain, PolygonArea, WindowPoints, Distinct;
      CollectPoints(bars);
      OutlineNotEmpty(bars);
      KeepDistinct();
      ScanLower();
      ScanUpper();
      ChainsNotEmpty(unique);
      hull := lower[..|lower| - 1];
      hull := hull + upper[..|upper| - 1];
      FlatAreas(unique);
      area := ShoelaceArea(hull);
    }
  }

  lemma OutlineNotEmpty(bars: seq<Bar>)
    requires |bars| >= 1
    ensures |Outline(bars)| >= 1
  {
  }

  lemma ChainsNotEmpty(s: seq<Point>)
    requires |s| >= 1
    ensures |MonotoneChain(s)| >= 1 && |MonotoneChain(Backwards(s))| >= 1
    ensures |s| == 1 ==> |MonotoneChain(s)| == 1 && |MonotoneChain(Backwards(s))| == 1
  {
    if |s| == 1 { SingletonChains(s); }
  }

  lemma FlatAreas(s: seq<Point>)
    ensures |s| <= 1 ==> PolygonArea(HullOf(s)) == 0.0 && PolygonArea([]) == 0.0
  {
  }

  lemma SingletonChains(s: seq<Point>)
    requires |s| == 1
    ensures |MonotoneChain(s)| == 1 && |MonotoneChain(Backwards(s))| == 1
  {
    assert MonotoneChain(s[..0]) == [] && MonotoneChain(Backwards(s)[..0]) == [];
  }

  // ----- slope of the closes

  function Closes(bars: seq<Bar>): (y: seq<real>)
    ensures |y| == |bars|
  {
    seq(|bars|, i requires 0 <= i < |bars| => bars[i].close)
  }

  /** The slope of some least-squares line through the values at 0, 1, 2, ... */
  ghost predicate IsTrend(y: seq<real>, slope: real) {
    exists level: real :: LeastSquares.BestLine(y, level, slope)
  }

  /** Products of the centred abscissae with the centred values. */
  ghost function CentredProducts(y: seq<real>, meanX: real, meanY: real): (t: seq<real>)
    ensures |t| == |y|
  {
    seq(|y|, i requires 0 <= i < |y| => (i as real - meanX) * (y[i] - meanY))
  }

  ghost function CentredSquares(n: nat, meanX: real): (t: seq<real>)
    ensures |t| == n
  {
    CentredProducts(LeastSquares.Xs(n), meanX, meanX)
  }

  /** Centred sums in terms of plain sums; c names the product of the two means. */
  lemma CentredProductTotal(y: seq<real>, meanX: real, meanY: real, c: real)
    requires c == meanX * meanY
    ensures Total(CentredProducts(y, meanX, meanY))
         == LeastSquares.SumXY(y) - meanX * Total(y) - meanY * LeastSquares.SumX(|y|) + |y| as real * c
  {
    hide Sum, CentredProducts, LeastSquares.Xs, LeastSquares.Times;
    var n, x := |y|, LeastSquares.Xs(|y|);
    var constants := seq(n, _ => c);
    var flat := seq(n, i requires 0 <= i < n => -meanY * x[i] + constants[i]);
    var tilted := seq(n, i requires 0 <= i < n => -meanX * y[i] + flat[i]);
    CentredProductTerms(y, meanX, meanY, c, tilted);
    TiltedTotal(y, meanX, meanY, c, constants, flat, tilted);
    SumLinear(CentredProducts(y, meanX, meanY), 1.0, LeastSquares.Times(x, y), tilted, 0, n);
  }

  lemma TiltedTotal(y: seq<real>, meanX: real, meanY: real, c: real, constants: seq<real>, flat: seq<real>, tilted: seq<real>)
    requires |constants| == |flat| == |tilted| == |y|
    requires forall i :: 0 <= i < |y| ==> constants[i] == c
    requires forall i :: 0 <= i < |y| ==> flat[i] == -meanY * LeastSquares.Xs(|y|)[i] + constants[i]
    requires forall i :: 0 <= i < |y| ==> tilted[i] == -meanX * y[i] + flat[i]
    ensures Total(tilted) == -meanX * Total(y) + (-meanY * LeastSquares.SumX(|y|) + |y| as real * c)
  {
    hide Sum, LeastSquares.Xs;
    var n := |y|;
    SumConstant(constants, c, 0, n);
    SumLinear(flat, -meanY, LeastSquares.Xs(n), constants, 0, n);
    SumLinear(tilted, -meanX, y, flat, 0, n);
  }

  lemma CentredProductTerms(y: seq<real>, meanX: real, meanY: real, c: real, tilted: seq<real>)
    requires |tilted| == |y| && c == meanX * meanY
    requires forall i :: 0 <= i < |y| ==> tilted[i] == -meanX * y[i] + (-meanY * LeastSquares.Xs(|y|)[i] + c)
    ensures Combines(CentredProducts(y, meanX, meanY), 1.0, LeastSquares.Times(LeastSquares.Xs(|y|), y), tilted, 0, |y|)
  {
    forall i | 0 <= i < |y|
      ensures CentredProducts(y, meanX, meanY)[i] == 1.0 * LeastSquares.Times(LeastSquares.Xs(|y|), y)[i] + tilted[i]
    {
      CentredTerm(i as real, y[i], meanX, meanY, c, tilted[i]);
    }
  }

  lemma CentredTerm(x: real, y: real, meanX: real, meanY: real, c: real, tilted: real)
    requires c == meanX * meanY && tilted == -meanX * y + (-meanY * x + c)
    ensures (x - meanX) * (y - meanY) == 1.0 * (x * y) + tilted
  {
  }

  /** The quotient of the centred sums is the least-squares slope. */
  lemma CentredQuotientIsTrend(y: seq<real>, meanX: real, meanY: real, slope: real)
    requires |y| >= 2 && meanX == (|y| as real - 1.0) / 2.0 && meanY == Total(y) / |y| as real
    requires slope * Total(CentredSquares(|y|, meanX)) == Total(CentredProducts(y, meanX, meanY))
    ensures IsTrend(y, slope)
  {
    hide LeastSquares.BestLine, Sum, CentredSquares, CentredProducts, LeastSquares.SumX, LeastSquares.Determinant, LeastSquares.SumXY;
    var n := |y| as real;
    var c := meanX * meanY;
    CentredProductTotal(y, meanX, meanY, c);
    LeastSquares.SumsOfPowers(|y|);
    QuotientTimes(Total(y), n);
    var level := meanY - slope * meanX;
    CentredDeterminant(|y|, meanX, Total(CentredSquares(|y|, meanX)));
    CentredAlgebra(n, meanX, meanY, c, LeastSquares.SumX(|y|), LeastSquares.Determinant(|y|), Total(y), LeastSquares.SumXY(y),
                   Total(CentredSquares(|y|, meanX)), Total(CentredProducts(y, meanX, meanY)), slope, level);
    LeastSquares.SolutionIsBest(y, level, slope);
  }

  lemma CentredAlgebra(n: real, mx: real, my: real, c: real, sx: real, d: real, sy: real, sxy: real, den: real, num: real, slope: real, level: real)
    requires sx == n * mx && sy == my * n && c == mx * my && d == n * den
    requires num == sxy - mx * sy - my * sx + n * c
    requires slope * den == num && level == my - slope * mx
    ensures d * slope == n * sxy - sx * sy
    ensures n * level == sy - slope * sx
  {
    CentredNumerator(n, mx, my, c, sx, sy, sxy, num);
    assert n * den * slope == n * (slope * den);
  }

  /** The centred squares sum to the determinant over n. */
  lemma CentredDeterminant(n: nat, meanX: real, den: real)
    requires LeastSquares.SumX(n) == n as real * meanX && den == Total(CentredSquares(n, meanX))
    ensures LeastSquares.Determinant(n) == n as real * den
  {
    hide Sum, CentredProducts, LeastSquares.Xs, LeastSquares.Times;
    var x, s := LeastSquares.Xs(n), meanX * meanX;
    var sx, sxx, sxy := LeastSquares.SumX(n), LeastSquares.SumXX(n), LeastSquares.SumXY(x);
    assert sx == Total(x) && sxy == sxx;
    CentredProductTotal(x, meanX, meanX, s);
    CentredDenominator(n as real, meanX, s, sx, sxx, den);
  }

  lemma CentredDenominator(n: real, mx: real, s: real, sx: real, sxx: real, den: real)
    requires sx == n * mx && s == mx * mx && den == sxx - mx * sx - mx * sx + n * s
    ensures n * sxx - sx * sx == n * den
  {
    assert mx * sx == n * s;
    assert n * (mx * sx) == sx * sx;
  }

  lemma CentredNumerator(n: real, mx: real, my: real, c: real, sx: real, sy: real, sxy: real, num: real)
    requires sx == n * mx && sy == my * n && c == mx * my && num == sxy - mx * sy - my * sx + n * c
    ensures n * sxy - sx * sy == n * num
  {
    assert my * sx == n * c;
    assert n * (mx * sy) == sx * sy;
  }

  lemma CentredSquaresPositive(n: nat, meanX: real)
    requires n >= 2
    ensures Total(CentredSquares(n, meanX)) > 0.0
  {
    var t := CentredSquares(n, meanX);
    forall i | 0 <= i < n
      ensures t[i] >= 0.0
      ensures i as real != meanX ==> t[i] > 0.0
    {
      CentredSquareSign(i as real, meanX, t[i]);
    }
    SumPositive(t, 0, n, if meanX == 0.0 then 1 else 0);
  }

  lemma CentredSquareSign(x: real, meanX: real, t: real)
    requires t == (x - meanX) * (x - meanX)
    ensures t >= 0.0
    ensures x != meanX ==> t > 0.0
  {
    if x != meanX { NamedProduct(x - meanX, x - meanX, t); }
  }

  method TrendSlopeValidated(bars: seq<Bar>) returns (slope: real)
    requires |bars| >= 2
    ensures slope == SlopeOf(Closes(bars))
    ensures IsTrend(Closes(bars), slope)
  {
    hide IsTrend, Closes;
    ghost var y := Closes(bars);
    var n := |bars| as real;
    var meanX := (n - 1.0) / 2.0;
    var meanY := 0.0;
    for index := 0 to |bars|
      invariant meanY == Sum(y, 0, index)
    {
      CloseAt(bars, index);
      meanY := meanY + bars[index].close;
    }
    meanY := meanY / n;
    var denominator, numerator := CentredSums(bars, meanX, meanY);
    CentredSquaresPositive(|bars|, meanX);
    slope := numerator / denominator;
    QuotientTimes(numerator, denominator);
    CentredQuotientIsTrend(y, meanX, meanY, slope);
  }

  /** Named so that two series with equal closes visibly have equal slopes. */
  ghost function SlopeOf(y: seq<real>): real
    requires |y| >= 2
  {
    var meanX, meanY := (|y| as real - 1.0) / 2.0, Total(y) / |y| as real;
    CentredSquaresPositive(|y|, meanX);
    Total(CentredProducts(y, meanX, meanY)) / Total(CentredSquares(|y|, meanX))
  }

  lemma CloseAt(bars: seq<Bar>, i: nat)
    requires i < |bars|
    ensures Closes(bars)[i] == bars[i].close
  {
  }

  method CentredSums(bars: seq<Bar>, meanX: real, meanY: real) returns (denominator: real, numerator: real)
    ensures denominator == Total(CentredSquares(|bars|, meanX))
    ensures numerator == Total(CentredProducts(Closes(bars), meanX, meanY))
  {
    hide CentredSquares, CentredProducts, Closes;
    ghost var squares, products := CentredSquares(|bars|, meanX), CentredProducts(Closes(bars), meanX, meanY);
    denominator, numerator := 0.0, 0.0;
    for index := 0 to |bars|
      invariant denominator == Sum(squares, 0, index)
      invariant numerator == Sum(products, 0, index)
    {
      var dx := index as real - meanX;
      CentredTermsAt(bars, meanX, meanY, index);
      numerator := numerator + dx * (bars[index].close - meanY);
      denominator := denominator + dx * dx;
    }
  }

  lemma CentredTermsAt(bars: seq<Bar>, meanX: real, meanY: real, i: nat)
    requires i < |bars|
    ensures CentredSquares(|bars|, meanX)[i] == (i as real - meanX) * (i as real - meanX)
    ensures CentredProducts(Closes(bars), meanX, meanY)[i] == (i as real - meanX) * (bars[i].close - meanY)
  {
  }

  // ----- causal features

  datatype GeometryPoint = GeometryPoint(index: nat, timeMs: int, lookback: nat, coverageArea: real, trendSlope: real, available: bool)

  /** The geometry of the window of `lookback` bars that ends at index. */
  ghost function PointAt(bars: seq<Bar>, lookback: nat, index: nat): GeometryPoint
    requires 2 <= lookback && index < |bars|
  {
    if index + 1 < lookback then
      GeometryPoint(index, bars[index].openTime, lookback, 0.0, 0.0, false)
    else
      var window := bars[index - lookback + 1..index + 1];
      GeometryPoint(index, bars[index].openTime, lookback, PolygonArea(Envelope(window)), SlopeOf(Closes(window)), true)
  }

  /** An available point: the area of its window's envelope, zero exactly for a line, and the least-squares slope of its closes. */
  lemma GeometryPointMeans(bars: seq<Bar>, lookback: nat, index: nat)
    requires ValidBars(bars) && 2 <= lookback <= index + 1 <= |bars|
    ensures var p, window := PointAt(bars, lookback, index), bars[index + 1 - lookback..index + 1];
            && p.available && p.index == index && p.timeMs == bars[index].openTime
            && p.coverageArea == Shoelace(Envelope(window), |Envelope(window)|) / 2.0 >= 0.0
            && (p.coverageArea == 0.0 <==> Collinear(Outline(window)))
            && IsTrend(Closes(window), p.trendSlope)
  {
    hide IsTrend, HullOf, PolygonArea, Collinear, Shoelace, Outline, Closes;
    var window := bars[index + 1 - lookback..index + 1];
    WindowValid(bars, index + 1 - lookback, index + 1);
    OutlineIsOrdered(window);
    AreaOfHull(Outline(window));
    SlopeIsTrend(Closes(window));
  }

  lemma WindowValid(bars: seq<Bar>, from: nat, upto: nat)
    requires ValidBars(bars) && from <= upto <= |bars|
    ensures ValidBars(bars[from..upto])
  {
    hide ValidOhlc;
  }

  lemma SlopeIsTrend(y: seq<real>)
    requires |y| >= 2
    ensures IsTrend(y, SlopeOf(y))
  {
    hide IsTrend, CentredProducts, CentredSquares, Total;
    var meanX, meanY := (|y| as real - 1.0) / 2.0, Total(y) / |y| as real;
    CentredSquaresPositive(|y|, meanX);
    QuotientTimes(Total(CentredProducts(y, meanX, meanY)), Total(CentredSquares(|y|, meanX)));
    CentredQuotientIsTrend(y, meanX, meanY, SlopeOf(y));
  }

  method BuildGeometryFeatures(bars: seq<Bar>, lookback: int) returns (r: Result<seq<GeometryPoint>, GeometryError>)
    ensures r == Err(LookbackTooShort) <==> lookback < 2
    ensures r.Ok? <==> lookback >= 2 && ValidBars(bars)
    ensures r.Ok? ==> |r.value| == |bars| && forall i :: 0 <= i < |bars| ==> r.value[i] == PointAt(bars, lookback, i)
  {
    hide SlopeOf, IsTrend, Envelope, Outline, PolygonArea, ValidOhlc;
    if lookback < 2 {
      return Err(LookbackTooShort);
    }
    var invalid := ValidateGeometryBars(bars);
    if invalid.Some? {
      return Err(invalid.value);
    }
    var result: seq<GeometryPoint> := [];
    var workspace := new GeometryWorkspace();
    for index := 0 to |bars|
      invariant |result| == index
      invariant forall i :: 0 <= i < index ==> result[i] == PointAt(bars, lookback, i)
    {
      var point := GeometryPoint(index, bars[index].openTime, lookback, 0.0, 0.0, false);
      if index + 1 >= lookback {
        var window := bars[index - lookback + 1..index + 1];
        var area := workspace.ConvexHullAreaOrdered(window);
        var slope := TrendSlopeValidated(window);
        point := point.(coverageArea := area, trendSlope := slope, available := true);
      }
      result := result + [point];
    }
    r := Ok(result);
  }

  /** No look-ahead: bars after an index cannot change the geometry point at that index. */
  lemma GeometryIsCausal(bars: seq<Bar>, other: seq<Bar>, lookback: nat, index: nat)
    requires 2 <= lookback && index < |bars| && index < |other|
    requires bars[..index + 1] == other[..index + 1]
    ensures PointAt(bars, lookback, index) == PointAt(other, lookback, index)
  {
    assert bars[index] == bars[..index + 1][index] == other[index];
    if index + 1 >= lookback {
      assert bars[index - lookback + 1..index + 1] == bars[..index + 1][index - lookback + 1..];
      assert other[index - lookback + 1..index + 1] == other[..index + 1][index - lookback + 1..];
    }
  }
}
