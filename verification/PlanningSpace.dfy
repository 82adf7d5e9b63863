/**
  Coordinates of a study for planning (internal/parameterresearch/planning.go): which ones are valid,
  how many there are, and their enumeration.
 */
module PlanningSpace {
  import opened Wrappers
  import opened Counting
  import opened Grid
  import opened RealMath
  import Text

  datatype PlanError = InvalidPlan

  const MAX_UINT64: nat := 18446744073709551615

  // ----- coordinates

  /** In the study window, with values, and unlike every excluded coordinate's key. */
  predicate CoordinateValid(space: ParameterSpace, c: seq<int>) {
    && |c| == |space.axes|
    && (forall d :: 0 <= d < |c| ==> space.axes[d].studyStart <= c[d] <= space.axes[d].studyEnd && 0 <= c[d] < |space.axes[d].values|)
    && (forall e :: 0 <= e < |space.excluded| ==> CoordinateKey(space.excluded[e]) != CoordinateKey(c))
  }

  /** In a valid space these are the coordinates inside the window that are not excluded. */
  lemma ValidIsRegular(space: ParameterSpace, c: seq<int>)
    requires ValidSpace(space)
    ensures CoordinateValid(space, c) <==> Regular(space, c)
  {
    hide CoordinateKey;
    if Regular(space, c) {
      forall e | 0 <= e < |space.excluded| ensures CoordinateKey(space.excluded[e]) != CoordinateKey(c) {
        if CoordinateKey(space.excluded[e]) == CoordinateKey(c) { KeyInjective(space.excluded[e], c); }
      }
      forall d | 0 <= d < |c| ensures 0 <= c[d] < |space.axes[d].values| {
        assert ValidAxis(space.axes[d]);
      }
    }
  }

  function Width(axis: Axis): int {
    axis.studyEnd - axis.studyStart + 1
  }

  /** The number of coordinates in the window of the first n axes. */
  ghost function Product(space: ParameterSpace, n: nat): int
    requires n <= |space.axes|
  {
    if n == 0 then 1 else Product(space, n - 1) * Width(space.axes[n - 1])
  }

  ghost function Saturated(n: int): nat {
    if n < 0 then 0 else if n > MAX_UINT64 then MAX_UINT64 else n
  }

  lemma {:induction false} ProductGrows(space: ParameterSpace, n: nat, m: nat)
    requires ValidSpace(space) && n <= m <= |space.axes|
    ensures 1 <= Product(space, n) <= Product(space, m)
    decreases m
  {
    if n < m {
      ProductGrows(space, n, m - 1);
      assert ValidAxis(space.axes[m - 1]);
      WidthsMultiply(Product(space, m - 1), Width(space.axes[m - 1]));
    } else if n > 0 {
      ProductGrows(space, n - 1, n - 1);
      assert ValidAxis(space.axes[n - 1]);
      WidthsMultiply(Product(space, n - 1), Width(space.axes[n - 1]));
    }
  }

  lemma WidthsMultiply(a: int, w: int)
    requires a >= 1 && w >= 1
    ensures a * w >= a
  {
  }

  lemma DoesNotFit(a: int, w: int)
    requires a >= 1 && w >= 1
    ensures a > MAX_UINT64 / w <==> a * w > MAX_UINT64
  {
    QuotientBounds(MAX_UINT64, w);
    if a > MAX_UINT64 / w {
      IntMonotone(w, MAX_UINT64 / w + 1, a);
    } else {
      IntMonotone(w, a, MAX_UINT64 / w);
    }
  }

  lemma QuotientBounds(n: nat, w: int)
    requires w >= 1
    ensures n / w * w <= n < (n / w + 1) * w
  {
  }

  /** No excluded coordinate is valid, so subtracting the valid ones subtracts nothing. */
  lemma ExclusionsNeverCount(space: ParameterSpace, e: nat)
    requires e < |space.excluded|
    ensures !CoordinateValid(space, space.excluded[e])
  {
  }

  // ----- what the count means

  /** Every coordinate the study can hold, each once. */
  ghost predicate Enumerates(space: ParameterSpace, list: seq<seq<int>>) {
    AllDistinct(list) && forall c :: c in list <==> Regular(space, c)
  }

  ghost function ExcludedSet(space: ParameterSpace): set<seq<int>> {
    Members(space.excluded, |space.excluded|)
  }

  ghost predicate InPrefix(space: ParameterSpace, n: nat, c: seq<int>)
    requires n <= |space.axes|
  {
    |c| == n && forall d :: 0 <= d < n ==> space.axes[d].studyStart <= c[d] <= space.axes[d].studyEnd
  }

  /** A list of the coordinates in the window of the first n axes, each once. */
  ghost predicate WindowPrefixes(space: ParameterSpace, n: nat, list: seq<seq<int>>)
    requires n <= |space.axes|
  {
    && AllDistinct(list) && (forall i :: 0 <= i < |list| ==> |list[i]| == n)
    && forall c: seq<int> :: c in list <==> InPrefix(space, n, c)
  }

  lemma {:induction false} RowsCount(prefixes: seq<seq<int>>, n: nat, lower: int, upper: int)
    requires n <= |prefixes| && lower <= upper
    ensures |Rows(prefixes, n, lower, upper)| == n * (upper - lower + 1)
  {
    if n > 0 {
      RowsCount(prefixes, n - 1, lower, upper);
      assert n * (upper - lower + 1) == (n - 1) * (upper - lower + 1) + (upper - lower + 1);
    }
  }

  lemma PrefixSplits(space: ParameterSpace, n: nat, c: seq<int>)
    requires n < |space.axes|
    ensures InPrefix(space, n + 1, c)
       <==> |c| == n + 1 && InPrefix(space, n, c[..n]) && space.axes[n].studyStart <= c[n] <= space.axes[n].studyEnd
  {
    if |c| == n + 1 && InPrefix(space, n, c[..n]) {
      forall d | 0 <= d < n ensures c[d] == c[..n][d] {
      }
    }
  }

  lemma NextPrefixes(space: ParameterSpace, n: nat, list: seq<seq<int>>)
    requires n < |space.axes| && WindowPrefixes(space, n, list)
    ensures WindowPrefixes(space, n + 1, Rows(list, |list|, space.axes[n].studyStart, space.axes[n].studyEnd))
  {
    hide Rows, InPrefix, AllDistinct;
    var axis := space.axes[n];
    var next := Rows(list, |list|, axis.studyStart, axis.studyEnd);
    RowsDistinct(list, |list|, axis.studyStart, axis.studyEnd, n);
    forall c: seq<int> ensures c in next <==> InPrefix(space, n + 1, c) {
      RowsAre(list, |list|, axis.studyStart, axis.studyEnd, n, c);
      assert list[..|list|] == list;
      PrefixSplits(space, n, c);
    }
    forall i | 0 <= i < |next| ensures |next[i]| == n + 1 {
      assert next[i] in next;
      PrefixSplits(space, n, next[i]);
    }
  }

  /** The window of the first n axes holds exactly the product of their widths. */
  lemma {:induction false} WindowSize(space: ParameterSpace, n: nat) returns (list: seq<seq<int>>)
    requires ValidSpace(space) && n <= |space.axes|
    ensures WindowPrefixes(space, n, list) && |list| == Product(space, n)
  {
    hide ValidSpace;
    if n == 0 {
      list := [[]];
    } else {
      var shorter := WindowSize(space, n - 1);
      var axis := space.axes[n - 1];
      AxisWidth(space, n - 1);
      NextPrefixes(space, n - 1, shorter);
      RowsCount(shorter, |shorter|, axis.studyStart, axis.studyEnd);
      list := Rows(shorter, |shorter|, axis.studyStart, axis.studyEnd);
    }
  }

  lemma MembersAre<T>(s: seq<T>, x: T)
    ensures x in Members(s, |s|) <==> x in s
  {
    MembersIs(s, |s|, x);
    assert s[..|s|] == s;
  }

  lemma WindowSplits(space: ParameterSpace, window: seq<seq<int>>, regular: seq<seq<int>>)
    requires ValidSpace(space) && WindowPrefixes(space, |space.axes|, window) && Enumerates(space, regular)
    ensures Members(window, |window|) == Members(regular, |regular|) + ExcludedSet(space)
    ensures Members(regular, |regular|) !! ExcludedSet(space)
  {
    hide Members, AllDistinct;
    forall c: seq<int>
      ensures c in Members(window, |window|) <==> c in Members(regular, |regular|) || c in ExcludedSet(space)
      ensures !(c in Members(regular, |regular|) && c in ExcludedSet(space))
    {
      MembersAre(window, c);
      MembersAre(regular, c);
      MembersAre(space.excluded, c);
      if c in space.excluded { ExcludedInWindow(space, c); }
    }
  }

  lemma ExcludedInWindow(space: ParameterSpace, c: seq<int>)
    requires ValidSpace(space) && c in space.excluded
    ensures InWindow(space, c)
  {
    var e :| 0 <= e < |space.excluded| && space.excluded[e] == c;
  }

  /**
    The product of the widths counts the coordinates the study can hold together with the excluded
    ones: it is their number exactly when nothing is excluded, and too large otherwise.
   */
  lemma ProductCounts(space: ParameterSpace, regular: seq<seq<int>>)
    requires ValidSpace(space) && Enumerates(space, regular)
    ensures Product(space, |space.axes|) == |regular| + |ExcludedSet(space)|
    ensures |regular| == Product(space, |space.axes|) <==> space.excluded == []
  {
    hide Product, ValidSpace, Regular;
    var window := WindowSize(space, |space.axes|);
    WindowSplits(space, window, regular);
    MembersCount(window, |window|);
    MembersCount(regular, |regular|);
    if space.excluded != [] {
      MembersAre(space.excluded, space.excluded[0]);
    }
  }

  /** A count of the coordinates the study can hold and of the excluded ones, saturated. */
  ghost predicate CountsAll(space: ParameterSpace, count: nat) {
    forall regular :: Enumerates(space, regular) ==> count == Saturated(|regular| + |ExcludedSet(space)|)
  }

  /** A count of the coordinates the study can hold, saturated. */
  ghost predicate CountsRegular(space: ParameterSpace, count: nat) {
    forall regular :: Enumerates(space, regular) ==> count == Saturated(|regular|)
  }

  lemma CountMeans(space: ParameterSpace)
    requires ValidSpace(space)
    ensures CountsAll(space, Saturated(Product(space, |space.axes|)))
    ensures Product(space, |space.axes|) <= MAX_UINT64 ==>
              (CountsRegular(space, Saturated(Product(space, |space.axes|))) <==> space.excluded == [])
  {
    hide Product, ValidSpace, Enumerates, ExcludedSet;
    var regular := RegularList(space);
    forall list | Enumerates(space, list)
      ensures Product(space, |space.axes|) == |list| + |ExcludedSet(space)|
      ensures |list| == Product(space, |space.axes|) <==> space.excluded == []
    {
      ProductCounts(space, list);
    }
  }

  lemma {:induction false} Kept(space: ParameterSpace, list: seq<seq<int>>) returns (kept: seq<seq<int>>)
    requires AllDistinct(list)
    ensures AllDistinct(kept) && forall c :: c in kept <==> c in list && !Excluded(space, c)
  {
    kept := [];
    if |list| > 0 {
      var last := list[|list| - 1];
      assert list == list[..|list| - 1] + [last];
      kept := Kept(space, list[..|list| - 1]);
      if !Excluded(space, last) {
        kept := kept + [last];
      }
    }
  }

  lemma RegularList(space: ParameterSpace) returns (regular: seq<seq<int>>)
    requires ValidSpace(space)
    ensures Enumerates(space, regular)
  {
    hide ValidSpace, Excluded, AllDistinct;
    var window := WindowSize(space, |space.axes|);
    regular := Kept(space, window);
  }

  /** A window of two values with one excluded: the count is two, but one coordinate remains. */
  lemma ExclusionIsCounted(space: ParameterSpace)
    requires space == ParameterSpace("1", [Axis("x", IntParameter, [0.0, 1.0], 0.0, 1.0, 1.0, 0, 1)], map[], [[0]])
    ensures ValidSpace(space) && Enumerates(space, [[1]]) && Product(space, |space.axes|) == 2
  {
    hide Text.Blank;
    NotBlank();
    var axis := space.axes[0];
    assert ValidValue(axis, 0.0) && ValidValue(axis, 1.0);
    assert Product(space, 1) == Product(space, 0) * 2;
    assert [1][0] != [0][0];
    assert Regular(space, [1]);
    forall c: seq<int> | Regular(space, c) ensures c == [1] {
      assert c == [c[0]] && c != space.excluded[0];
    }
  }

  lemma NotBlank()
    ensures !Text.Blank("1")
  {
    assert !Text.Space("1"[0]);
  }

  /**
    The number of coordinates, saturated. Excluded coordinates are not subtracted, whatever the code
    intends: the check that is meant to count them rejects each of them.
   */
  method CombinationCount(space: ParameterSpace) returns (r: Result<nat, PlanError>)
    ensures r.Err? <==> !ValidSpace(space)
    ensures r.Ok? ==> r.value == Saturated(Product(space, |space.axes|)) && CountsAll(space, r.value)
    ensures r.Ok? && Product(space, |space.axes|) <= MAX_UINT64 ==> (CountsRegular(space, r.value) <==> space.excluded == [])
  {
    hide CoordinateValid, ValidSpace, Width, Product, CountsAll, CountsRegular;
    var ok := ValidateSpace(space);
    if !ok {
      return Err(InvalidPlan);
    }
    CountMeans(space);
    var total: nat := 1;
    NoProduct(space);
    for d := 0 to |space.axes|
      invariant total == Product(space, d) && 1 <= total <= MAX_UINT64
    {
      var count := Width(space.axes[d]);
      AxisWidth(space, d);
      DoesNotFit(total, count);
      ProductStep(space, d);
      if total > MAX_UINT64 / count {
        ProductGrows(space, d + 1, |space.axes|);
        return Ok(MAX_UINT64);
      }
      WidthsMultiply(total, count);
      total := total * count;
    }
    if |space.excluded| > 0 {
      var validExcluded: nat := 0;
      for e := 0 to |space.excluded|
        invariant validExcluded == 0
      {
        ExclusionsNeverCount(space, e);
        validExcluded := validExcluded + if CoordinateValid(space, space.excluded[e]) then 1 else 0;
      }
      if validExcluded < total {
        total := total - validExcluded;
      }
    }
    r := Ok(total);
  }

  lemma NoProduct(space: ParameterSpace)
    ensures Product(space, 0) == 1
  {
  }

  lemma ProductStep(space: ParameterSpace, d: nat)
    requires d < |space.axes|
    ensures Product(space, d + 1) == Product(space, d) * Width(space.axes[d])
  {
  }

  lemma AxisWidth(space: ParameterSpace, d: nat)
    requires ValidSpace(space) && d < |space.axes|
    ensures Width(space.axes[d]) >= 1
  {
    assert ValidAxis(space.axes[d]);
  }

  // ----- enumeration

  /** The values a dimension runs through: its range where one is given, its window otherwise. */
  ghost predicate InRange(space: ParameterSpace, ranges: seq<seq<int>>, d: nat, v: int)
    requires d < |space.axes|
  {
    if d < |ranges| && |ranges[d]| > 0 then v in ranges[d] else space.axes[d].studyStart <= v <= space.axes[d].studyEnd
  }

  /** A suffix of a coordinate, from a dimension on, that stays in the ranges. */
  ghost predicate InRanges(space: ParameterSpace, ranges: seq<seq<int>>, dimension: nat, c: seq<int>)
    requires dimension <= |space.axes|
  {
    |c| == |space.axes| - dimension && forall i :: 0 <= i < |c| ==> InRange(space, ranges, dimension + i, c[i])
  }

  method DimensionValues(space: ParameterSpace, ranges: seq<seq<int>>, dimension: nat) returns (values: seq<int>)
    requires dimension < |space.axes| && forall d :: 0 <= d < |ranges| ==> AllDistinct(ranges[d])
    ensures AllDistinct(values) && forall v :: v in values <==> InRange(space, ranges, dimension, v)
  {
    if |ranges| > dimension && |ranges[dimension]| > 0 {
      return ranges[dimension];
    }
    values := [];
    var value := space.axes[dimension].studyStart;
    while value <= space.axes[dimension].studyEnd
      invariant AllDistinct(values) && space.axes[dimension].studyStart <= value
      invariant forall v :: v in values <==> space.axes[dimension].studyStart <= v < value && v <= space.axes[dimension].studyEnd
      decreases space.axes[dimension].studyEnd - value
    {
      NewMember(values, value);
      values := values + [value];
      value := value + 1;
    }
  }

  /** The combinations of the first v values with every suffix, and of value v with the first t of them. */
  ghost predicate Combined(values: seq<int>, v: nat, tail: seq<seq<int>>, t: nat, c: seq<int>)
    requires v <= |values| && t <= |tail|
  {
    |c| > 0 && ((c[0] in values[..v] && c[1..] in tail) || (v < |values| && c[0] == values[v] && c[1..] in tail[..t]))
  }

  lemma CombinedGrows(values: seq<int>, v: nat, tail: seq<seq<int>>, t: nat, c: seq<int>)
    requires v < |values| && t < |tail|
    ensures Combined(values, v, tail, t + 1, c) <==> Combined(values, v, tail, t, c) || c == [values[v]] + tail[t]
  {
    assert tail[..t + 1] == tail[..t] + [tail[t]];
    if |c| > 0 { assert c == [c[0]] + c[1..]; }
  }

  lemma CombinedRow(values: seq<int>, v: nat, tail: seq<seq<int>>, c: seq<int>)
    requires v < |values|
    ensures Combined(values, v + 1, tail, 0, c) <==> Combined(values, v, tail, |tail|, c)
  {
    assert values[..v + 1] == values[..v] + [values[v]] && tail[..|tail|] == tail;
  }

  lemma CombinedOnce(values: seq<int>, v: nat, tail: seq<seq<int>>, t: nat)
    requires AllDistinct(values) && AllDistinct(tail) && v < |values| && t < |tail|
    ensures !Combined(values, v, tail, t, [values[v]] + tail[t])
  {
    var c := [values[v]] + tail[t];
    assert c[1..] == tail[t];
  }

  /** Joins every value to every suffix; at the first dimension only valid coordinates are kept. */
  method Join(space: ParameterSpace, values: seq<int>, tail: seq<seq<int>>, first: bool) returns (result: seq<seq<int>>)
    requires AllDistinct(values) && AllDistinct(tail)
    ensures AllDistinct(result)
    ensures forall c :: c in result <==> |c| > 0 && c[0] in values && c[1..] in tail && (first ==> CoordinateValid(space, c))
  {
    hide CoordinateValid;
    result := [];
    for v := 0 to |values|
      invariant AllDistinct(result)
      invariant forall c :: c in result <==> Combined(values, v, tail, 0, c) && (first ==> CoordinateValid(space, c))
    {
      for t := 0 to |tail|
        invariant AllDistinct(result)
        invariant forall c :: c in result <==> Combined(values, v, tail, t, c) && (first ==> CoordinateValid(space, c))
      {
        hide Combined, AllDistinct;
        forall c ensures Combined(values, v, tail, t + 1, c) <==> Combined(values, v, tail, t, c) || c == [values[v]] + tail[t] {
          CombinedGrows(values, v, tail, t, c);
        }
        CombinedOnce(values, v, tail, t);
        var coordinate := [values[v]] + tail[t];
        if first && !CoordinateValid(space, coordinate) {
          continue;
        }
        NewMember(result, coordinate);
        result := result + [coordinate];
      }
      forall c ensures Combined(values, v + 1, tail, 0, c) <==> Combined(values, v, tail, |tail|, c) {
        CombinedRow(values, v, tail, c);
      }
    }
    assert values[..|values|] == values;
  }

  lemma NewMember<T>(s: seq<T>, x: T)
    requires AllDistinct(s) && x !in s
    ensures AllDistinct(s + [x])
  {
  }

  /** Every coordinate of the ranges, each once; from the first dimension on, every valid one. */
  method EnumerateCoordinates(space: ParameterSpace, ranges: seq<seq<int>>, dimension: nat) returns (result: seq<seq<int>>)
    requires dimension <= |space.axes| && forall d :: 0 <= d < |ranges| ==> AllDistinct(ranges[d])
    ensures AllDistinct(result)
    ensures forall c :: c in result <==> InRanges(space, ranges, dimension, c) && (dimension == 0 && |space.axes| > 0 ==> CoordinateValid(space, c))
    decreases |space.axes| - dimension
  {
    hide CoordinateValid, InRange, AllDistinct;
    if dimension == |space.axes| {
      OnlyEmpty(space, ranges);
      return [[]];
    }
    var values := DimensionValues(space, ranges, dimension);
    var tail := EnumerateCoordinates(space, ranges, dimension + 1);
    result := Join(space, values, tail, dimension == 0);
    JoinedRanges(space, ranges, dimension, values, tail);
  }

  lemma JoinedRanges(space: ParameterSpace, ranges: seq<seq<int>>, dimension: nat, values: seq<int>, tail: seq<seq<int>>)
    requires dimension < |space.axes|
    requires forall v :: v in values <==> InRange(space, ranges, dimension, v)
    requires forall c :: c in tail <==> InRanges(space, ranges, dimension + 1, c)
    ensures forall c: seq<int> :: |c| > 0 && c[0] in values && c[1..] in tail <==> InRanges(space, ranges, dimension, c)
  {
    hide InRange, InRanges;
    forall c: seq<int> ensures |c| > 0 && c[0] in values && c[1..] in tail <==> InRanges(space, ranges, dimension, c) {
      RangesSplit(space, ranges, dimension, c);
    }
  }

  lemma OnlyEmpty(space: ParameterSpace, ranges: seq<seq<int>>)
    ensures var only: seq<seq<int>> := [[]];
            AllDistinct(only) && forall c :: c in only <==> InRanges(space, ranges, |space.axes|, c)
  {
    hide InRange;
  }

  lemma RangesSplit(space: ParameterSpace, ranges: seq<seq<int>>, dimension: nat, c: seq<int>)
    requires dimension < |space.axes|
    ensures InRanges(space, ranges, dimension, c)
       <==> |c| > 0 && InRange(space, ranges, dimension, c[0]) && InRanges(space, ranges, dimension + 1, c[1..])
  {
    hide InRange;
    if |c| > 0 && InRange(space, ranges, dimension, c[0]) && InRanges(space, ranges, dimension + 1, c[1..]) {
      forall i | 0 <= i < |c| ensures InRange(space, ranges, dimension + i, c[i]) {
        if i > 0 { assert InRange(space, ranges, dimension + 1 + (i - 1), c[1..][i - 1]); }
      }
    }
    if InRanges(space, ranges, dimension, c) {
      assert InRange(space, ranges, dimension + 0, c[0]);
      forall i | 0 <= i < |c| - 1 ensures InRange(space, ranges, dimension + 1 + i, c[1..][i]) {
        assert InRange(space, ranges, dimension + (i + 1), c[i + 1]);
      }
    }
  }

  /** Without ranges the enumeration is every coordinate of the window that is not excluded. */
  method EnumerateWindow(space: ParameterSpace) returns (result: seq<seq<int>>)
    requires ValidSpace(space)
    ensures Enumerates(space, result)
    ensures |result| + |ExcludedSet(space)| == Product(space, |space.axes|)
  {
    hide CoordinateValid, ValidSpace, Regular, ExcludedSet, Product;
    AxesExist(space);
    result := EnumerateCoordinates(space, [], 0);
    forall c ensures c in result <==> Regular(space, c) {
      ValidIsRegular(space, c);
      RegularInRanges(space, c);
    }
    ProductCounts(space, result);
  }

  lemma AxesExist(space: ParameterSpace)
    requires ValidSpace(space)
    ensures |space.axes| > 0
  {
  }

  lemma RegularInRanges(space: ParameterSpace, c: seq<int>)
    ensures Regular(space, c) ==> InRanges(space, [], 0, c)
  {
  }
}
