/**
  The parameter grid (internal/robustness/grid.go): validation, string keys of coordinates, boxes
  and axis neighbours inside the study window.
 */
module Grid {
  import opened Counting
  import opened RealMath
  import opened Text

  datatype ParameterType = IntParameter | FloatParameter

  datatype Axis = Axis(name: string, kind: ParameterType, values: seq<real>, legalMin: real, legalMax: real, step: real, studyStart: int, studyEnd: int)

  datatype ParameterSpace = ParameterSpace(schemaVersion: string, axes: seq<Axis>, fixedValues: map<string, real>, excluded: seq<seq<int>>)

  // ----- validation

  const SLACK := 0.000000001

  /** Rounding to the nearest integer, halves away from zero. */
  function Round(x: real): real {
    if x >= 0.0 then (x + 0.5).Floor as real else -((-x + 0.5).Floor as real)
  }

  predicate ValidValue(axis: Axis, value: real) {
    && axis.legalMin - SLACK <= value <= axis.legalMax + SLACK
    && (axis.kind == IntParameter ==> Abs(value - Round(value)) <= SLACK)
  }

  ghost predicate ValidAxis(axis: Axis) {
    && axis.name != "" && axis.step > 0.0 && 0 <= axis.studyStart <= axis.studyEnd < |axis.values|
    && (forall i :: 0 <= i < |axis.values| ==> ValidValue(axis, axis.values[i]))
    && (forall i, j :: 0 <= i < j < |axis.values| ==> axis.values[i] < axis.values[j])
  }

  ghost predicate InWindow(space: ParameterSpace, c: seq<int>) {
    |c| == |space.axes| && forall d :: 0 <= d < |c| ==> space.axes[d].studyStart <= c[d] <= space.axes[d].studyEnd
  }

  ghost predicate ValidSpace(space: ParameterSpace) {
    && !Blank(space.schemaVersion) && |space.axes| > 0
    && (forall d :: 0 <= d < |space.axes| ==> ValidAxis(space.axes[d]))
    && (forall d, e :: 0 <= d < e < |space.axes| ==> space.axes[d].name != space.axes[e].name)
    && (forall e :: 0 <= e < |space.excluded| ==> InWindow(space, space.excluded[e]))
  }

  method ValidateAxis(axis: Axis, seen: set<string>) returns (ok: bool)
    ensures ok <==> ValidAxis(axis) && axis.name !in seen
  {
    if axis.name == "" || axis.name in seen || axis.step <= 0.0 || |axis.values| == 0 || axis.studyStart < 0 || axis.studyEnd < axis.studyStart
       || axis.studyEnd >= |axis.values|
    {
      return false;
    }
    for i := 0 to |axis.values|
      invariant forall j :: 0 <= j < i ==> ValidValue(axis, axis.values[j])
      invariant forall j, k :: 0 <= j < k < i ==> axis.values[j] < axis.values[k]
    {
      var value := axis.values[i];
      if (i > 0 && value <= axis.values[i - 1]) || value < axis.legalMin - SLACK || value > axis.legalMax + SLACK {
        return false;
      }
      if axis.kind == IntParameter && Abs(value - Round(value)) > SLACK {
        return false;
      }
    }
    ok := true;
  }

  method ValidateSpace(space: ParameterSpace) returns (ok: bool)
    ensures ok <==> ValidSpace(space)
  {
    hide Blank, Trim;
    BlankTrimsToNothing(space.schemaVersion);
    if Trim(space.schemaVersion) == "" || |space.axes| == 0 {
      return false;
    }
    var seen: set<string> := {};
    for d := 0 to |space.axes|
      invariant forall e :: 0 <= e < d ==> ValidAxis(space.axes[e])
      invariant forall e, f :: 0 <= e < f < d ==> space.axes[e].name != space.axes[f].name
      invariant forall name :: name in seen <==> exists e :: 0 <= e < d && space.axes[e].name == name
    {
      ok := ValidateAxis(space.axes[d], seen);
      if !ok {
        return;
      }
      seen := seen + {space.axes[d].name};
    }
    for e := 0 to |space.excluded|
      invariant forall f :: 0 <= f < e ==> InWindow(space, space.excluded[f])
    {
      var coordinate := space.excluded[e];
      if |coordinate| != |space.axes| {
        return false;
      }
      for d := 0 to |coordinate|
        invariant forall f :: 0 <= f < d ==> space.axes[f].studyStart <= coordinate[f] <= space.axes[f].studyEnd
      {
        if coordinate[d] < space.axes[d].studyStart || coordinate[d] > space.axes[d].studyEnd {
          return false;
        }
      }
    }
    ok := true;
  }

  // ----- excluded coordinates

  ghost predicate Excluded(space: ParameterSpace, c: seq<int>) {
    c in space.excluded
  }

  /** A coordinate the study can hold: inside its window and not excluded. */
  ghost predicate Regular(space: ParameterSpace, c: seq<int>) {
    InWindow(space, c) && !Excluded(space, c)
  }

  method SameCoordinate(a: seq<int>, b: seq<int>) returns (same: bool)
    requires |a| == |b|
    ensures same <==> a == b
  {
    for i := 0 to |a|
      invariant a[..i] == b[..i]
    {
      if a[i] != b[i] {
        return false;
      }
      assert a[..i + 1] == a[..i] + [a[i]] && b[..i + 1] == b[..i] + [b[i]];
    }
    assert a == a[..|a|] && b == b[..|b|];
    same := true;
  }

  method IsExcluded(space: ParameterSpace, c: seq<int>) returns (excluded: bool)
    ensures excluded <==> Excluded(space, c)
  {
    for e := 0 to |space.excluded|
      invariant c !in space.excluded[..e]
    {
      assert space.excluded[..e + 1] == space.excluded[..e] + [space.excluded[e]];
      if |space.excluded[e]| != |c| {
        continue;
      }
      var same := SameCoordinate(c, space.excluded[e]);
      if same {
        return true;
      }
    }
    assert space.excluded == space.excluded[..|space.excluded|];
    excluded := false;
  }

  // ----- string keys

  function Digit(d: nat): char
    requires d < 10
  {
    "0123456789"[d]
  }

  function Digits(n: nat): (s: string)
    ensures |s| >= 1 && forall i :: 0 <= i < |s| ==> '0' <= s[i] <= '9'
  {
    if n < 10 then [Digit(n)] else Digits(n / 10) + [Digit(n % 10)]
  }

  function Itoa(n: int): (s: string)
    ensures |s| >= 1 && forall i :: 0 <= i < |s| ==> s[i] != ':'
  {
    if n < 0 then "-" + Digits(-n) else Digits(n)
  }

  /** Decimal strings joined by colons. */
  function CoordinateKey(c: seq<int>): string {
    if |c| == 0 then "" else if |c| == 1 then Itoa(c[0]) else Itoa(c[0]) + ":" + CoordinateKey(c[1..])
  }

  lemma DigitsShape(n: nat)
    ensures n >= 10 <==> |Digits(n)| >= 2
    ensures n >= 10 ==> Digits(n)[..|Digits(n)| - 1] == Digits(n / 10) && Digits(n)[|Digits(n)| - 1] == Digit(n % 10)
  {
  }

  lemma {:induction false} DigitsInjective(m: nat, n: nat)
    requires Digits(m) == Digits(n)
    ensures m == n
  {
    DigitsShape(m);
    DigitsShape(n);
    if m >= 10 {
      DigitsInjective(m / 10, n / 10);
      DigitInjective(m % 10, n % 10);
    } else {
      DigitInjective(m, n);
    }
  }

  lemma DigitInjective(d: nat, e: nat)
    requires d < 10 && e < 10 && Digit(d) == Digit(e)
    ensures d == e
  {
  }

  lemma SignShows(n: int)
    ensures n < 0 <==> Itoa(n)[0] == '-'
    ensures n < 0 ==> Itoa(n)[1..] == Digits(-n)
  {
    hide Digits;
  }

  lemma ItoaInjective(m: int, n: int)
    requires Itoa(m) == Itoa(n)
    ensures m == n
  {
    SignShows(m);
    SignShows(n);
    if m < 0 { DigitsInjective(-m, -n); } else { DigitsInjective(m, n); }
  }

  /** Where a string's first colon is; its length when there is none. */
  ghost function FirstColon(s: string): (i: nat)
    ensures i <= |s|
  {
    if |s| == 0 || s[0] == ':' then 0 else 1 + FirstColon(s[1..])
  }

  lemma {:induction false} ColonAfter(a: string, rest: string)
    requires forall i :: 0 <= i < |a| ==> a[i] != ':'
    requires rest == "" || rest[0] == ':'
    ensures FirstColon(a + rest) == |a|
  {
    if |a| == 0 {
      assert a + rest == rest;
    } else {
      assert (a + rest)[1..] == a[1..] + rest;
      ColonAfter(a[1..], rest);
    }
  }

  /** A key shows its first number and whether there are more. */
  lemma KeyShape(c: seq<int>)
    requires |c| > 0
    ensures var key := CoordinateKey(c);
            var i := FirstColon(key);
            && i > 0 && key[..i] == Itoa(c[0])
            && (i < |key| <==> |c| > 1)
            && (|c| > 1 ==> key[i + 1..] == CoordinateKey(c[1..]))
  {
    hide Itoa;
    var head := Itoa(c[0]);
    if |c| == 1 {
      ColonAfter(head, "");
      assert head + "" == head;
    } else {
      ColonAfter(head, ":" + CoordinateKey(c[1..]));
      assert head + ":" + CoordinateKey(c[1..]) == head + (":" + CoordinateKey(c[1..]));
    }
  }

  /** Different coordinates, of whatever lengths, have different keys. */
  lemma {:induction false} KeyInjective(a: seq<int>, b: seq<int>)
    requires CoordinateKey(a) == CoordinateKey(b)
    ensures a == b
  {
    if |a| > 0 { KeyShape(a); }
    if |b| > 0 { KeyShape(b); }
    hide CoordinateKey, Itoa;
    if |a| > 0 && |b| > 0 {
      ItoaInjective(a[0], b[0]);
      if |a| > 1 { KeyInjective(a[1..], b[1..]); }
      assert a == [a[0]] + a[1..] && b == [b[0]] + b[1..];
    } else {
      EmptyKey(a);
      EmptyKey(b);
    }
  }

  lemma EmptyKey(c: seq<int>)
    ensures CoordinateKey(c) == "" <==> c == []
  {
    hide Itoa;
  }

  // ----- boxes

  function MaxInt(a: int, b: int): int {
    if a > b then a else b
  }

  function MinInt(a: int, b: int): int {
    if a < b then a else b
  }

  /** The part of the box around a centre that lies in the study window, in its first n dimensions. */
  ghost predicate InBox(space: ParameterSpace, center: seq<int>, radius: int, n: nat, c: seq<int>)
    requires n <= |space.axes| == |center|
  {
    |c| == n && forall d :: 0 <= d < n ==>
      MaxInt(space.axes[d].studyStart, center[d] - radius) <= c[d] <= MinInt(space.axes[d].studyEnd, center[d] + radius)
  }

  /** A prefix continued by every value of a range. */
  ghost function Row(prefix: seq<int>, lower: int, upper: int): (r: seq<seq<int>>)
    ensures |r| == if upper < lower then 0 else upper - lower + 1
  {
    seq(if upper < lower then 0 else upper - lower + 1, i requires 0 <= i < upper - lower + 1 => prefix + [lower + i])
  }

  /** The first n prefixes, each continued by every value of a range. */
  ghost function Rows(prefixes: seq<seq<int>>, n: nat, lower: int, upper: int): seq<seq<int>>
    requires n <= |prefixes|
  {
    if n == 0 then [] else Rows(prefixes, n - 1, lower, upper) + Row(prefixes[n - 1], lower, upper)
  }

  lemma RowIs(prefix: seq<int>, lower: int, upper: int, c: seq<int>)
    ensures c in Row(prefix, lower, upper) <==> |c| == |prefix| + 1 && c[..|prefix|] == prefix && lower <= c[|prefix|] <= upper
  {
    if |c| == |prefix| + 1 && c[..|prefix|] == prefix && lower <= c[|prefix|] <= upper {
      var i := c[|prefix|] - lower;
      assert c == prefix + [lower + i];
      assert Row(prefix, lower, upper)[i] == c;
    }
  }

  lemma {:induction false} RowsAre(prefixes: seq<seq<int>>, n: nat, lower: int, upper: int, k: nat, c: seq<int>)
    requires n <= |prefixes| && forall i :: 0 <= i < |prefixes| ==> |prefixes[i]| == k
    ensures c in Rows(prefixes, n, lower, upper) <==> |c| == k + 1 && c[..k] in prefixes[..n] && lower <= c[k] <= upper
  {
    hide Row;
    if n > 0 {
      RowsAre(prefixes, n - 1, lower, upper, k, c);
      RowIs(prefixes[n - 1], lower, upper, c);
      assert prefixes[..n] == prefixes[..n - 1] + [prefixes[n - 1]];
    }
  }

  lemma RowDistinct(prefix: seq<int>, lower: int, upper: int)
    ensures AllDistinct(Row(prefix, lower, upper))
  {
    var r := Row(prefix, lower, upper);
    forall i, j | 0 <= i < j < |r| ensures r[i] != r[j] {
      assert r[i][|prefix|] == lower + i && r[j][|prefix|] == lower + j;
    }
  }

  lemma JoinDistinct<T>(a: seq<T>, b: seq<T>)
    requires AllDistinct(a) && AllDistinct(b) && forall i :: 0 <= i < |b| ==> b[i] !in a
    ensures AllDistinct(a + b)
  {
  }

  lemma {:induction false} RowsDistinct(prefixes: seq<seq<int>>, n: nat, lower: int, upper: int, k: nat)
    requires n <= |prefixes| && AllDistinct(prefixes) && forall i :: 0 <= i < |prefixes| ==> |prefixes[i]| == k
    ensures AllDistinct(Rows(prefixes, n, lower, upper))
  {
    hide Row;
    if n > 0 {
      RowsDistinct(prefixes, n - 1, lower, upper, k);
      RowDistinct(prefixes[n - 1], lower, upper);
      var row := Row(prefixes[n - 1], lower, upper);
      forall i | 0 <= i < |row| ensures row[i] !in Rows(prefixes, n - 1, lower, upper) {
        assert row[i] in row;
        RowIs(prefixes[n - 1], lower, upper, row[i]);
        RowsAre(prefixes, n - 1, lower, upper, k, row[i]);
      }
      JoinDistinct(Rows(prefixes, n - 1, lower, upper), row);
    }
  }

  /** A list that holds exactly the coordinates of the box in the first n dimensions, each once. */
  ghost predicate BoxPrefixes(space: ParameterSpace, center: seq<int>, radius: int, n: nat, list: seq<seq<int>>)
    requires n <= |space.axes| == |center|
  {
    && AllDistinct(list)
    && (forall i :: 0 <= i < |list| ==> |list[i]| == n)
    && forall c: seq<int> :: c in list <==> InBox(space, center, radius, n, c)
  }

  lemma BoxSplits(space: ParameterSpace, center: seq<int>, radius: int, n: nat, c: seq<int>)
    requires n < |space.axes| == |center|
    ensures InBox(space, center, radius, n + 1, c)
       <==> |c| == n + 1 && InBox(space, center, radius, n, c[..n])
            && MaxInt(space.axes[n].studyStart, center[n] - radius) <= c[n] <= MinInt(space.axes[n].studyEnd, center[n] + radius)
  {
    hide MaxInt, MinInt;
    if |c| == n + 1 && InBox(space, center, radius, n, c[..n]) {
      forall d | 0 <= d < n ensures c[d] == c[..n][d] {
      }
    }
  }

  lemma OneMoreDimension(space: ParameterSpace, center: seq<int>, radius: int, n: nat, list: seq<seq<int>>)
    requires n < |space.axes| == |center| && BoxPrefixes(space, center, radius, n, list)
    ensures BoxPrefixes(space, center, radius, n + 1,
                        Rows(list, |list|, MaxInt(space.axes[n].studyStart, center[n] - radius), MinInt(space.axes[n].studyEnd, center[n] + radius)))
  {
    hide Rows, MaxInt, MinInt, InBox, AllDistinct;
    var lower, upper := MaxInt(space.axes[n].studyStart, center[n] - radius), MinInt(space.axes[n].studyEnd, center[n] + radius);
    var next := Rows(list, |list|, lower, upper);
    RowsDistinct(list, |list|, lower, upper, n);
    forall c: seq<int> ensures c in next <==> InBox(space, center, radius, n + 1, c) {
      RowsAre(list, |list|, lower, upper, n, c);
      assert list[..|list|] == list;
      BoxSplits(space, center, radius, n, c);
    }
    forall i | 0 <= i < |next| ensures |next[i]| == n + 1 {
      assert next[i] in next;
      BoxSplits(space, center, radius, n, next[i]);
    }
  }

  method ExtendPrefixes(prefixes: seq<seq<int>>, lower: int, upper: int) returns (next: seq<seq<int>>)
    ensures next == Rows(prefixes, |prefixes|, lower, upper)
  {
    next := [];
    for p := 0 to |prefixes|
      invariant next == Rows(prefixes, p, lower, upper)
    {
      ghost var before := next;
      var value := lower;
      while value <= upper
        invariant value <= MaxInt(lower, upper + 1) && lower <= value
        invariant next == before + Row(prefixes[p], lower, value - 1)
        decreases upper - value
      {
        assert Row(prefixes[p], lower, value) == Row(prefixes[p], lower, value - 1) + [prefixes[p] + [value]];
        next := next + [prefixes[p] + [value]];
        value := value + 1;
      }
      assert Row(prefixes[p], lower, value - 1) == Row(prefixes[p], lower, upper);
    }
  }

  /** The box around a centre, clipped to the window, without excluded coordinates: each once. */
  method BoxCoordinates(space: ParameterSpace, center: seq<int>, radius: int) returns (box: seq<seq<int>>)
    requires |center| == |space.axes|
    ensures AllDistinct(box)
    ensures forall c: seq<int> :: c in box <==> InBox(space, center, radius, |space.axes|, c) && !Excluded(space, c)
  {
    hide InBox, Excluded, MaxInt, MinInt, Rows;
    var result: seq<seq<int>> := [[]];
    EmptyPrefix(space, center, radius);
    for d := 0 to |space.axes|
      invariant BoxPrefixes(space, center, radius, d, result)
    {
      OneMoreDimension(space, center, radius, d, result);
      var axis := space.axes[d];
      result := ExtendPrefixes(result, MaxInt(axis.studyStart, center[d] - radius), MinInt(axis.studyEnd, center[d] + radius));
    }
    box := [];
    for i := 0 to |result|
      invariant AllDistinct(box)
      invariant forall c: seq<int> :: c in box <==> c in result[..i] && !Excluded(space, c)
    {
      assert result[..i + 1] == result[..i] + [result[i]];
      var excluded := IsExcluded(space, result[i]);
      if !excluded {
        assert result[i] !in result[..i];
        box := box + [result[i]];
      }
    }
    assert result[..|result|] == result;
  }

  lemma EmptyPrefix(space: ParameterSpace, center: seq<int>, radius: int)
    requires |center| == |space.axes|
    ensures BoxPrefixes(space, center, radius, 0, [[]])
  {
  }

  // ----- axis neighbours

  /** One step along an axis that stays inside the window in that axis and is not excluded. */
  ghost predicate StepIn(space: ParameterSpace, c: seq<int>, d: int, delta: int, n: seq<int>)
    requires |c| == |space.axes|
  {
    && 0 <= d < |c| && n == c[d := c[d] + delta]
    && space.axes[d].studyStart <= n[d] <= space.axes[d].studyEnd && !Excluded(space, n)
  }

  ghost predicate IsNeighbor(space: ParameterSpace, c: seq<int>, n: seq<int>)
    requires |c| == |space.axes|
  {
    exists d :: StepIn(space, c, d, -1, n) || StepIn(space, c, d, 1, n)
  }

  method AxisNeighbors(space: ParameterSpace, c: seq<int>) returns (result: seq<seq<int>>)
    requires |c| == |space.axes|
    ensures forall n :: n in result <==> IsNeighbor(space, c, n)
  {
    hide Excluded;
    result := [];
    for d := 0 to |space.axes|
      invariant forall n :: n in result <==> exists e :: 0 <= e < d && (StepIn(space, c, e, -1, n) || StepIn(space, c, e, 1, n))
    {
      ghost var before := result;
      for k := 0 to 2
        invariant forall n :: n in result <==> n in before || (k > 0 && StepIn(space, c, d, -1, n)) || (k > 1 && StepIn(space, c, d, 1, n))
      {
        var value := c[d] + if k == 0 then -1 else 1;
        if value < space.axes[d].studyStart || value > space.axes[d].studyEnd {
          continue;
        }
        var neighbor := c[d := value];
        var excluded := IsExcluded(space, neighbor);
        if !excluded {
          result := result + [neighbor];
        }
      }
    }
  }

  /** Steps from coordinates the study can hold lead to such coordinates and can be undone. */
  lemma NeighborsAreMutual(space: ParameterSpace, c: seq<int>, n: seq<int>)
    requires Regular(space, c) && IsNeighbor(space, c, n)
    ensures Regular(space, n) && IsNeighbor(space, n, c)
  {
    hide Excluded;
    var d :| StepIn(space, c, d, -1, n) || StepIn(space, c, d, 1, n);
    assert c == n[d := c[d]];
    if StepIn(space, c, d, -1, n) {
      assert StepIn(space, n, d, 1, c);
    } else {
      assert StepIn(space, n, d, -1, c);
    }
  }
}
