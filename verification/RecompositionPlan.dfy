/**
  Plans for recomposing market segments (internal/marketversion/recomposition.go, NormalizePlan):
  defaults, validation, segment order and the total number of output bars.
 */
module RecompositionPlan {
  import opened Wrappers
  import opened RealMath
  import opened Counting
  import opened Sorting
  import opened Text

  const PLAN_VERSION := "p06-recomposition-plan-v1"
  const ALGORITHM_VERSION := "p06-segment-recomposition-v1"
  const CALENDAR_VERSION := "p06-version-calendar-v1"
  const PRECISION_VERSION := "p06-price-decimal-10-v1"
  const MAX_INT: nat := 9223372036854775807

  datatype Bar = Bar(ordinal: int, openTime: int, open: real, high: real, low: real, close: real, volume: real)

  datatype Source = Source(versionId: nat, contentHash: string, interval: string)

  datatype Segment = Segment(itemId: string, order: int, source: Source, startTime: int, endTime: int, barCount: int, repeatCount: int,
                             previousClose: Option<real>, sourceGapRatio: Option<real>, bars: seq<Bar>)

  datatype Plan = Plan(schemaVersion: string, algorithmVersion: string, precisionVersion: string, interval: string, targetMarket: string,
                       targetTimezone: string, calendarVersion: string, calendarHash: string, outputStartTime: int, totalOutputBars: int,
                       segments: seq<Segment>)

  datatype RecompositionError = InvalidPlan | CalendarSlots | NumericResult

  function Defaulted(value: string, fallback: string): string {
    if Blank(value) then fallback else value
  }

  /** A plan with its defaults filled in and its names trimmed. */
  function Tidied(plan: Plan): Plan {
    plan.(schemaVersion := Defaulted(plan.schemaVersion, PLAN_VERSION), algorithmVersion := Defaulted(plan.algorithmVersion, ALGORITHM_VERSION),
          precisionVersion := Defaulted(plan.precisionVersion, PRECISION_VERSION), calendarVersion := Defaulted(plan.calendarVersion, CALENDAR_VERSION),
          interval := Trim(plan.interval), targetMarket := Trim(plan.targetMarket), targetTimezone := Trim(plan.targetTimezone),
          calendarHash := Trim(plan.calendarHash))
  }

  predicate Identified(plan: Plan) {
    && plan.schemaVersion == PLAN_VERSION && plan.algorithmVersion == ALGORITHM_VERSION
    && plan.precisionVersion == PRECISION_VERSION && plan.calendarVersion == CALENDAR_VERSION
    && plan.interval != "" && plan.targetMarket != "" && plan.targetTimezone != "" && plan.calendarHash != ""
    && plan.outputStartTime > 0 && |plan.segments| > 0
  }

  function OrderKey(s: Segment): seq<int> {
    [s.order]
  }

  function TrimmedItem(s: Segment): Segment {
    s.(itemId := Trim(s.itemId))
  }

  predicate ValidSegment(s: Segment, index: int, interval: string) {
    && s.itemId != "" && s.order == index && s.repeatCount > 0 && s.barCount > 0
    && s.startTime > 0 && s.endTime >= s.startTime && s.source.versionId != 0
    && !Blank(s.source.contentHash) && s.source.interval == interval
  }

  /** Output bars of the first n segments. */
  ghost function OutputBars(segments: seq<Segment>, n: nat): int
    requires n <= |segments|
  {
    if n == 0 then 0 else OutputBars(segments, n - 1) + segments[n - 1].barCount * segments[n - 1].repeatCount
  }

  /** Distinct, valid segments in consecutive order whose bars can be counted. */
  ghost predicate ValidSegments(segments: seq<Segment>, interval: string, n: nat)
    requires n <= |segments|
  {
    && (forall i :: 0 <= i < n ==> ValidSegment(segments[i], i, interval) && segments[i].itemId == Trim(segments[i].itemId))
    && (forall i, j :: 0 <= i < j < n ==> segments[i].itemId != segments[j].itemId)
    && OutputBars(segments, n) <= MAX_INT
  }

  /** What normalising leaves. */
  ghost predicate Normal(plan: Plan) {
    && Identified(plan) && plan == Tidied(plan) && ValidSegments(plan.segments, plan.interval, |plan.segments|)
    && plan.totalOutputBars == OutputBars(plan.segments, |plan.segments|)
  }

  /** The segments in order, with their item names trimmed. */
  function Arranged(segments: seq<Segment>): (r: seq<Segment>)
    ensures |r| == |segments|
  {
    var sorted := SortedBy(segments, OrderKey);
    seq(|sorted|, i requires 0 <= i < |sorted| => TrimmedItem(sorted[i]))
  }

  ghost predicate Normalizable(plan: Plan) {
    var tidy, segments := Tidied(plan), Arranged(plan.segments);
    && Identified(tidy) && ValidSegments(segments, tidy.interval, |segments|)
    && (plan.totalOutputBars == 0 || plan.totalOutputBars == OutputBars(segments, |segments|))
  }

  ghost function Normalized(plan: Plan): Plan {
    Tidied(plan).(segments := Arranged(plan.segments), totalOutputBars := OutputBars(Arranged(plan.segments), |plan.segments|))
  }

  lemma TidiedTwice(plan: Plan)
    ensures Tidied(Tidied(plan)) == Tidied(plan)
  {
    hide Trim, Blank;
    TrimTwice(plan.interval);
    TrimTwice(plan.targetMarket);
    TrimTwice(plan.targetTimezone);
    TrimTwice(plan.calendarHash);
    VersionsNotBlank();
  }

  lemma VersionsNotBlank()
    ensures !Blank(PLAN_VERSION) && !Blank(ALGORITHM_VERSION) && !Blank(PRECISION_VERSION) && !Blank(CALENDAR_VERSION)
  {
    assert !Space(PLAN_VERSION[0]) && !Space(ALGORITHM_VERSION[0]) && !Space(PRECISION_VERSION[0]) && !Space(CALENDAR_VERSION[0]);
  }

  lemma ProductFits(a: int, b: int)
    requires a > 0 && b > 0
    ensures a * b > 0 && (a > MAX_INT / b <==> a * b > MAX_INT)
  {
    var q := MAX_INT / b;
    assert q * b <= MAX_INT < (q + 1) * b;
    if a > q { IntMonotone(b, q + 1, a); } else { IntMonotone(b, a, q); }
    IntMonotone(b, 1, a);
  }

  method CheckSegment(segments: seq<Segment>, index: nat, interval: string, seen: set<string>, total: int) returns (r: Option<int>)
    requires index < |segments| && ValidSegments(segments, interval, index) && total == OutputBars(segments, index) && total >= 0
    requires forall name :: name in seen <==> exists i :: 0 <= i < index && segments[i].itemId == name
    requires segments[index].itemId == Trim(segments[index].itemId)
    ensures r.Some? <==> ValidSegments(segments, interval, index + 1)
    ensures r.Some? ==> r.value == OutputBars(segments, index + 1) >= 0
  {
    hide Trim, Blank, ValidSegment;
    var segment := segments[index];
    if segment.itemId in seen || !ValidSegment(segment, index, interval) {
      return None;
    }
    PositiveCounts(segment, index, interval);
    ProductFits(segment.barCount, segment.repeatCount);
    if segment.barCount > MAX_INT / segment.repeatCount || total > MAX_INT - segment.barCount * segment.repeatCount {
      return None;
    }
    r := Some(total + segment.barCount * segment.repeatCount);
  }

  lemma PositiveCounts(segment: Segment, index: int, interval: string)
    requires ValidSegment(segment, index, interval)
    ensures segment.barCount > 0 && segment.repeatCount > 0
  {
  }

  lemma {:induction false} BrokenEarly(segments: seq<Segment>, interval: string, n: nat, m: nat)
    requires n <= m <= |segments| && ValidSegments(segments, interval, m)
    ensures ValidSegments(segments, interval, n)
    decreases m
  {
    hide Trim, Blank;
    if n < m {
      assert ValidSegment(segments[m - 1], m - 1, interval);
      ProductFits(segments[m - 1].barCount, segments[m - 1].repeatCount);
      BrokenEarly(segments, interval, n, m - 1);
    }
  }

  method NormalizePlan(plan: Plan) returns (r: Result<Plan, RecompositionError>)
    ensures r.Ok? <==> Normalizable(plan)
    ensures r.Err? ==> r.error == InvalidPlan
    ensures r.Ok? ==> r.value == Normalized(plan)
  {
    hide Arranged, Trim, Blank, ValidSegments, Identified;
    var tidy := Tidied(plan);
    if !Identified(tidy) {
      return Err(InvalidPlan);
    }
    var segments := Arranged(plan.segments);
    ArrangedIsTrimmed(plan.segments);
    var seen: set<string> := {};
    var total := 0;
    NoneChecked(segments, tidy.interval);
    for index := 0 to |segments|
      invariant ValidSegments(segments, tidy.interval, index) && total == OutputBars(segments, index) && total >= 0
      invariant forall name :: name in seen <==> exists i :: 0 <= i < index && segments[i].itemId == name
    {
      var checked := CheckSegment(segments, index, tidy.interval, seen, total);
      if checked.None? {
        if ValidSegments(segments, tidy.interval, |segments|) { BrokenEarly(segments, tidy.interval, index + 1, |segments|); }
        return Err(InvalidPlan);
      }
      seen, total := seen + {segments[index].itemId}, checked.value;
    }
    if plan.totalOutputBars != 0 && plan.totalOutputBars != total {
      return Err(InvalidPlan);
    }
    r := Ok(tidy.(segments := segments, totalOutputBars := total));
  }

  lemma NoneChecked(segments: seq<Segment>, interval: string)
    ensures ValidSegments(segments, interval, 0)
  {
  }

  lemma ArrangedIsTrimmed(segments: seq<Segment>)
    ensures var r := Arranged(segments); forall i :: 0 <= i < |r| ==> r[i].itemId == Trim(r[i].itemId)
  {
    hide Trim;
    var r, sorted := Arranged(segments), SortedBy(segments, OrderKey);
    forall i | 0 <= i < |r| ensures r[i].itemId == Trim(r[i].itemId) {
      TrimTwice(sorted[i].itemId);
    }
  }

  // ----- normalising twice

  lemma InsertedLast(s: seq<Segment>, x: Segment)
    requires |s| > 0 ==> Leq(OrderKey(s[|s| - 1]), OrderKey(x))
    ensures Inserted(s, x, OrderKey) == s + [x]
  {
    hide Leq, OrderKey;
  }

  lemma {:induction false} SortedStays(s: seq<Segment>)
    requires OrderedBy(s, OrderKey)
    ensures SortedBy(s, OrderKey) == s
  {
    hide Leq, Inserted;
    if |s| > 0 {
      var n := |s| - 1;
      SortedStays(s[..n]);
      assert n > 0 ==> Leq(OrderKey(s[n - 1]), OrderKey(s[n]));
      InsertedLast(s[..n], s[n]);
      assert s == s[..n] + [s[n]];
    }
  }

  lemma ArrangedStays(segments: seq<Segment>, interval: string)
    requires ValidSegments(segments, interval, |segments|)
    ensures Arranged(segments) == segments
  {
    hide Trim, Blank;
    forall i, j | 0 <= i < j < |segments| ensures Leq(OrderKey(segments[i]), OrderKey(segments[j])) {
      assert ValidSegment(segments[i], i, interval) && ValidSegment(segments[j], j, interval);
    }
    SortedStays(segments);
    forall i | 0 <= i < |segments| ensures TrimmedItem(segments[i]) == segments[i] {
      assert segments[i].itemId == Trim(segments[i].itemId);
    }
  }

  /** What normalising leaves is normal, and a normal plan is left as it is. */
  lemma NormalizingTwice(plan: Plan)
    ensures Normal(plan) ==> Normalizable(plan) && Normalized(plan) == plan
    ensures Normalizable(plan) ==> Normal(Normalized(plan))
  {
    hide Arranged, Trim, Blank, Tidied;
    if Normal(plan) {
      ArrangedStays(plan.segments, plan.interval);
    }
    if Normalizable(plan) {
      TidiedTwice(plan);
      KeepsIdentity(plan);
    }
  }

  lemma KeepsIdentity(plan: Plan)
    requires Normalizable(plan) && Tidied(Tidied(plan)) == Tidied(plan)
    ensures Tidied(Normalized(plan)) == Normalized(plan) && Identified(Normalized(plan))
  {
    hide Arranged, Trim, Blank, Defaulted;
  }
}
