/**
  Recomposing market segments (internal/marketversion/recomposition.go): segments are repeated,
  rescaled so that they join, quantized, and laid end to end over the calendar's slots, with one
  lineage row a bar.
 */
module Recomposition {
  import opened Wrappers
  import opened RealMath
  import opened Text
  import opened Grid
  import opened RecompositionPlan

  const SCALE := 10000000000.0

  datatype Lineage = Lineage(outputOrdinal: int, outputOpenTime: int, instanceId: string, source: Source, sourceOrdinal: int, sourceOpenTime: int)

  datatype Instance = Instance(instanceId: string, order: nat, repeatOrdinal: nat, source: Source, sourceStartTime: int, sourceEndTime: int,
                               outputStart: nat, outputEnd: int, outputStartTime: int, outputEndTime: int, scaleMultiplier: real,
                               sourceGapRatio: Option<real>, actualGapRatio: real, anchorMissing: bool, anchorValue: real)

  /** The name of one repetition of a segment. */
  function InstanceId(itemId: string, repeatOrdinal: nat): (id: string)
    ensures id != ""
  {
    itemId + ":" + Itoa(repeatOrdinal)
  }

  /** Different repetitions have different names. */
  lemma InstanceIdInjective(a: string, m: nat, b: string, n: nat)
    requires InstanceId(a, m) == InstanceId(b, n)
    ensures a == b && m == n
  {
    hide Itoa;
    LastColon(a, m);
    LastColon(b, n);
    var id := InstanceId(a, m);
    assert |a| == |b|;
    assert id[|a| + 1..] == Itoa(m) && id[|b| + 1..] == Itoa(n);
    ItoaInjective(m, n);
    assert id[..|a|] == a && id[..|b|] == b;
  }

  lemma LastColon(a: string, m: nat)
    ensures var id := InstanceId(a, m);
            |a| < |id| && id[|a|] == ':' && forall k :: |a| < k < |id| ==> id[k] != ':'
  {
    hide Itoa;
    var id := InstanceId(a, m);
    forall k | |a| < k < |id| ensures id[k] != ':' {
      assert id[k] == Itoa(m)[k - |a| - 1];
    }
  }

  datatype Output = Output(bars: seq<Bar>, instances: seq<Instance>, lineage: seq<Lineage>, anchorWarnings: nat)

  // ----- quantizing

  /** The nearest integer of a number that is not negative, halves up. */
  function Nearest(x: real): int {
    (x + 0.5).Floor
  }

  function QuantizePrice(v: real): real {
    if v <= 0.0 then v else Units(Nearest(v * SCALE))
  }

  function QuantizeVolume(v: real): real {
    if v < 0.0 then v else Units(Nearest(v * SCALE))
  }

  /** A number of units as a price. */
  function Units(n: int): real {
    n as real / SCALE
  }

  lemma UnitsInOrder(m: int, n: int)
    ensures m <= n ==> Units(m) <= Units(n)
    ensures m > 0 <==> Units(m) > 0.0
    ensures m >= 0 ==> Units(m) >= 0.0
  {
  }

  lemma NearestInOrder(x: real, y: real)
    requires 0.0 < x <= y
    ensures 0 <= Nearest(x) <= Nearest(y)
    ensures Nearest(x) > 0 <==> x >= 0.5
  {
  }

  lemma ScaleUp(a: real, b: real)
    requires 0.0 < a <= b
    ensures 0.0 < a * SCALE <= b * SCALE
  {
  }

  /** Rounding keeps order, and leaves nothing exactly below half a unit. */
  lemma QuantizeProperties(a: real, b: real)
    requires 0.0 < a <= b
    ensures 0.0 <= QuantizePrice(a) <= QuantizePrice(b)
    ensures QuantizePrice(a) > 0.0 <==> a * SCALE >= 0.5
  {
    ScaleUp(a, b);
    NearestInOrder(a * SCALE, b * SCALE);
    UnitsInOrder(Nearest(a * SCALE), Nearest(b * SCALE));
    hide Nearest, Units;
  }

  /** Quantizing twice is quantizing once. */
  lemma QuantizeTwice(v: real)
    ensures QuantizePrice(QuantizePrice(v)) == QuantizePrice(v)
  {
    if v > 0.0 {
      var n := Nearest(v * SCALE);
      var q := n as real / SCALE;
      assert q * SCALE == n as real;
      assert Nearest(n as real) == n;
    }
  }

  // ----- bars

  predicate ValidBar(bar: Bar) {
    && bar.openTime > 0 && bar.open > 0.0 && bar.high > 0.0 && bar.low > 0.0 && bar.close > 0.0 && bar.volume >= 0.0
    && bar.high >= bar.open && bar.high >= bar.close && bar.low <= bar.open && bar.low <= bar.close && bar.high >= bar.low
  }

  /** Valid bars in time order, and numbered from zero where that is asked for. */
  ghost predicate ValidBars(bars: seq<Bar>, numbered: bool) {
    && |bars| > 0
    && (forall i :: 0 <= i < |bars| ==> ValidBar(bars[i]) && (numbered ==> bars[i].ordinal == i))
    && (forall i :: 0 < i < |bars| ==> bars[i - 1].openTime < bars[i].openTime)
  }

  method CheckBars(bars: seq<Bar>, numbered: bool) returns (ok: bool)
    ensures ok <==> ValidBars(bars, numbered)
  {
    if |bars| == 0 {
      return false;
    }
    for index := 0 to |bars|
      invariant forall i :: 0 <= i < index ==> ValidBar(bars[i]) && (numbered ==> bars[i].ordinal == i)
      invariant forall i :: 0 < i < index ==> bars[i - 1].openTime < bars[i].openTime
    {
      if !ValidBar(bars[index]) || (numbered && bars[index].ordinal != index) {
        return false;
      }
      if index > 0 && bars[index].openTime <= bars[index - 1].openTime {
        return false;
      }
    }
    ok := true;
  }

  ghost predicate ValidSlots(slots: seq<int>, expected: int, start: int) {
    && |slots| == expected && |slots| > 0 && slots[0] == start
    && (forall i :: 0 <= i < |slots| ==> slots[i] > 0) && (forall i, j :: 0 <= i < j < |slots| ==> slots[i] < slots[j])
  }

  method CheckSlots(slots: seq<int>, expected: int, start: int) returns (ok: bool)
    ensures ok <==> ValidSlots(slots, expected, start)
  {
    if |slots| != expected || |slots| == 0 || slots[0] != start {
      return false;
    }
    for index := 0 to |slots|
      invariant forall i :: 0 <= i < index ==> slots[i] > 0
      invariant forall i, j :: 0 <= i < j < index ==> slots[i] < slots[j]
    {
      if slots[index] <= 0 || (index > 0 && slots[index] <= slots[index - 1]) {
        return false;
      }
    }
    ok := true;
  }

  function Rescaled(price: real, multiplier: real): real {
    price * multiplier
  }

  /** A source bar rescaled and quantized for its place in the output. */
  function ScaledBar(source: Bar, multiplier: real, ordinal: int, openTime: int): Bar {
    Bar(ordinal, openTime, QuantizePrice(Rescaled(source.open, multiplier)), QuantizePrice(Rescaled(source.high, multiplier)),
        QuantizePrice(Rescaled(source.low, multiplier)), QuantizePrice(Rescaled(source.close, multiplier)), QuantizeVolume(source.volume))
  }

  /** The lowest price survives rounding. */
  predicate Survives(source: Bar, multiplier: real) {
    Rescaled(source.low, multiplier) * SCALE >= 0.5
  }

  /** Rescaling keeps the order of the four prices; a bar is lost exactly when its low rounds to zero. */
  lemma ScaledBarIsValid(source: Bar, multiplier: real, ordinal: int, openTime: int)
    requires ValidBar(source) && multiplier > 0.0 && openTime > 0
    ensures ValidBar(ScaledBar(source, multiplier, ordinal, openTime)) <==> Survives(source, multiplier)
  {
    hide QuantizePrice, QuantizeVolume, Rescaled;
    ScalePrices(multiplier, source.low, source.open);
    ScalePrices(multiplier, source.low, source.close);
    ScalePrices(multiplier, source.open, source.high);
    ScalePrices(multiplier, source.close, source.high);
    QuantizeProperties(Rescaled(source.low, multiplier), Rescaled(source.open, multiplier));
    QuantizeProperties(Rescaled(source.low, multiplier), Rescaled(source.close, multiplier));
    QuantizeProperties(Rescaled(source.open, multiplier), Rescaled(source.high, multiplier));
    QuantizeProperties(Rescaled(source.close, multiplier), Rescaled(source.high, multiplier));
    VolumeStays(source.volume);
  }

  lemma ScalePrices(multiplier: real, a: real, b: real)
    requires multiplier > 0.0 && 0.0 < a <= b
    ensures 0.0 < Rescaled(a, multiplier) <= Rescaled(b, multiplier)
  {
    MulPositive(a, multiplier);
    MulMonotone(multiplier, a, b);
  }

  lemma VolumeStays(v: real)
    requires v >= 0.0
    ensures QuantizeVolume(v) >= 0.0
  {
    UnitsInOrder(Nearest(v * SCALE), 0);
  }

  // ----- instances

  /** The close a segment continues from; its first open where none is known. */
  function Anchor(s: Segment): real
    requires |s.bars| > 0
  {
    if s.previousClose.Some? then s.previousClose.value else s.bars[0].open
  }

  function LineageOf(s: Segment, repeat: nat, source: Bar, ordinal: int, openTime: int): Lineage {
    Lineage(ordinal, openTime, InstanceId(s.itemId, repeat + 1), s.source, source.ordinal, source.openTime)
  }

  /** How an instance joins the output before it. */
  ghost predicate Joins(bars: seq<Bar>, start: nat, multiplier: real, anchor: real, actualGap: real)
    requires start < |bars|
  {
    && multiplier > 0.0
    && if start == 0 then multiplier == 1.0 && actualGap == 0.0
       else
         && anchor > 0.0 && multiplier * anchor == bars[start - 1].close
         && bars[start - 1].close > 0.0 && actualGap == bars[start].open / bars[start - 1].close - 1.0
  }

  ghost predicate Covers(out: Output, slots: seq<int>, start: nat, s: Segment, repeat: nat, multiplier: real)
    requires start + |s.bars| <= |out.bars| && |out.bars| == |out.lineage| <= |slots|
  {
    && (forall j :: 0 <= j < |s.bars| ==> out.bars[start + j] == ScaledBar(s.bars[j], multiplier, start + j, slots[start + j]))
    && (forall j :: 0 <= j < |s.bars| ==> out.lineage[start + j] == LineageOf(s, repeat, s.bars[j], start + j, slots[start + j]))
  }

  /** The k-th instance is one repetition of a segment, laid behind the instance before it. */
  ghost predicate Lays(out: Output, slots: seq<int>, k: nat, s: Segment, repeat: nat) {
    && k < |out.instances| && |s.bars| > 0 && |out.bars| == |out.lineage| <= |slots|
    && var i := out.instances[k];
       && i.instanceId == InstanceId(s.itemId, repeat + 1) && i.order == k && i.repeatOrdinal == repeat + 1 && i.source == s.source
       && i.sourceStartTime == s.startTime && i.sourceEndTime == s.endTime && i.sourceGapRatio == s.sourceGapRatio
       && i.anchorMissing == s.previousClose.None? && i.anchorValue == Anchor(s)
       && i.outputStart == (if k == 0 then 0 else out.instances[k - 1].outputEnd + 1)
       && i.outputEnd == i.outputStart + |s.bars| - 1 < |out.bars|
       && i.outputStartTime == slots[i.outputStart] && i.outputEndTime == slots[i.outputEnd]
       && Joins(out.bars, i.outputStart, i.scaleMultiplier, i.anchorValue, i.actualGapRatio)
       && Covers(out, slots, i.outputStart, s, repeat, i.scaleMultiplier)
  }

  /** Nothing that was written is written again. */
  ghost predicate Extends(before: Output, after: Output) {
    before.bars <= after.bars && before.lineage <= after.lineage && before.instances <= after.instances
  }

  lemma LaysStays(before: Output, after: Output, slots: seq<int>, k: nat, s: Segment, repeat: nat)
    requires Lays(before, slots, k, s, repeat) && Extends(before, after) && |after.bars| == |after.lineage| <= |slots|
    ensures Lays(after, slots, k, s, repeat)
  {
    hide ScaledBar, LineageOf, Anchor;
  }

  /** Where the output ends. */
  ghost predicate EndsWithLast(out: Output) {
    && |out.bars| == |out.lineage|
    && |out.bars| == if |out.instances| == 0 then 0 else out.instances[|out.instances| - 1].outputEnd + 1
  }

  datatype Placement = Placement(segment: nat, repeat: nat)

  /** The repetitions of the first n segments, in order, and of the next one the first r. */
  ghost function Placements(segments: seq<Segment>, n: nat, r: nat): seq<Placement>
    requires n <= |segments|
    decreases n, r
  {
    if r > 0 then Placements(segments, n, r - 1) + [Placement(n, r - 1)]
    else if n > 0 && segments[n - 1].repeatCount > 0 then Placements(segments, n - 1, segments[n - 1].repeatCount)
    else if n > 0 then Placements(segments, n - 1, 0)
    else []
  }

  ghost predicate LaysPlacement(segments: seq<Segment>, slots: seq<int>, out: Output, k: nat, p: Placement) {
    p.segment < |segments| && Lays(out, slots, k, segments[p.segment], p.repeat)
  }

  /** The output holds one instance for every placement, and nothing else; all its bars are valid. */
  ghost predicate Laid(segments: seq<Segment>, slots: seq<int>, out: Output, placements: seq<Placement>) {
    && |out.instances| == |placements| && EndsWithLast(out)
    && (forall k :: 0 <= k < |placements| ==> LaysPlacement(segments, slots, out, k, placements[k]))
    && (forall i :: 0 <= i < |out.bars| ==> ValidBar(out.bars[i]))
  }

  lemma LaidGrows(segments: seq<Segment>, slots: seq<int>, before: Output, placements: seq<Placement>, after: Output, p: Placement)
    requires Laid(segments, slots, before, placements) && Extends(before, after)
    requires p.segment < |segments| && |after.instances| == |placements| + 1 && EndsWithLast(after)
    requires Lays(after, slots, |placements|, segments[p.segment], p.repeat)
    requires forall i :: |before.bars| <= i < |after.bars| ==> ValidBar(after.bars[i])
    ensures Laid(segments, slots, after, placements + [p])
  {
    hide Lays, ValidBar;
    LaysBounds(after, slots, |placements|, segments[p.segment], p.repeat);
    var more := placements + [p];
    forall k | 0 <= k < |more| ensures LaysPlacement(segments, slots, after, k, more[k]) {
      if k < |placements| {
        assert more[k] == placements[k];
        LaysStays(before, after, slots, k, segments[placements[k].segment], placements[k].repeat);
      }
    }
  }

  lemma LaysBounds(out: Output, slots: seq<int>, k: nat, s: Segment, repeat: nat)
    requires Lays(out, slots, k, s, repeat)
    ensures |out.bars| == |out.lineage| <= |slots|
  {
  }

  /** Before quantization the join keeps the segment's own gap over its anchor. */
  lemma GapIsKept(out: Output, slots: seq<int>, k: nat, s: Segment, repeat: nat)
    requires Lays(out, slots, k, s, repeat) && out.instances[k].outputStart > 0
    ensures var i := out.instances[k];
            Rescaled(s.bars[0].open, i.scaleMultiplier) / out.bars[i.outputStart - 1].close == s.bars[0].open / i.anchorValue
  {
    hide Covers;
    var i := out.instances[k];
    GapAlgebra(s.bars[0].open, i.scaleMultiplier, i.anchorValue, out.bars[i.outputStart - 1].close);
  }

  lemma GapAlgebra(open: real, multiplier: real, anchor: real, close: real)
    requires anchor > 0.0 && close > 0.0 && multiplier * anchor == close
    ensures Rescaled(open, multiplier) / close == open / anchor
  {
    var q := open / anchor;
    QuotientTimes(open, anchor);
    assert q * anchor == open;
    assert q * close == q * (multiplier * anchor) == (q * anchor) * multiplier;
    QuotientUnique(q, Rescaled(open, multiplier), close);
  }

  // ----- laying one instance

  ghost predicate BarsMatch(s: Segment) {
    |s.bars| == s.barCount && ValidBars(s.bars, false)
  }

  function MultiplierFor(bars: seq<Bar>, s: Segment): real
    requires |s.bars| > 0 && (|bars| > 0 ==> Anchor(s) > 0.0)
  {
    if |bars| == 0 then 1.0 else bars[|bars| - 1].close / Anchor(s)
  }

  method CopyBars(s: Segment, repeat: nat, multiplier: real, slots: seq<int>, bars: seq<Bar>, lineage: seq<Lineage>)
    returns (r: Option<(seq<Bar>, seq<Lineage>)>)
    requires forall j :: 0 <= j < |s.bars| ==> ValidBar(s.bars[j])
    requires multiplier > 0.0 && |bars| == |lineage| && |bars| + |s.bars| <= |slots| && forall i :: 0 <= i < |slots| ==> slots[i] > 0
    ensures r.None? <==> exists j :: 0 <= j < |s.bars| && !Survives(s.bars[j], multiplier)
    ensures r.Some? ==> bars <= r.value.0 && lineage <= r.value.1 && |r.value.0| == |r.value.1| == |bars| + |s.bars|
    ensures r.Some? ==> forall j :: 0 <= j < |s.bars| ==>
              && r.value.0[|bars| + j] == ScaledBar(s.bars[j], multiplier, |bars| + j, slots[|bars| + j])
              && r.value.1[|bars| + j] == LineageOf(s, repeat, s.bars[j], |bars| + j, slots[|bars| + j])
              && ValidBar(r.value.0[|bars| + j])
  {
    hide ValidBar, Survives, ScaledBar, LineageOf;
    var newBars, newLineage := bars, lineage;
    for j := 0 to |s.bars|
      invariant bars <= newBars && lineage <= newLineage && |newBars| == |newLineage| == |bars| + j
      invariant forall i :: 0 <= i < j ==>
                  && newBars[|bars| + i] == ScaledBar(s.bars[i], multiplier, |bars| + i, slots[|bars| + i])
                  && newLineage[|bars| + i] == LineageOf(s, repeat, s.bars[i], |bars| + i, slots[|bars| + i])
                  && ValidBar(newBars[|bars| + i])
      invariant forall i :: 0 <= i < j ==> Survives(s.bars[i], multiplier)
    {
      var ordinal := |newBars|;
      var bar := ScaledBar(s.bars[j], multiplier, ordinal, slots[ordinal]);
      ScaledBarIsValid(s.bars[j], multiplier, ordinal, slots[ordinal]);
      if !ValidBar(bar) {
        return None;
      }
      newBars := newBars + [bar];
      newLineage := newLineage + [LineageOf(s, repeat, s.bars[j], ordinal, slots[ordinal])];
    }
    r := Some((newBars, newLineage));
  }

  /** A repetition that cannot be laid: it has no anchor to join by, or a price that rounds to zero. */
  ghost predicate CannotJoin(bars: seq<Bar>, s: Segment) {
    |s.bars| > 0 && |bars| > 0 && Anchor(s) <= 0.0
  }

  ghost predicate RoundsToZero(bars: seq<Bar>, s: Segment) {
    && |s.bars| > 0 && (|bars| > 0 ==> Anchor(s) > 0.0)
    && exists j :: 0 <= j < |s.bars| && !Survives(s.bars[j], MultiplierFor(bars, s))
  }

  lemma MultiplierJoins(bars: seq<Bar>, s: Segment)
    requires BarsMatch(s) && !CannotJoin(bars, s) && (|bars| > 0 ==> ValidBar(bars[|bars| - 1]))
    ensures MultiplierFor(bars, s) > 0.0
    ensures |bars| > 0 ==> MultiplierFor(bars, s) * Anchor(s) == bars[|bars| - 1].close > 0.0
  {
    if |bars| > 0 {
      var close, anchor := bars[|bars| - 1].close, Anchor(s);
      QuotientTimes(close, anchor);
      if MultiplierFor(bars, s) <= 0.0 { MulNonPositive(MultiplierFor(bars, s), anchor); }
    }
  }

  method AddInstance(s: Segment, repeat: nat, slots: seq<int>, out: Output) returns (r: Result<Output, RecompositionError>)
    requires BarsMatch(s) && EndsWithLast(out) && (|out.bars| > 0 ==> ValidBar(out.bars[|out.bars| - 1]))
    requires |out.bars| + |s.bars| <= |slots| && (forall i :: 0 <= i < |slots| ==> slots[i] > 0)
    requires |out.instances| == 0 <==> |out.bars| == 0
    ensures r.Err? ==> (r.error == InvalidPlan && CannotJoin(out.bars, s)) || (r.error == NumericResult && RoundsToZero(out.bars, s))
    ensures r.Ok? ==> Extends(out, r.value) && EndsWithLast(r.value) && Lays(r.value, slots, |out.instances|, s, repeat)
    ensures r.Ok? ==> |r.value.instances| == |out.instances| + 1 && |r.value.bars| == |out.bars| + |s.bars|
    ensures r.Ok? ==> forall i :: |out.bars| <= i < |r.value.bars| ==> ValidBar(r.value.bars[i])
    ensures r.Ok? ==> r.value.anchorWarnings == out.anchorWarnings + if s.previousClose.None? then 1 else 0
  {
    hide ValidBar, Survives, ScaledBar, LineageOf, Anchor;
    var start := |out.bars|;
    var anchorMissing, anchorValue := s.previousClose.None?, Anchor(s);
    if start > 0 && anchorValue <= 0.0 {
      return Err(InvalidPlan);
    }
    MultiplierJoins(out.bars, s);
    var multiplier := MultiplierFor(out.bars, s);
    var copied := CopyBars(s, repeat, multiplier, slots, out.bars, out.lineage);
    if copied.None? {
      return Err(NumericResult);
    }
    var (bars, lineage) := copied.value;
    PrefixKept(out.bars, bars);
    forall i | start <= i < |bars| ensures ValidBar(bars[i]) {
      var j := i - start;
      assert bars[start + j] == ScaledBar(s.bars[j], multiplier, start + j, slots[start + j]);
    }
    var actualGap := if start > 0 then GapOf(bars, start) else 0.0;
    var instance := Instance(InstanceId(s.itemId, repeat + 1), |out.instances|, repeat + 1, s.source, s.startTime, s.endTime, start, start + |s.bars| - 1,
                             slots[start], slots[start + |s.bars| - 1], multiplier, s.sourceGapRatio, actualGap, anchorMissing, anchorValue);
    r := Ok(Output(bars, out.instances + [instance], lineage, out.anchorWarnings + if anchorMissing then 1 else 0));
  }

  lemma PrefixKept(before: seq<Bar>, after: seq<Bar>)
    requires before <= after
    ensures |before| > 0 ==> after[|before| - 1] == before[|before| - 1]
  {
  }

  function GapOf(bars: seq<Bar>, start: nat): real
    requires 0 < start < |bars|
  {
    if bars[start - 1].close == 0.0 then 0.0 else bars[start].open / bars[start - 1].close - 1.0
  }

  // ----- the content identity

  /** What the content hash demands of bars and lineage. */
  ghost predicate ContentIsSound(bars: seq<Bar>, lineage: seq<Lineage>) {
    && ValidBars(bars, true) && |lineage| == |bars|
    && forall i :: 0 <= i < |lineage| ==> RowIsSound(lineage[i], i, bars[i].openTime)
  }

  predicate RowIsSound(row: Lineage, ordinal: int, openTime: int) {
    && row.outputOrdinal == ordinal && row.outputOpenTime == openTime && row.instanceId != "" && row.source.versionId != 0
    && !Blank(row.source.contentHash) && row.sourceOpenTime > 0
  }

  method HashRecompositionContent(bars: seq<Bar>, lineage: seq<Lineage>, hash: (seq<Bar>, seq<Lineage>) -> string) returns (r: Result<string, RecompositionError>)
    ensures r.Ok? <==> ContentIsSound(bars, lineage)
    ensures r.Ok? ==> r.value == hash(bars, lineage)
  {
    hide ValidBars, RowIsSound;
    var valid := CheckBars(bars, true);
    if !valid || |lineage| != |bars| {
      return Err(NumericResult);
    }
    for i := 0 to |lineage|
      invariant forall j :: 0 <= j < i ==> RowIsSound(lineage[j], j, bars[j].openTime)
    {
      if !RowIsSound(lineage[i], i, bars[i].openTime) {
        return Err(NumericResult);
      }
    }
    r := Ok(hash(bars, lineage));
  }

  /** Each output bar lies in an instance, and has that instance's slot and lineage. */
  lemma {:induction false} BarBelongs(segments: seq<Segment>, slots: seq<int>, out: Output, placements: seq<Placement>, n: nat, i: nat)
    requires Laid(segments, slots, out, placements) && n <= |placements|
    requires i < if n == 0 then 0 else out.instances[n - 1].outputEnd + 1
    ensures exists k :: Belongs(segments, slots, out, placements, k, i)
  {
    hide Covers, Joins, ValidBar;
    assert LaysPlacement(segments, slots, out, n - 1, placements[n - 1]);
    if i < out.instances[n - 1].outputStart {
      BarBelongs(segments, slots, out, placements, n - 1, i);
    } else {
      assert Belongs(segments, slots, out, placements, n - 1, i);
    }
  }

  /** A bar of the output copies one bar of the segment of its instance. */
  ghost predicate Belongs(segments: seq<Segment>, slots: seq<int>, out: Output, placements: seq<Placement>, k: int, i: nat) {
    && 0 <= k < |placements| == |out.instances| && placements[k].segment < |segments|
    && Lays(out, slots, k, segments[placements[k].segment], placements[k].repeat)
    && out.instances[k].outputStart <= i <= out.instances[k].outputEnd
  }

  lemma BelongingRow(segments: seq<Segment>, slots: seq<int>, out: Output, placements: seq<Placement>, k: int, i: nat)
    requires Belongs(segments, slots, out, placements, k, i)
    ensures i < |out.bars| == |out.lineage| <= |slots| && out.bars[i].ordinal == i && out.bars[i].openTime == slots[i]
    ensures var s := segments[placements[k].segment];
            var j := i - out.instances[k].outputStart;
            0 <= j < |s.bars| && out.lineage[i] == LineageOf(s, placements[k].repeat, s.bars[j], i, slots[i])
  {
    hide Joins;
    var s := segments[placements[k].segment];
    var start := out.instances[k].outputStart;
    var j := i - start;
    assert out.bars[start + j] == ScaledBar(s.bars[j], out.instances[k].scaleMultiplier, start + j, slots[start + j]);
    assert out.lineage[start + j] == LineageOf(s, placements[k].repeat, s.bars[j], start + j, slots[start + j]);
  }

  /** The source identities that lineage rows carry are those of a normal plan. */
  ghost predicate SourcesKnown(segments: seq<Segment>) {
    forall i :: 0 <= i < |segments| ==> segments[i].source.versionId != 0 && !Blank(segments[i].source.contentHash) && BarsMatch(segments[i])
  }

  /** On an output that has been laid completely the content checks never fail. */
  lemma LaidIsSound(segments: seq<Segment>, slots: seq<int>, out: Output, placements: seq<Placement>, start: int)
    requires Laid(segments, slots, out, placements) && SourcesKnown(segments)
    requires ValidSlots(slots, |out.bars|, start)
    ensures ContentIsSound(out.bars, out.lineage)
  {
    hide Covers, Joins, ValidBar, Blank, Lays;
    var n := |placements|;
    forall i | 0 <= i < |out.bars|
      ensures out.bars[i].ordinal == i && out.bars[i].openTime == slots[i] && RowIsSound(out.lineage[i], i, slots[i])
    {
      BarBelongs(segments, slots, out, placements, n, i);
      var k :| Belongs(segments, slots, out, placements, k, i);
      BelongingRow(segments, slots, out, placements, k, i);
      SourceIsKnown(segments, placements[k].segment, i - out.instances[k].outputStart);
    }
  }

  lemma SourceIsKnown(segments: seq<Segment>, s: nat, j: int)
    requires SourcesKnown(segments) && s < |segments| && 0 <= j < |segments[s].bars|
    ensures segments[s].source.versionId != 0 && !Blank(segments[s].source.contentHash) && segments[s].bars[j].openTime > 0
  {
    assert BarsMatch(segments[s]);
    assert ValidBar(segments[s].bars[j]);
  }

  // ----- the whole recomposition

  lemma {:induction false} OutputBarsGrow(segments: seq<Segment>, interval: string, n: nat, m: nat)
    requires n <= m <= |segments| && ValidSegments(segments, interval, |segments|)
    ensures 0 <= OutputBars(segments, n) <= OutputBars(segments, m)
    decreases m
  {
    hide Blank, Trim;
    if n < m {
      OutputBarsGrow(segments, interval, n, m - 1);
      assert ValidSegment(segments[m - 1], m - 1, interval);
      ProductFits(segments[m - 1].barCount, segments[m - 1].repeatCount);
    } else if n > 0 {
      OutputBarsGrow(segments, interval, n - 1, n - 1);
      assert ValidSegment(segments[n - 1], n - 1, interval);
      ProductFits(segments[n - 1].barCount, segments[n - 1].repeatCount);
    }
  }

  /** What still fits behind r repetitions of a segment. */
  lemma RepeatFits(segments: seq<Segment>, interval: string, n: nat, r: nat)
    requires n < |segments| && ValidSegments(segments, interval, |segments|) && r < segments[n].repeatCount
    ensures 0 <= OutputBars(segments, n) && OutputBars(segments, n) + r * segments[n].barCount + segments[n].barCount <= OutputBars(segments, |segments|)
    ensures (r + 1) * segments[n].barCount == r * segments[n].barCount + segments[n].barCount
    ensures segments[n].repeatCount * segments[n].barCount == segments[n].barCount * segments[n].repeatCount
    ensures 0 <= r * segments[n].barCount
  {
    hide ValidSegments, OutputBars;
    OutputBarsGrow(segments, interval, n + 1, |segments|);
    OutputBarsGrow(segments, interval, n, n);
    SegmentCounts(segments, interval, n);
    RepeatsCount(segments[n].barCount, r, segments[n].repeatCount);
  }

  lemma SegmentCounts(segments: seq<Segment>, interval: string, n: nat)
    requires n < |segments| && ValidSegments(segments, interval, |segments|)
    ensures segments[n].barCount > 0 && OutputBars(segments, n + 1) == OutputBars(segments, n) + segments[n].barCount * segments[n].repeatCount
  {
    hide Blank, Trim;
    assert ValidSegment(segments[n], n, interval);
  }

  lemma RepeatsCount(bars: int, r: nat, repeats: int)
    requires bars > 0 && r < repeats
    ensures 0 <= r * bars && r * bars + bars <= bars * repeats
    ensures (r + 1) * bars == r * bars + bars && repeats * bars == bars * repeats
  {
    IntMonotone(bars, r + 1, repeats);
    IntMonotone(bars, 0, r);
  }

  /** The output after r repetitions of segment n. */
  ghost predicate SoFar(segments: seq<Segment>, slots: seq<int>, out: Output, n: nat, r: nat) {
    && n <= |segments| && (n < |segments| && r > 0 ==> r <= segments[n].repeatCount) && (n == |segments| ==> r == 0)
    && Laid(segments, slots, out, Placements(segments, n, r))
    && |out.bars| == OutputBars(segments, n) + if n < |segments| then r * segments[n].barCount else 0
  }

  lemma NothingLaid(segments: seq<Segment>, slots: seq<int>)
    ensures SoFar(segments, slots, Output([], [], [], 0), 0, 0)
  {
  }

  lemma NextSegment(segments: seq<Segment>, slots: seq<int>, out: Output, n: nat)
    requires n < |segments| && segments[n].repeatCount > 0 && SoFar(segments, slots, out, n, segments[n].repeatCount)
    ensures SoFar(segments, slots, out, n + 1, 0)
  {
    hide Laid;
    assert Placements(segments, n + 1, 0) == Placements(segments, n, segments[n].repeatCount);
    assert segments[n].repeatCount * segments[n].barCount == segments[n].barCount * segments[n].repeatCount;
  }

  lemma NextRepeat(segments: seq<Segment>, slots: seq<int>, before: Output, n: nat, r: nat, after: Output)
    requires n < |segments| && r < segments[n].repeatCount && SoFar(segments, slots, before, n, r) && BarsMatch(segments[n])
    requires Extends(before, after) && EndsWithLast(after) && Lays(after, slots, |before.instances|, segments[n], r)
    requires |after.instances| == |before.instances| + 1 && |after.bars| == |before.bars| + |segments[n].bars|
    requires forall i :: |before.bars| <= i < |after.bars| ==> ValidBar(after.bars[i])
    ensures SoFar(segments, slots, after, n, r + 1)
  {
    hide Lays, ValidBar, Placements;
    OnePlacementMore(segments, n, r);
    LaidCount(segments, slots, before, Placements(segments, n, r));
    LaidGrows(segments, slots, before, Placements(segments, n, r), after, Placement(n, r));
    assert (r + 1) * segments[n].barCount == r * segments[n].barCount + segments[n].barCount;
  }

  lemma OnePlacementMore(segments: seq<Segment>, n: nat, r: nat)
    requires n <= |segments|
    ensures Placements(segments, n, r + 1) == Placements(segments, n, r) + [Placement(n, r)]
  {
  }

  lemma LaidCount(segments: seq<Segment>, slots: seq<int>, out: Output, placements: seq<Placement>)
    requires Laid(segments, slots, out, placements)
    ensures |out.instances| == |placements| && EndsWithLast(out)
    ensures |out.bars| > 0 ==> ValidBar(out.bars[|out.bars| - 1])
    ensures |out.instances| == 0 <==> |out.bars| == 0
  {
    hide ValidBar, Covers, Joins;
    if |placements| > 0 { assert LaysPlacement(segments, slots, out, |placements| - 1, placements[|placements| - 1]); }
  }

  /** Where a recomposition stopped, and why it could not go on. */
  ghost predicate StopsAt(segments: seq<Segment>, slots: seq<int>, out: Output, n: nat, r: nat, error: RecompositionError) {
    && n < |segments| && r < segments[n].repeatCount && SoFar(segments, slots, out, n, r)
    && (forall i :: 0 <= i < n ==> BarsMatch(segments[i])) && (r > 0 ==> BarsMatch(segments[n]))
    && match error
       case InvalidPlan => !BarsMatch(segments[n]) || CannotJoin(out.bars, segments[n])
       case NumericResult => BarsMatch(segments[n]) && RoundsToZero(out.bars, segments[n])
       case CalendarSlots => false
  }

  /** Some repetition stopped it. */
  ghost predicate Stops(segments: seq<Segment>, slots: seq<int>, error: RecompositionError) {
    exists out, n: nat, r: nat :: StopsAt(segments, slots, out, n, r, error)
  }

  /** A segment repeated as often as its plan says. */
  method AddSegment(ghost segments: seq<Segment>, interval: string, n: nat, s: Segment, slots: seq<int>, start: Output)
    returns (r: Result<Output, RecompositionError>)
    requires ValidSegments(segments, interval, |segments|) && n < |segments| && s == segments[n] && BarsMatch(s)
    requires SoFar(segments, slots, start, n, 0) && forall i :: 0 <= i < n ==> BarsMatch(segments[i])
    requires |slots| == OutputBars(segments, |segments|) && forall i :: 0 <= i < |slots| ==> slots[i] > 0
    ensures r.Ok? ==> SoFar(segments, slots, r.value, n + 1, 0)
    ensures r.Err? ==> Stops(segments, slots, r.error)
  {
    hide Laid, Placements, Lays, ValidBar, ValidSegments, EndsWithLast, CannotJoin, RoundsToZero, BarsMatch;
    SegmentRepeats(segments, interval, n);
    var out := start;
    for repeat := 0 to s.repeatCount
      invariant SoFar(segments, slots, out, n, repeat)
    {
      RepeatFits(segments, interval, n, repeat);
      LaidCount(segments, slots, out, Placements(segments, n, repeat));
      MatchingLength(s);
      var added := AddInstance(s, repeat, slots, out);
      if added.Err? {
        assert StopsAt(segments, slots, out, n, repeat, added.error);
        return Err(added.error);
      }
      NextRepeat(segments, slots, out, n, repeat, added.value);
      out := added.value;
    }
    NextSegment(segments, slots, out, n);
    r := Ok(out);
  }

  lemma SegmentRepeats(segments: seq<Segment>, interval: string, n: nat)
    requires ValidSegments(segments, interval, |segments|) && n < |segments|
    ensures segments[n].repeatCount > 0
  {
    hide Blank, Trim;
    assert ValidSegment(segments[n], n, interval);
  }

  lemma MatchingLength(s: Segment)
    requires BarsMatch(s)
    ensures |s.bars| == s.barCount > 0
  {
  }

  // ----- what is laid is determined by what was laid before

  /** Where the first k instances end. */
  ghost function EndOf(out: Output, k: nat): int
    requires k <= |out.instances|
  {
    if k == 0 then 0 else out.instances[k - 1].outputEnd + 1
  }

  lemma SameMultiplier(one: seq<Bar>, two: seq<Bar>, start: nat, m: real, n: real, anchor: real, gap: real, otherGap: real)
    requires start < |one| && start < |two| && one[..start] == two[..start]
    requires Joins(one, start, m, anchor, gap) && Joins(two, start, n, anchor, otherGap)
    ensures m == n
  {
    if start > 0 {
      assert one[start - 1] == one[..start][start - 1] == two[start - 1];
      QuotientUnique(m, one[start - 1].close, anchor);
      QuotientUnique(n, one[start - 1].close, anchor);
    }
  }

  /** One more instance of the same segment on the same bars leaves the same bars. */
  lemma SameInstance(one: Output, two: Output, slots: seq<int>, k: nat, s: Segment, repeat: nat)
    requires Lays(one, slots, k, s, repeat) && Lays(two, slots, k, s, repeat)
    requires EndOf(one, k) == EndOf(two, k) >= 0 && one.bars[..EndOf(one, k)] == two.bars[..EndOf(one, k)]
    ensures 0 <= EndOf(one, k + 1) == EndOf(two, k + 1) <= |one.bars| && EndOf(two, k + 1) <= |two.bars|
    ensures one.bars[..EndOf(one, k + 1)] == two.bars[..EndOf(one, k + 1)]
  {
    hide Joins, ScaledBar, LineageOf, Anchor;
    var i, j, start := one.instances[k], two.instances[k], EndOf(one, k);
    SameMultiplier(one.bars, two.bars, start, i.scaleMultiplier, j.scaleMultiplier, Anchor(s), i.actualGapRatio, j.actualGapRatio);
    forall b | 0 <= b < EndOf(one, k + 1) ensures one.bars[b] == two.bars[b] {
      if b < start {
        assert one.bars[b] == one.bars[..start][b];
      } else {
        var c := b - start;
        assert one.bars[start + c] == ScaledBar(s.bars[c], i.scaleMultiplier, start + c, slots[start + c]);
        assert two.bars[start + c] == ScaledBar(s.bars[c], i.scaleMultiplier, start + c, slots[start + c]);
      }
    }
  }

  lemma {:induction false} SameBars(segments: seq<Segment>, slots: seq<int>, one: Output, two: Output, p: seq<Placement>, q: seq<Placement>, k: nat)
    requires Laid(segments, slots, one, p) && Laid(segments, slots, two, q) && k <= |p| && k <= |q| && p[..k] == q[..k]
    ensures 0 <= EndOf(one, k) == EndOf(two, k) <= |one.bars| && EndOf(two, k) <= |two.bars|
    ensures one.bars[..EndOf(one, k)] == two.bars[..EndOf(one, k)]
  {
    hide Lays, ValidBar;
    if k > 0 {
      assert p[..k - 1] == p[..k][..k - 1] && q[..k - 1] == q[..k][..k - 1];
      SameBars(segments, slots, one, two, p, q, k - 1);
      assert p[k - 1] == p[..k][k - 1] == q[k - 1];
      assert LaysPlacement(segments, slots, one, k - 1, p[k - 1]) && LaysPlacement(segments, slots, two, k - 1, p[k - 1]);
      SameInstance(one, two, slots, k - 1, segments[p[k - 1].segment], p[k - 1].repeat);
    }
  }

  /** What was laid could be laid: the anchor joined, and no price rounded to zero. */
  lemma LaidCouldBeLaid(out: Output, slots: seq<int>, k: nat, s: Segment, repeat: nat, before: seq<Bar>)
    requires Lays(out, slots, k, s, repeat) && BarsMatch(s) && out.instances[k].outputStart == |before| && before == out.bars[..|before|]
    requires forall i :: 0 <= i < |out.bars| ==> ValidBar(out.bars[i])
    ensures !CannotJoin(before, s) && !RoundsToZero(before, s)
  {
    hide ValidBar, ScaledBar, LineageOf, Anchor, Survives;
    var i := out.instances[k];
    var start, m := i.outputStart, i.scaleMultiplier;
    if start > 0 {
      assert before[start - 1] == out.bars[start - 1];
      QuotientUnique(m, before[start - 1].close, Anchor(s));
    }
    forall j | 0 <= j < |s.bars| ensures Survives(s.bars[j], m) {
      assert out.bars[start + j] == ScaledBar(s.bars[j], m, start + j, slots[start + j]);
      OpenTimeOfValid(out.bars[start + j]);
      ScaledOpenTime(s.bars[j], m, start + j, slots[start + j]);
      ScaledBarIsValid(s.bars[j], m, start + j, slots[start + j]);
    }
  }

  lemma OpenTimeOfValid(bar: Bar)
    requires ValidBar(bar)
    ensures bar.openTime > 0
  {
  }

  lemma ScaledOpenTime(source: Bar, multiplier: real, ordinal: int, openTime: int)
    ensures ScaledBar(source, multiplier, ordinal, openTime).openTime == openTime
  {
  }

  lemma {:induction false} PlacementsPrefix(segments: seq<Segment>, n: nat, r: nat, m: nat, q: nat)
    requires m <= |segments| && (forall i :: 0 <= i < |segments| ==> segments[i].repeatCount > 0)
    requires (n == m && r <= q) || (n < m && r <= segments[n].repeatCount)
    ensures Placements(segments, n, r) <= Placements(segments, m, q)
    decreases m, q
  {
    if n != m || r != q {
      if q > 0 {
        PlacementsPrefix(segments, n, r, m, q - 1);
      } else {
        PlacementsPrefix(segments, n, r, m - 1, segments[m - 1].repeatCount);
      }
    }
  }

  /** A recomposition did not stop at a repetition that lies behind a longer output. */
  lemma StopRefuted(segments: seq<Segment>, slots: seq<int>, before: Output, n: nat, r: nat, error: RecompositionError, out: Output, m: nat, q: nat)
    requires m <= |segments| && Laid(segments, slots, out, Placements(segments, m, q))
    requires n < |segments| && BarsMatch(segments[n]) && ((n == m && r < q) || n < m)
    requires forall i :: 0 <= i < |segments| ==> segments[i].repeatCount > 0
    ensures !StopsAt(segments, slots, before, n, r, error)
  {
    hide Lays, ValidBar, Placements, CannotJoin, RoundsToZero, BarsMatch, EndsWithLast;
    if StopsAt(segments, slots, before, n, r, error) {
      var few, more, all := Placements(segments, n, r), Placements(segments, n, r + 1), Placements(segments, m, q);
      OnePlacementMore(segments, n, r);
      PlacementsPrefix(segments, n, r + 1, m, q);
      var k := |few|;
      assert all[..k] == few[..k] && all[k] == more[k] == Placement(n, r);
      SameBars(segments, slots, out, before, all, few, k);
      LaidCount(segments, slots, before, few);
      LaidEnds(before);
      assert LaysPlacement(segments, slots, out, k, all[k]);
      StartsAtEnd(out, slots, k, segments[n], r);
      LaidCouldBeLaid(out, slots, k, segments[n], r, before.bars);
    }
  }

  lemma LaidEnds(out: Output)
    requires EndsWithLast(out)
    ensures EndOf(out, |out.instances|) == |out.bars| && out.bars[..|out.bars|] == out.bars
  {
  }

  lemma StartsAtEnd(out: Output, slots: seq<int>, k: nat, s: Segment, repeat: nat)
    requires Lays(out, slots, k, s, repeat)
    ensures out.instances[k].outputStart == EndOf(out, k)
  {
  }

  /** A recomposition stops at one repetition only, and for one reason. */
  lemma StopsOnce(segments: seq<Segment>, slots: seq<int>, error: RecompositionError, other: RecompositionError)
    requires Stops(segments, slots, error) && Stops(segments, slots, other)
    requires forall i :: 0 <= i < |segments| ==> segments[i].repeatCount > 0
    ensures error == other
  {
    hide Laid, Placements, CannotJoin, RoundsToZero, BarsMatch;
    var out, n: nat, r: nat :| StopsAt(segments, slots, out, n, r, error);
    var two, m: nat, q: nat :| StopsAt(segments, slots, two, m, q, other);
    if n < m || (n == m && r < q) {
      StopRefuted(segments, slots, out, n, r, error, two, m, q);
    } else if m < n || (n == m && q < r) {
      StopRefuted(segments, slots, two, m, q, other, out, n, r);
    } else {
      SameStop(segments, slots, out, two, Placements(segments, n, r));
      EitherReason(out.bars, segments[n]);
    }
  }

  lemma SameStop(segments: seq<Segment>, slots: seq<int>, one: Output, two: Output, p: seq<Placement>)
    requires Laid(segments, slots, one, p) && Laid(segments, slots, two, p)
    ensures one.bars == two.bars
  {
    hide Lays, ValidBar;
    SameBars(segments, slots, one, two, p, p, |p|);
    LaidEnds(one);
    LaidEnds(two);
  }

  lemma EitherReason(bars: seq<Bar>, s: Segment)
    ensures !(CannotJoin(bars, s) && RoundsToZero(bars, s))
  {
  }

  lemma OnlyReason(segments: seq<Segment>, interval: string, slots: seq<int>, error: RecompositionError)
    requires ValidSegments(segments, interval, |segments|) && Stops(segments, slots, error)
    ensures forall other :: Stops(segments, slots, other) <==> other == error
  {
    hide ValidSegments, Stops;
    forall i | 0 <= i < |segments| ensures segments[i].repeatCount > 0 { SegmentRepeats(segments, interval, i); }
    forall other | Stops(segments, slots, other) ensures other == error { StopsOnce(segments, slots, error, other); }
  }

  /** Nothing stops a recomposition that has been completed. */
  lemma NothingStops(segments: seq<Segment>, interval: string, slots: seq<int>, out: Output, error: RecompositionError)
    requires ValidSegments(segments, interval, |segments|) && SoFar(segments, slots, out, |segments|, 0)
    requires forall i :: 0 <= i < |segments| ==> BarsMatch(segments[i])
    ensures !Stops(segments, slots, error)
  {
    hide ValidSegments, Laid, Placements, CannotJoin, RoundsToZero, BarsMatch;
    forall i | 0 <= i < |segments| ensures segments[i].repeatCount > 0 { SegmentRepeats(segments, interval, i); }
    if before, n: nat, r: nat :| StopsAt(segments, slots, before, n, r, error) {
      StopRefuted(segments, slots, before, n, r, error, out, |segments|, 0);
    }
  }

  datatype Recomposed = Recomposed(output: Output, contentHash: string)

  /**
    A recomposition, or why there is none. On success every segment of the normalised plan has been
    laid as often as planned and the slots are filled exactly; otherwise the plan or the slots are
    invalid, or one repetition could not be laid behind what was laid before it.
   */
  method Recompose(rawPlan: Plan, slots: seq<int>, hash: (seq<Bar>, seq<Lineage>) -> string)
    returns (r: Result<Recomposed, RecompositionError>)
    ensures Normalizable(rawPlan) && !ValidSlots(slots, Normalized(rawPlan).totalOutputBars, rawPlan.outputStartTime) <==> r == Err(CalendarSlots)
    ensures !Normalizable(rawPlan) ==> r == Err(InvalidPlan)
    ensures Normalizable(rawPlan) && ValidSlots(slots, Normalized(rawPlan).totalOutputBars, rawPlan.outputStartTime) ==>
              forall error :: Stops(Normalized(rawPlan).segments, slots, error) <==> r == Err(error)
    ensures r.Ok? ==> var segments := Normalized(rawPlan).segments;
                      && Normalizable(rawPlan) && (forall n :: 0 <= n < |segments| ==> BarsMatch(segments[n]))
                      && |r.value.output.bars| == |slots| == Normalized(rawPlan).totalOutputBars
                      && Laid(segments, slots, r.value.output, Placements(segments, |segments|, 0))
                      && r.value.contentHash == hash(r.value.output.bars, r.value.output.lineage)
  {
    hide Normalizable, Normalized, ValidSlots, Laid, Placements, ContentIsSound, ValidSegments, BarsMatch, Identified;
    var normalized := NormalizePlan(rawPlan);
    if normalized.Err? {
      return Err(InvalidPlan);
    }
    NormalPlan(rawPlan);
    var plan := normalized.value;
    ghost var segments := plan.segments;
    var slotsFit := CheckSlots(slots, plan.totalOutputBars, plan.outputStartTime);
    if !slotsFit {
      return Err(CalendarSlots);
    }
    SlotsAre(slots, plan.totalOutputBars, plan.outputStartTime);
    var out := Output([], [], [], 0);
    NothingLaid(segments, slots);
    for n := 0 to |plan.segments|
      invariant SoFar(segments, slots, out, n, 0)
      invariant forall i :: 0 <= i < n ==> BarsMatch(segments[i])
    {
      var segment := plan.segments[n];
      var valid := CheckSegmentBars(segment);
      if !valid {
        SegmentRepeats(segments, plan.interval, n);
        assert StopsAt(segments, slots, out, n, 0, InvalidPlan);
        OnlyReason(segments, plan.interval, slots, InvalidPlan);
        return Err(InvalidPlan);
      }
      var added := AddSegment(segments, plan.interval, n, segment, slots, out);
      if added.Err? {
        OnlyReason(segments, plan.interval, slots, added.error);
        return Err(added.error);
      }
      out := added.value;
    }
    forall error ensures !Stops(segments, slots, error) { NothingStops(segments, plan.interval, slots, out, error); }
    SourcesAre(segments, plan.interval);
    LaidIsSound(segments, slots, out, Placements(segments, |segments|, 0), plan.outputStartTime);
    var contentHash := HashRecompositionContent(out.bars, out.lineage, hash);
    if |out.bars| != plan.totalOutputBars || contentHash.Err? {
      assert false;
      return Err(NumericResult);
    }
    r := Ok(Recomposed(out, contentHash.value));
  }

  method CheckSegmentBars(s: Segment) returns (ok: bool)
    ensures ok <==> BarsMatch(s)
  {
    if |s.bars| != s.barCount {
      return false;
    }
    ok := CheckBars(s.bars, false);
  }

  lemma NormalPlan(plan: Plan)
    requires Normalizable(plan)
    ensures var p := Normalized(plan);
            && p.outputStartTime == plan.outputStartTime && ValidSegments(p.segments, p.interval, |p.segments|)
            && p.totalOutputBars == OutputBars(p.segments, |p.segments|)
  {
    hide Arranged, Trim, Blank, ValidSegments, Identified;
  }

  lemma SlotsAre(slots: seq<int>, expected: int, start: int)
    requires ValidSlots(slots, expected, start)
    ensures |slots| == expected && forall i :: 0 <= i < |slots| ==> slots[i] > 0
  {
  }

  lemma SourcesAre(segments: seq<Segment>, interval: string)
    requires ValidSegments(segments, interval, |segments|) && forall i :: 0 <= i < |segments| ==> BarsMatch(segments[i])
    ensures SourcesKnown(segments)
  {
    hide Blank, Trim, BarsMatch;
    forall i | 0 <= i < |segments| ensures segments[i].source.versionId != 0 && !Blank(segments[i].source.contentHash) {
      assert ValidSegment(segments[i], i, interval);
    }
  }
}
