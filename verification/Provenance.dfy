/**
  Where the bars of a recomposition come from (internal/marketversion/recomposition.go): every output
  bar copies one source bar, price by price, at the scale of its instance and rounded to ten decimals,
  and its lineage row says which.
 */
module Provenance {
  import opened Wrappers
  import opened RealMath
  import opened RecompositionPlan
  import opened Recomposition

  const TEN_DECIMALS := 10000000000.0

  /** A number of ten decimals at most half a unit of the last one away. */
  ghost predicate RoundedFrom(output: real, exact: real) {
    && Whole(output * TEN_DECIMALS)
    && -0.5 <= (output - exact) * TEN_DECIMALS <= 0.5
  }

  /** The price at a scale, before rounding. */
  ghost function Exact(price: real, multiplier: real): real {
    price * multiplier
  }

  /** A bar whose four prices are a source bar's at a scale, rounded, and whose volume is the source's, rounded. */
  ghost predicate Copies(bar: Bar, source: Bar, multiplier: real) {
    && RoundedFrom(bar.open, Exact(source.open, multiplier)) && RoundedFrom(bar.high, Exact(source.high, multiplier))
    && RoundedFrom(bar.low, Exact(source.low, multiplier)) && RoundedFrom(bar.close, Exact(source.close, multiplier))
    && RoundedFrom(bar.volume, source.volume)
  }

  /** A lineage row that names the version, the instance and the bar it was copied from. */
  ghost predicate Names(row: Lineage, s: Segment, repeatOrdinal: nat, source: Bar, ordinal: int, openTime: int) {
    && row.outputOrdinal == ordinal && row.outputOpenTime == openTime
    && row.instanceId == InstanceId(s.itemId, repeatOrdinal)
    && row.source.versionId == s.source.versionId && row.source.contentHash == s.source.contentHash
    && row.sourceOrdinal == source.ordinal && row.sourceOpenTime == source.openTime
  }

  lemma UnitsAreWhole(n: int)
    ensures Units(n) * TEN_DECIMALS == n as real && Whole(n as real)
  {
    QuotientTimes(n as real, TEN_DECIMALS);
    WholeInt(n);
  }

  lemma NearestWithin(x: real)
    ensures -0.5 <= Nearest(x) as real - x <= 0.5
  {
  }

  lemma QuantizedPrice(v: real)
    requires v > 0.0
    ensures RoundedFrom(QuantizePrice(v), v)
  {
    hide Nearest, Units;
    UnitsAreWhole(Nearest(v * SCALE));
    NearestWithin(v * SCALE);
  }

  lemma QuantizedVolume(v: real)
    requires v >= 0.0
    ensures RoundedFrom(QuantizeVolume(v), v)
  {
    hide Nearest, Units;
    UnitsAreWhole(Nearest(v * SCALE));
    NearestWithin(v * SCALE);
  }

  lemma ScaledBarCopies(source: Bar, multiplier: real, ordinal: int, openTime: int)
    requires ValidBar(source) && multiplier > 0.0
    ensures Copies(ScaledBar(source, multiplier, ordinal, openTime), source, multiplier)
  {
    hide QuantizePrice, QuantizeVolume, RoundedFrom, Rescaled, Exact;
    RescaledPrice(source.open, multiplier);
    RescaledPrice(source.high, multiplier);
    RescaledPrice(source.low, multiplier);
    RescaledPrice(source.close, multiplier);
    QuantizedVolume(source.volume);
  }

  lemma RescaledPrice(price: real, multiplier: real)
    requires price > 0.0 && multiplier > 0.0
    ensures RoundedFrom(QuantizePrice(Rescaled(price, multiplier)), Exact(price, multiplier))
  {
    hide QuantizePrice;
    MulPositive(price, multiplier);
    QuantizedPrice(price * multiplier);
  }

  /**
    The scale of an instance: one for the first, and otherwise what takes the segment's anchor, its known
    previous close or else its first open, to the close of the output bar before it.
   */
  ghost predicate ScaleJoins(out: Output, k: nat, s: Segment)
    requires k < |out.instances|
  {
    && |s.bars| > 0
    && var i := out.instances[k];
    var anchor := if s.previousClose.Some? then s.previousClose.value else s.bars[0].open;
    if i.outputStart == 0 then i.scaleMultiplier == 1.0
    else i.outputStart <= |out.bars| && anchor > 0.0 && i.scaleMultiplier * anchor == out.bars[i.outputStart - 1].close
  }

  /** Where an output bar comes from: an instance of a segment, and its bar at the same distance from the start. */
  ghost predicate ComesFrom(segments: seq<Segment>, slots: seq<int>, out: Output, placements: seq<Placement>, b: nat, k: nat, j: nat)
    requires b < |out.bars| == |out.lineage| <= |slots|
  {
    && k < |placements| == |out.instances| && placements[k].segment < |segments|
    && var s, i := segments[placements[k].segment], out.instances[k];
       && i.outputStart + j == b && b <= i.outputEnd && j < |s.bars| && ScaleJoins(out, k, s)
       && out.bars[b].ordinal == b && out.bars[b].openTime == slots[b]
       && Copies(out.bars[b], s.bars[j], i.scaleMultiplier)
       && Names(out.lineage[b], s, placements[k].repeat + 1, s.bars[j], b, slots[b])
  }

  lemma BarOfInstance(segments: seq<Segment>, slots: seq<int>, out: Output, placements: seq<Placement>, k: nat, b: nat)
    requires Belongs(segments, slots, out, placements, k, b) && BarsMatch(segments[placements[k].segment])
    ensures b < |out.bars| == |out.lineage| <= |slots| && out.instances[k].outputStart <= b
    ensures ComesFrom(segments, slots, out, placements, b, k, b - out.instances[k].outputStart)
  {
    hide Copies, Names, ScaledBar, ValidBar, LineageOf, InstanceId;
    BelongingRow(segments, slots, out, placements, k, b);
    var s, i := segments[placements[k].segment], out.instances[k];
    var j := b - i.outputStart;
    CopiedBar(out, slots, k, s, placements[k].repeat, j);
    LineageNames(s, placements[k].repeat, s.bars[j], b, slots[b]);
    hide Covers;
    LaidScaleJoins(out, slots, k, s, placements[k].repeat);
  }

  lemma CopiedBar(out: Output, slots: seq<int>, k: nat, s: Segment, repeat: nat, j: nat)
    requires Lays(out, slots, k, s, repeat) && BarsMatch(s) && j < |s.bars|
    ensures Copies(out.bars[out.instances[k].outputStart + j], s.bars[j], out.instances[k].scaleMultiplier)
  {
    hide Copies, ScaledBar, ValidBar, LineageOf, Anchor;
    var i := out.instances[k];
    assert ValidBar(s.bars[j]);
    assert out.bars[i.outputStart + j] == ScaledBar(s.bars[j], i.scaleMultiplier, i.outputStart + j, slots[i.outputStart + j]);
    ScaledBarCopies(s.bars[j], i.scaleMultiplier, i.outputStart + j, slots[i.outputStart + j]);
  }

  lemma LineageNames(s: Segment, repeat: nat, source: Bar, ordinal: int, openTime: int)
    ensures Names(LineageOf(s, repeat, source, ordinal, openTime), s, repeat + 1, source, ordinal, openTime)
  {
  }

  lemma LaidScaleJoins(out: Output, slots: seq<int>, k: nat, s: Segment, repeat: nat)
    requires Lays(out, slots, k, s, repeat)
    ensures ScaleJoins(out, k, s)
  {
    hide Covers;
  }

  /** Every bar of a laid output comes from one bar of one instance. */
  lemma EveryBarComesFrom(segments: seq<Segment>, slots: seq<int>, out: Output, placements: seq<Placement>, b: nat) returns (k: nat, j: nat)
    requires Laid(segments, slots, out, placements) && b < |out.bars|
    requires forall n :: 0 <= n < |segments| ==> BarsMatch(segments[n])
    ensures |out.bars| == |out.lineage| <= |slots| && ComesFrom(segments, slots, out, placements, b, k, j)
  {
    hide Lays, ValidBar, BarsMatch, ComesFrom;
    BarBelongs(segments, slots, out, placements, |placements|, b);
    k :| Belongs(segments, slots, out, placements, k, b);
    BarOfInstance(segments, slots, out, placements, k, b);
    j := b - out.instances[k].outputStart;
  }
}
