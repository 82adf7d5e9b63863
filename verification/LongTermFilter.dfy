/**
  The long-term risk filter (internal/backtestcore/long_term_filter.go): monthly closes, two
  adjacent simple moving averages and a risk flag that their order switches. The calendar is a
  parameter: `monthOf` gives the UTC year and month of a time as one number.
 */
module LongTermFilters {
  import opened Wrappers
  import opened RealMath
  import opened Sums
  import opened Quant

  datatype LongTermFilterConfig = LongTermFilterConfig(enabled: bool, months: int)

  datatype Signal = Quiet | Enter | Exit

  datatype Observation = Observation(ready: bool, riskOff: bool, currentSma: real, previousSma: real, signal: Signal)

  /** A bar that closes its month: the next bar lies in another month. */
  predicate ClosesMonth(bars: seq<Bar>, index: int, monthOf: int -> int) {
    && 0 <= index && index + 1 < |bars|
    && monthOf(bars[index].openTime) != monthOf(bars[index + 1].openTime)
    && bars[index].close > 0.0
  }

  /** The average of the n values that end at position `end`. */
  ghost function TrailingMean(values: seq<real>, end: nat, n: nat): real
    requires 0 < n <= end <= |values|
  {
    Sum(values, end - n, end) / n as real
  }

  /** The flag after comparing the averages; equal averages keep it. */
  function NextRiskOff(riskOff: bool, current: real, previous: real): bool {
    if current < previous then true else if current > previous then false else riskOff
  }

  /** The signal that reports a change of the flag. */
  function ChangeSignal(before: bool, after: bool): Signal {
    if before == after then Quiet else if after then Enter else Exit
  }

  /** Everything the filter remembers. */
  datatype FilterMemory = FilterMemory(monthCloses: seq<real>, riskOff: bool, ready: bool, currentSma: real, previousSma: real)

  const BLANK_MEMORY := FilterMemory([], false, false, 0.0, 0.0)

  /**
    What looking at one bar leaves behind. Only a bar that closes its month is recorded, and only
    with more recorded months than the averages need does the flag follow the two averages.
   */
  ghost function Observed(m: FilterMemory, config: LongTermFilterConfig, monthOf: int -> int, bars: seq<Bar>, index: int): FilterMemory {
    if !config.enabled || !ClosesMonth(bars, index, monthOf) then m
    else
      var closes := m.monthCloses + [bars[index].close];
      var n := |closes|;
      if 0 < config.months < n then
        var current, previous := TrailingMean(closes, n, config.months), TrailingMean(closes, n - 1, config.months);
        FilterMemory(closes, NextRiskOff(m.riskOff, current, previous), true, current, previous)
      else
        m.(monthCloses := closes)
  }

  /** The mean of some values; zero without any. */
  ghost function Mean(values: seq<real>): real {
    if |values| == 0 then 0.0 else TrailingMean(values, |values|, |values|)
  }

  method Average(values: seq<real>) returns (mean: real)
    ensures mean == Mean(values)
  {
    if |values| == 0 {
      return 0.0;
    }
    var total := 0.0;
    for index := 0 to |values|
      invariant total == Sum(values, 0, index)
    {
      total := total + values[index];
    }
    mean := total / |values| as real;
  }

  /** The mean of a slice is the trailing mean at its end. */
  lemma MeanOfSlice(values: seq<real>, end: nat, n: nat)
    requires 0 < n <= end <= |values|
    ensures Mean(values[end - n..end]) == TrailingMean(values, end, n)
  {
    SumShift(values, end - n, end, values[end - n..end], 0);
  }

  class LongTermFilter {
    const config: LongTermFilterConfig
    const monthOf: int -> int
    var monthCloses: seq<real>
    var riskOff: bool
    var currentSma: real
    var previousSma: real
    var ready: bool

    function Memory(): FilterMemory
      reads this
    {
      FilterMemory(monthCloses, riskOff, ready, currentSma, previousSma)
    }

    constructor (config: LongTermFilterConfig, monthOf: int -> int)
      ensures this.config == config && this.monthOf == monthOf && Memory() == BLANK_MEMORY
    {
      this.config, this.monthOf := config, monthOf;
      monthCloses, riskOff, ready, currentSma, previousSma := [], false, false, 0.0, 0.0;
    }

    /** Looks at one bar; the signal reports a change of the flag. */
    method Observe(index: int, bars: seq<Bar>) returns (o: Observation)
      modifies this
      ensures Memory() == Observed(old(Memory()), config, monthOf, bars, index)
      ensures o == Observation(ready, riskOff, currentSma, previousSma, ChangeSignal(old(riskOff), riskOff))
    {
      hide TrailingMean, Mean;
      o := Observation(ready, riskOff, currentSma, previousSma, Quiet);
      if !config.enabled || index < 0 || index >= |bars| - 1 {
        return;
      }
      var bar, next := bars[index], bars[index + 1];
      if monthOf(bar.openTime) == monthOf(next.openTime) || bar.close <= 0.0 {
        return;
      }
      monthCloses := monthCloses + [bar.close];
      var n := config.months;
      if n <= 0 || |monthCloses| < n + 1 {
        return;
      }
      var end := |monthCloses|;
      MeanOfSlice(monthCloses, end - 1, n);
      MeanOfSlice(monthCloses, end, n);
      previousSma := Average(monthCloses[end - n - 1..end - 1]);
      currentSma := Average(monthCloses[end - n..end]);
      ready := true;
      var signal := Quiet;
      if currentSma < previousSma && !riskOff {
        riskOff := true;
        signal := Enter;
      } else if currentSma > previousSma && riskOff {
        riskOff := false;
        signal := Exit;
      }
      o := Observation(true, riskOff, currentSma, previousSma, signal);
    }
  }

  // ----- what the averages compare

  /** Adjacent trailing means compare as the newest value and the one that drops out do. */
  lemma MeansCompareEnds(values: seq<real>, n: nat)
    requires 0 < n < |values|
    ensures var current, previous := TrailingMean(values, |values|, n), TrailingMean(values, |values| - 1, n);
            && (current < previous <==> values[|values| - 1] < values[|values| - 1 - n])
            && (current > previous <==> values[|values| - 1] > values[|values| - 1 - n])
  {
    hide Sum;
    var end := |values|;
    SumSplit(values, end - n - 1, end - n, end);
    SumSplit(values, end - n - 1, end - 1, end);
    OneTerm(values, end - n - 1);
    OneTerm(values, end - 1);
    SameDivisor(Sum(values, end - n, end), Sum(values, end - n - 1, end - 1), n as real);
    SameDivisor(Sum(values, end - n - 1, end - 1), Sum(values, end - n, end), n as real);
  }

  lemma OneTerm(values: seq<real>, i: nat)
    requires i < |values|
    ensures Sum(values, i, i + 1) == values[i]
  {
    assert Sum(values, i, i) == 0.0;
  }

  lemma SameDivisor(a: real, b: real, n: real)
    requires n > 0.0
    ensures a / n < b / n <==> a < b
  {
    QuotientTimes(a, n);
    QuotientTimes(b, n);
    if a / n < b / n { MulStrict(n, a / n, b / n); } else { MulMonotone(n, b / n, a / n); }
  }

  /**
    A bar that closes its month, with more than n months known, turns the flag on exactly when its close lies
    below the month close n months before it, off exactly when it lies above, and keeps it when they are equal;
    any other bar keeps it.
   */
  lemma FlagComparesMonths(m: FilterMemory, config: LongTermFilterConfig, monthOf: int -> int, bars: seq<Bar>, index: int)
    ensures var later := Observed(m, config, monthOf, bars, index);
            if config.enabled && ClosesMonth(bars, index, monthOf) && 0 < config.months <= |m.monthCloses| then
              var newest, oldest := bars[index].close, m.monthCloses[|m.monthCloses| - config.months];
              && later.ready && later.monthCloses == m.monthCloses + [newest]
              && (newest < oldest ==> later.riskOff) && (newest > oldest ==> !later.riskOff) && (newest == oldest ==> later.riskOff == m.riskOff)
            else
              later.riskOff == m.riskOff && later.ready == m.ready
  {
    hide TrailingMean;
    if config.enabled && ClosesMonth(bars, index, monthOf) && 0 < config.months <= |m.monthCloses| {
      MeansCompareEnds(m.monthCloses + [bars[index].close], config.months);
    }
  }

  // ----- signals over a run

  /** Signals alternate, and the first one is an entry. */
  ghost predicate Alternates(signals: seq<Signal>) {
    forall i :: 0 <= i < |signals| ==> signals[i] == if i % 2 == 0 then Enter else Exit
  }

  /** A signal as it is appended to a history that leaves out the quiet ones. */
  ghost function Noted(signal: Signal): seq<Signal> {
    if signal == Quiet then [] else [signal]
  }

  /** A change of the flag extends an alternating sequence whose parity records the flag. */
  lemma ChangeAlternates(signals: seq<Signal>, before: bool, after: bool)
    requires Alternates(signals) && before == (|signals| % 2 == 1)
    ensures var more := signals + Noted(ChangeSignal(before, after));
            Alternates(more) && after == (|more| % 2 == 1)
  {
  }
}
