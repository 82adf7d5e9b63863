/**
  The structural state engine (internal/dynamicparam/state.go): two hysteresis rules, numbered
  occurrences of a state type, and the running trend of the closes inside the current occurrence.
  Logarithm, square root and the blending of activity scales are parameters of the model.
 */
module StateEngines {
  import opened Wrappers
  import opened RealMath
  import opened Sums
  import opened LeastSquares
  import opened ActivityScale
  import opened Hysteresis

  // ----- the trend inside an occurrence

  datatype Line = Line(alpha: real, beta: real)

  const TINY := 0.000000000001

  /** The line through the observations, from their running sums. */
  ghost function FittedLine(y: seq<real>): Line
    requires |y| >= 2
  {
    DeterminantValue(|y|);
    var beta := (|y| as real * SumXY(y) - SumX(|y|) * Total(y)) / Determinant(|y|);
    Line((Total(y) - beta * SumX(|y|)) / |y| as real, beta)
  }

  /** No other line fits the observations better. */
  lemma FittedLineIsBest(y: seq<real>)
    requires |y| >= 2
    ensures BestLine(y, FittedLine(y).alpha, FittedLine(y).beta)
  {
    hide BestLine, Determinant, Sum;
    DeterminantValue(|y|);
    var f := FittedLine(y);
    QuotientTimes(|y| as real * SumXY(y) - SumX(|y|) * Total(y), Determinant(|y|));
    QuotientTimes(Total(y) - f.beta * SumX(|y|), |y| as real);
    SolutionIsBest(y, f.alpha, f.beta);
  }

  function At(line: Line, x: real): real {
    line.alpha + line.beta * x
  }

  /** How far an observation lies from the line through the ones before it. */
  ghost function StepError(y: seq<real>, i: nat): real
    requires 2 <= i < |y|
  {
    y[i] - At(FittedLine(y[..i]), i as real)
  }

  /** The step errors of all observations from the third on. */
  ghost function StepErrors(y: seq<real>): (e: seq<real>)
    ensures |e| == if |y| < 2 then 0 else |y| - 2
  {
    seq(if |y| < 2 then 0 else |y| - 2, i requires 0 <= i < |y| - 2 => StepError(y, i + 2))
  }

  ghost function Deviations(values: seq<real>, mean: real): (d: seq<real>)
    ensures |d| == |values|
  {
    seq(|values|, i requires 0 <= i < |values| => values[i] - mean)
  }

  /** The sample variance; a single value is not divided. */
  ghost function Variance(values: seq<real>): real {
    if |values| == 0 then 0.0
    else
      var squares := Total(Squares(Deviations(values, Total(values) / |values| as real)));
      if |values| > 1 then squares / (|values| - 1) as real else squares
  }

  method MeanVariance(values: seq<real>) returns (mean: real, variance: real)
    ensures |values| > 0 ==> mean == Total(values) / |values| as real
    ensures variance == Variance(values)
  {
    if |values| == 0 {
      return 0.0, 0.0;
    }
    mean := 0.0;
    for i := 0 to |values|
      invariant mean == Sum(values, 0, i)
    {
      mean := mean + values[i];
    }
    mean := mean / |values| as real;
    variance := 0.0;
    ghost var squares := Squares(Deviations(values, mean));
    for i := 0 to |values|
      invariant variance == Sum(squares, 0, i)
    {
      var delta := values[i] - mean;
      variance := variance + Sq(delta);
    }
    if |values| > 1 {
      variance := variance / (|values| - 1) as real;
    }
  }

  class OccurrenceTrend {
    var count: nat
    var sumX: real
    var sumY: real
    var sumXX: real
    var sumXY: real
    var residuals: seq<real>
    ghost var closes: seq<real>

    /** The running sums are those of the closes seen, and every residual is a step error. */
    ghost predicate Valid()
      reads this
    {
      && count == |closes|
      && sumX == SumX(count) && sumY == Total(closes)
      && sumXX == SumXX(count) && sumXY == SumXY(closes)
      && residuals == StepErrors(closes)
    }

    constructor ()
      ensures Valid() && closes == []
    {
      count, sumX, sumY, sumXX, sumXY, residuals, closes := 0, 0.0, 0.0, 0.0, 0.0, [], [];
    }

    function Denominator(): real
      reads this
    {
      count as real * sumXX - sumX * sumX
    }

    method Solve() returns (line: Line)
      requires Valid() && count >= 2
      ensures line == FittedLine(closes)
    {
      hide SumX, SumXX, SumXY, Total, StepErrors;
      SumsSolve(this);
      var beta := (count as real * sumXY - sumX * sumY) / Denominator();
      line := Line((sumY - beta * sumX) / count as real, beta);
    }

    /** Distance of a close from the trend, in standard deviations of the step errors. */
    method Deviation(logClose: real, sqrt: real -> real) returns (deviation: Option<real>)
      requires Valid()
      ensures deviation.None? <==> count < 3 || sqrt(Variance(residuals)) <= 0.0
      ensures deviation.Some? ==> deviation.value * sqrt(Variance(residuals)) == logClose - At(FittedLine(closes), count as real)
    {
      hide Variance, At, FittedLine, StepErrors, SumX, SumXX, SumXY, Total, Determinant;
      if count >= 2 { SumsSolve(this); }
      if count < 3 || Abs(Denominator()) < TINY {
        return None;
      }
      var line := Solve();
      var mean, variance := MeanVariance(residuals);
      var standardDeviation := sqrt(variance);
      if standardDeviation <= 0.0 {
        return None;
      }
      var distance := logClose - At(line, count as real);
      QuotientTimes(distance, standardDeviation);
      deviation := Some(distance / standardDeviation);
    }

    method Add(logClose: real)
      requires Valid()
      modifies this
      ensures Valid() && closes == old(closes) + [logClose]
    {
      hide FittedLine, At, StepError, SumX, SumXX, SumXY, Total, Determinant;
      var x := count as real;
      AddedPowers(count);
      AddedTotal(closes, logClose);
      AddedProduct(closes, logClose);
      if count >= 2 { AddedError(closes, logClose); }
      if count >= 2 {
        SumsSolve(this);
        if Abs(Denominator()) >= TINY {
          var line := Solve();
          residuals := residuals + [logClose - At(line, x)];
        }
      }
      count := count + 1;
      sumX := sumX + x;
      sumY := sumY + logClose;
      sumXX := sumXX + x * x;
      sumXY := sumXY + x * logClose;
      closes := closes + [logClose];
    }
  }

  /** From two closes on the denominator is the determinant of the fit, far from the singularity guard. */
  lemma SumsSolve(trend: OccurrenceTrend)
    requires trend.Valid() && trend.count >= 2
    ensures trend.Denominator() == Determinant(trend.count) >= 1.0
    ensures 12.0 * trend.Denominator() == (trend.count * trend.count * (trend.count * trend.count - 1)) as real
  {
    hide SumX, SumXX, SumXY, Total, StepErrors;
    DeterminantValue(trend.count);
  }

  lemma AddedPowers(n: nat)
    ensures SumX(n + 1) == SumX(n) + n as real && SumXX(n + 1) == SumXX(n) + n as real * n as real
  {
    hide SumX, SumXX;
    PowersStep(n + 1);
    assert (n + 1) as real - 1.0 == n as real;
  }

  lemma AddedTotal(y: seq<real>, v: real)
    ensures Total(y + [v]) == Total(y) + v
  {
    SumAgree(y + [v], y, 0, |y|);
  }

  lemma LastProduct(y: seq<real>, v: real)
    ensures Times(Xs(|y| + 1), y + [v])[|y|] == |y| as real * v
  {
    assert Xs(|y| + 1)[|y|] == |y| as real;
    assert (y + [v])[|y|] == v;
  }

  lemma AddedProduct(y: seq<real>, v: real)
    ensures SumXY(y + [v]) == SumXY(y) + |y| as real * v
  {
    var was, now := Times(Xs(|y|), y), Times(Xs(|y| + 1), y + [v]);
    forall i | 0 <= i < |y| ensures now[i] == was[i] {
      assert Xs(|y| + 1)[i] == Xs(|y|)[i] && (y + [v])[i] == y[i];
    }
    LastProduct(y, v);
    assert now == was + [|y| as real * v];
    AddedTotal(Times(Xs(|y|), y), |y| as real * v);
  }

  /** Earlier step errors do not see later observations. */
  lemma StepErrorStays(y: seq<real>, v: real, i: nat)
    requires 2 <= i < |y|
    ensures StepError(y + [v], i) == StepError(y, i)
  {
    hide FittedLine, At;
    assert (y + [v])[..i] == y[..i];
  }

  lemma AddedError(y: seq<real>, v: real)
    requires |y| >= 2
    ensures StepErrors(y + [v]) == StepErrors(y) + [v - At(FittedLine(y), |y| as real)]
  {
    hide StepError;
    var was, now := StepErrors(y), StepErrors(y + [v]);
    forall i | 0 <= i < |was| ensures now[i] == was[i] {
      StepErrorStays(y, v, i + 2);
    }
    LastStepError(y, v);
    assert now[|was|] == StepError(y + [v], |y|);
  }

  lemma LastStepError(y: seq<real>, v: real)
    requires |y| >= 2
    ensures StepError(y + [v], |y|) == v - At(FittedLine(y), |y| as real)
  {
    hide FittedLine, At;
    assert (y + [v])[..|y|] == y;
  }

  // ----- occurrences

  datatype StateType = StateType(direction: Direction, highVolatility: bool)

  datatype StateInput = StateInput(timeMs: int, close: real, directionUpProbability: real, ratios: ActivityVector,
                                   normalActivityScale: real, observedActivityScale: real)

  datatype StructureState = StructureState(stateType: StateType, occurrenceId: (nat, int), occurrence: nat,
                                           trendDeviation: Option<real>, effectiveActivityScale: Option<real>)

  datatype StateError = InvalidStateInput

  datatype StateRules = StateRules(direction: DirectionRule, volatility: VolatilityRule, activityKappa: real)

  predicate ValidInput(input: StateInput) {
    input.timeMs > 0 && input.close > 0.0 && 0.0 <= input.directionUpProbability <= 1.0
  }

  ghost function Probabilities(h: seq<StateInput>): (p: seq<real>)
    ensures |p| == |h|
  {
    seq(|h|, i requires 0 <= i < |h| => h[i].directionUpProbability)
  }

  ghost function Ratios(h: seq<StateInput>): (r: seq<ActivityVector>)
    ensures |r| == |h|
  {
    seq(|h|, i requires 0 <= i < |h| => h[i].ratios)
  }

  /** The state types after each input. */
  ghost function Types(h: seq<StateInput>, rules: StateRules): (s: seq<StateType>)
    ensures |s| == |h|
  {
    var d, v := Directions(Probabilities(h), rules.direction), Volatilities(Ratios(h), rules.volatility);
    seq(|h|, i requires 0 <= i < |h| => StateType(d[i], v[i]))
  }

  /** Where the last maximal stretch of equal states begins. */
  ghost function LastStretch<T>(s: seq<T>): (start: nat)
    ensures start <= |s|
  {
    RunsCover(s);
    LastRunFits(RunLengths(s));
    |s| - Last(RunLengths(s), 0)
  }

  lemma LastRunFits(lengths: seq<nat>)
    ensures Last(lengths, 0) <= TotalLength(lengths)
  {
  }

  lemma StretchExtends<T>(s: seq<T>, next: T)
    ensures if |s| > 0 && next == s[|s| - 1] then
              |RunLengths(s + [next])| == |RunLengths(s)| && LastStretch(s + [next]) == LastStretch(s)
            else
              |RunLengths(s + [next])| == |RunLengths(s)| + 1 && LastStretch(s + [next]) == |s|
  {
    assert (s + [next])[..|s|] == s;
    RunsCover(s);
  }

  /** The last stretch is maximal: equal states inside, a different one before it. */
  lemma {:induction false} LastStretchIsMaximal<T>(s: seq<T>)
    requires |s| > 0
    ensures LastStretch(s) < |s|
    ensures forall i :: LastStretch(s) <= i < |s| ==> s[i] == s[|s| - 1]
    ensures LastStretch(s) > 0 ==> s[LastStretch(s) - 1] != s[LastStretch(s)]
  {
    var n := |s| - 1;
    hide LastStretch, RunLengths;
    assert s == s[..n] + [s[n]];
    StretchExtends(s[..n], s[n]);
    if n > 0 { LastStretchIsMaximal(s[..n]); }
  }

  /** The inputs of the current occurrence. */
  ghost function Current(h: seq<StateInput>, rules: StateRules): seq<StateInput> {
    h[LastStretch(Types(h, rules))..]
  }

  ghost function LogCloses(h: seq<StateInput>, log: real -> real): (y: seq<real>)
    ensures |y| == |h|
  {
    seq(|h|, i requires 0 <= i < |h| => log(h[i].close))
  }

  /** The positive scales observed over some inputs. */
  ghost function ObservedScales(h: seq<StateInput>): seq<real> {
    if |h| == 0 then []
    else
      var x := h[|h| - 1].observedActivityScale;
      ObservedScales(h[..|h| - 1]) + if x > 0.0 then [x] else []
  }

  /** The type an input leads to. */
  ghost function NextType(h: seq<StateInput>, input: StateInput, rules: StateRules): StateType {
    StateType(NextDirection(Last(Directions(Probabilities(h), rules.direction), Uncertain), input.directionUpProbability, rules.direction),
              NextVolatility(Last(Volatilities(Ratios(h), rules.volatility), false), input.ratios, rules.volatility))
  }

  lemma TypesGrow(h: seq<StateInput>, input: StateInput, rules: StateRules)
    ensures var next := NextType(h, input, rules);
            && Types(h + [input], rules) == Types(h, rules) + [next]
            && Last(Directions(Probabilities(h + [input]), rules.direction), Uncertain) == next.direction
            && Last(Volatilities(Ratios(h + [input]), rules.volatility), false) == next.highVolatility
  {
    hide NextDirection, NextVolatility;
    assert Probabilities(h + [input])[..|h|] == Probabilities(h);
    assert Ratios(h + [input])[..|h|] == Ratios(h);
  }

  /** An input of the same type continues the occurrence; any other opens the next one. */
  lemma OccurrenceGrows(h: seq<StateInput>, input: StateInput, rules: StateRules)
    ensures var was, now := Types(h, rules), Types(h + [input], rules);
            if |h| > 0 && NextType(h, input, rules) == was[|h| - 1] then
              |RunLengths(now)| == |RunLengths(was)| && Current(h + [input], rules) == Current(h, rules) + [input] && |Current(h, rules)| > 0
            else
              |RunLengths(now)| == |RunLengths(was)| + 1 && Current(h + [input], rules) == [input]
  {
    hide NextType, Types, LastStretch, RunLengths;
    TypesGrow(h, input, rules);
    StretchExtends(Types(h, rules), NextType(h, input, rules));
    if |h| > 0 { LastStretchIsMaximal(Types(h, rules)); }
  }

  lemma CurrentGrows(h: seq<StateInput>, input: StateInput, log: real -> real)
    ensures LogCloses(h + [input], log) == LogCloses(h, log) + [log(input.close)]
    ensures ObservedScales(h + [input]) == ObservedScales(h) + if input.observedActivityScale > 0.0 then [input.observedActivityScale] else []
  {
    assert (h + [input])[..|h|] == h;
  }

  // ----- the engine

  /** Functions the model does not define. */
  datatype Numerics = Numerics(log: real -> real, sqrt: real -> real, blend: (real, seq<real>, real) -> Option<real>)

  /** What the engine carries from one input to the next. */
  datatype Memory = Memory(direction: Direction, highVol: bool, occurrence: nat, stateType: Option<StateType>, occurrenceId: (nat, int),
                           closes: seq<real>, stateScales: seq<real>, startScale: real)

  /** The memory is what the whole history of inputs determines. */
  ghost predicate Remembers(m: Memory, h: seq<StateInput>, rules: StateRules, log: real -> real) {
    var types, current := Types(h, rules), Current(h, rules);
    && m.direction == Last(Directions(Probabilities(h), rules.direction), Uncertain)
    && m.highVol == Last(Volatilities(Ratios(h), rules.volatility), false)
    && m.stateType == (if |types| == 0 then None else Some(types[|types| - 1]))
    && m.occurrence == |RunLengths(types)|
    && m.closes == LogCloses(current, log)
    && m.stateScales == ObservedScales(current)
    && (|current| > 0 ==> m.startScale == current[0].normalActivityScale && m.occurrenceId == (m.occurrence, current[0].timeMs))
  }

  /** The memory when an input has been classified: a new type opens an occurrence. */
  ghost function Classified(m: Memory, input: StateInput, next: StateType): Memory {
    var kept := m.(direction := next.direction, highVol := next.highVolatility);
    if m.stateType == Some(next) then kept
    else kept.(occurrence := m.occurrence + 1, stateType := Some(next), occurrenceId := (m.occurrence + 1, input.timeMs),
               closes := [], stateScales := [], startScale := input.normalActivityScale)
  }

  /** The memory when the input has also been recorded. */
  ghost function Recorded(m: Memory, input: StateInput, log: real -> real): Memory {
    m.(closes := m.closes + [log(input.close)],
       stateScales := if input.observedActivityScale > 0.0 then m.stateScales + [input.observedActivityScale] else m.stateScales)
  }

  lemma ClassifiedIsCurrent(m: Memory, h: seq<StateInput>, input: StateInput, rules: StateRules, log: real -> real)
    requires Remembers(m, h, rules, log)
    ensures var c, current, types := Classified(m, input, NextType(h, input, rules)), Current(h + [input], rules), Types(h + [input], rules);
            && |current| > 0 && |types| > 0 && current[|current| - 1] == input && c.stateType == Some(types[|types| - 1])
            && c.occurrence == |RunLengths(types)|
            && c.closes == LogCloses(current[..|current| - 1], log) && c.stateScales == ObservedScales(current[..|current| - 1])
            && c.startScale == current[0].normalActivityScale && c.occurrenceId == (c.occurrence, current[0].timeMs)
  {
    hide Types, Current, Directions, Volatilities, RunLengths, NextType;
    var next := NextType(h, input, rules);
    TypesGrow(h, input, rules);
    OccurrenceGrows(h, input, rules);
    var current := Current(h + [input], rules);
    if m.stateType == Some(next) {
      assert current[..|current| - 1] == Current(h, rules);
    } else {
      assert current[..|current| - 1] == [];
    }
  }

  lemma RecordedRemembers(m: Memory, h: seq<StateInput>, input: StateInput, rules: StateRules, log: real -> real)
    requires Remembers(m, h, rules, log)
    ensures Remembers(Recorded(Classified(m, input, NextType(h, input, rules)), input, log), h + [input], rules, log)
  {
    hide Types, Current, Directions, Volatilities, RunLengths, LogCloses, ObservedScales;
    TypesGrow(h, input, rules);
    ClassifiedIsCurrent(m, h, input, rules, log);
    var current := Current(h + [input], rules);
    var n := |current| - 1;
    assert current == current[..n] + [input];
    CurrentGrows(current[..n], input, log);
  }

  lemma StepReports(m: Memory, h: seq<StateInput>, input: StateInput, rules: StateRules, numerics: Numerics, deviation: Option<real>)
    requires Remembers(m, h, rules, numerics.log)
    requires IsDeviation(deviation, m.closes, numerics.log(input.close), numerics.sqrt)
    ensures var next := NextType(h, input, rules);
            var c := Classified(m, input, next);
            var reported := if m.stateType == Some(next) then deviation else None;
            Reports(h, input, rules, numerics,
                    StructureState(next, c.occurrenceId, c.occurrence, reported, numerics.blend(c.startScale, c.stateScales, rules.activityKappa)))
  {
    hide Types, Current, Directions, Volatilities, RunLengths, LogCloses, ObservedScales, Remembers, NextType, Variance, FittedLine, At, StepErrors;
    ClassifiedIsCurrent(m, h, input, rules, numerics.log);
  }

  lemma NextFromMemory(m: Memory, h: seq<StateInput>, input: StateInput, rules: StateRules, log: real -> real)
    requires Remembers(m, h, rules, log)
    ensures NextType(h, input, rules) == StateType(NextDirection(m.direction, input.directionUpProbability, rules.direction),
                                                   NextVolatility(m.highVol, input.ratios, rules.volatility))
  {
    hide NextDirection, NextVolatility, Types, Current;
  }

  class StateEngine {
    const rules: StateRules
    const numerics: Numerics
    var direction: Direction
    var highVol: bool
    var occurrence: nat
    var stateType: Option<StateType>
    var occurrenceId: (nat, int)
    var trend: OccurrenceTrend
    var stateScales: seq<real>
    var startScale: real
    ghost var history: seq<StateInput>

    ghost function Remembered(): Memory
      reads this, trend
    {
      Memory(direction, highVol, occurrence, stateType, occurrenceId, trend.closes, stateScales, startScale)
    }

    ghost predicate Valid()
      reads this, trend
    {
      trend.Valid() && Remembers(Remembered(), history, rules, numerics.log)
    }

    constructor (rules: StateRules, numerics: Numerics)
      ensures Valid() && history == [] && fresh(trend) && this.rules == rules && this.numerics == numerics
    {
      this.rules, this.numerics := rules, numerics;
      direction, highVol, occurrence, stateType := Uncertain, false, 0, None;
      occurrenceId, stateScales, startScale := (0, 0), [], 0.0;
      trend := new OccurrenceTrend();
      history := [];
    }

    /** A change of type opens a new occurrence with an empty trend. */
    method Classify(input: StateInput, newType: StateType)
      requires trend.Valid()
      modifies this`direction, this`highVol, this`occurrence, this`stateType, this`occurrenceId, this`trend, this`stateScales, this`startScale
      ensures trend.Valid() && (trend == old(trend) || fresh(trend))
      ensures Remembered() == Classified(old(Remembered()), input, newType)
    {
      if stateType != Some(newType) {
        occurrence := occurrence + 1;
        stateType := Some(newType);
        occurrenceId := (occurrence, input.timeMs);
        trend := new OccurrenceTrend();
        stateScales := [];
        startScale := input.normalActivityScale;
      }
      direction := newType.direction;
      highVol := newType.highVolatility;
    }

    /** The input joins the trend and the scales of its occurrence. */
    method Record(input: StateInput)
      requires trend.Valid()
      modifies this`stateScales, trend
      ensures trend.Valid() && Remembered() == Recorded(old(Remembered()), input, numerics.log)
    {
      hide StepErrors, SumX, SumXX, SumXY, Total;
      trend.Add(numerics.log(input.close));
      if input.observedActivityScale > 0.0 {
        stateScales := stateScales + [input.observedActivityScale];
      }
    }

    /**
      One input. The reported occurrence counts the maximal stretches of equal state types so far;
      the deviation is measured against the trend of the occurrence as it was before this input, and
      so is the blended activity scale.
     */
    method Step(input: StateInput) returns (r: Result<StructureState, StateError>)
      requires Valid()
      modifies this, trend
      ensures Valid() && (trend == old(trend) || fresh(trend))
      ensures r.Err? <==> !ValidInput(input)
      ensures history == old(history) + if r.Ok? then [input] else []
      ensures r.Ok? ==> Reports(old(history), input, rules, numerics, r.value)
    {
      hide NextDirection, NextVolatility, Types, LastStretch, RunLengths, Directions, Volatilities, Variance, FittedLine, At, StepErrors, Reports, Current, Remembers, NextType, LogCloses, ObservedScales, SumX, SumXX, SumXY, Total;
      if !ValidInput(input) {
        return Err(InvalidStateInput);
      }
      NextFromMemory(Remembered(), history, input, rules, numerics.log);
      var trendDeviation := trend.Deviation(numerics.log(input.close), numerics.sqrt);
      StepReports(Remembered(), history, input, rules, numerics, trendDeviation);
      RecordedRemembers(Remembered(), history, input, rules, numerics.log);
      var newDirection := NextDirection(direction, input.directionUpProbability, rules.direction);
      var newHighVol := NextVolatility(highVol, input.ratios, rules.volatility);
      var newType := StateType(newDirection, newHighVol);
      if stateType != Some(newType) {
        trendDeviation := None;
      }
      Classify(input, newType);
      var effectiveScale := numerics.blend(startScale, stateScales, rules.activityKappa);
      r := Ok(StructureState(newType, occurrenceId, occurrence, trendDeviation, effectiveScale));
      Record(input);
      history := history + [input];
    }
  }

  /** The distance of a log close from the trend of earlier log closes, where one is reported. */
  ghost predicate IsDeviation(deviation: Option<real>, y: seq<real>, logClose: real, sqrt: real -> real) {
    && (deviation.None? <==> |y| < 3 || sqrt(Variance(StepErrors(y))) <= 0.0)
    && (deviation.Some? ==> deviation.value * sqrt(Variance(StepErrors(y))) == logClose - At(FittedLine(y), |y| as real))
  }

  /** What a step reports, from the inputs alone. */
  ghost predicate Reports(h: seq<StateInput>, input: StateInput, rules: StateRules, numerics: Numerics, r: StructureState) {
    var types, current := Types(h + [input], rules), Current(h + [input], rules);
    && |types| > 0 && |current| > 0
    && r.stateType == types[|types| - 1]
    && r.occurrence == |RunLengths(types)|
    && r.occurrenceId == (r.occurrence, current[0].timeMs)
    && r.effectiveActivityScale == numerics.blend(current[0].normalActivityScale, ObservedScales(current[..|current| - 1]), rules.activityKappa)
    && IsDeviation(r.trendDeviation, LogCloses(current[..|current| - 1], numerics.log), numerics.log(input.close), numerics.sqrt)
  }
}
