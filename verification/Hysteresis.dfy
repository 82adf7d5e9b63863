/**
  The two hysteresis rules of the structural state (internal/dynamicparam/state.go) and what their
  stickiness does over a whole sequence of observations.
 */
module Hysteresis {
  import opened RealMath
  import opened ActivityScale

  datatype Direction = Up | Down | Uncertain

  datatype DirectionRule = DirectionRule(entryProbability: real, hysteresisRatio: real)

  datatype VolatilityCondition = VolatilityCondition(group: string, metric: string, entryThreshold: real)

  datatype VolatilityRule = VolatilityRule(conditions: seq<VolatilityCondition>, hysteresisRatio: real)

  predicate ValidDirectionRule(rule: DirectionRule) {
    0.5 < rule.entryProbability < 1.0 && 0.0 <= rule.hysteresisRatio <= 1.0
  }

  predicate ValidVolatilityRule(rule: VolatilityRule) {
    && |rule.conditions| > 0 && 0.0 <= rule.hysteresisRatio <= 1.0
    && (forall i :: 0 <= i < |rule.conditions| ==> rule.conditions[i].entryThreshold > 1.0 && KnownMetric(rule.conditions[i]))
    && (forall i, j :: 0 <= i < j < |rule.conditions| ==> rule.conditions[i].group != rule.conditions[j].group)
  }

  predicate KnownMetric(c: VolatilityCondition) {
    || (c.group == "overall_gap" && c.metric in ["yang_zhang", "tr_mean"])
    || (c.group == "intraday_range" && c.metric in ["parkinson", "high_low_mean"])
    || (c.group == "instability" && c.metric in ["tr_std_dev", "high_low_std_dev"])
  }

  // ----- one observation

  /** The probability a state must keep; it lies between one half and the entry probability. */
  function ExitProbability(rule: DirectionRule): real {
    0.5 + Part(rule.hysteresisRatio, rule.entryProbability - 0.5)
  }

  function Part(ratio: real, span: real): real {
    ratio * span
  }

  /** A larger share of a positive span is larger, and no share exceeds the whole. */
  lemma PartsOrdered(a: real, b: real, span: real)
    requires 0.0 <= a <= b <= 1.0 && span > 0.0
    ensures 0.0 <= Part(a, span) <= Part(b, span) <= span
  {
    MulNonNegative(a, span);
    MulMonotone(span, a, b);
    MulMonotone(span, b, 1.0);
  }

  function NextDirection(current: Direction, probability: real, rule: DirectionRule): Direction {
    var exit := ExitProbability(rule);
    if current == Up && probability >= exit then Up
    else if current == Down && probability <= 1.0 - exit then Down
    else if probability >= rule.entryProbability then Up
    else if probability <= 1.0 - rule.entryProbability then Down
    else Uncertain
  }

  function ExitThreshold(condition: VolatilityCondition, ratio: real): real {
    1.0 + Part(ratio, condition.entryThreshold - 1.0)
  }

  predicate Keeps(condition: VolatilityCondition, ratios: ActivityVector, ratio: real) {
    MetricValue(ratios, condition.metric) >= ExitThreshold(condition, ratio)
  }

  predicate Raises(condition: VolatilityCondition, ratios: ActivityVector) {
    MetricValue(ratios, condition.metric) > condition.entryThreshold
  }

  function NextVolatility(currentHigh: bool, ratios: ActivityVector, rule: VolatilityRule): bool {
    if currentHigh then
      exists i :: 0 <= i < |rule.conditions| && Keeps(rule.conditions[i], ratios, rule.hysteresisRatio)
    else
      exists i :: 0 <= i < |rule.conditions| && Raises(rule.conditions[i], ratios)
  }

  // ----- a sequence of observations

  function Last<T>(s: seq<T>, otherwise: T): T {
    if |s| == 0 then otherwise else s[|s| - 1]
  }

  /** The directions after each observation, starting from uncertainty. */
  ghost function Directions(probabilities: seq<real>, rule: DirectionRule): (s: seq<Direction>)
    ensures |s| == |probabilities|
  {
    if |probabilities| == 0 then []
    else
      var n := |probabilities| - 1;
      var before := Directions(probabilities[..n], rule);
      before + [NextDirection(Last(before, Uncertain), probabilities[n], rule)]
  }

  /** The volatility flags after each observation, starting low. */
  ghost function Volatilities(ratios: seq<ActivityVector>, rule: VolatilityRule): (s: seq<bool>)
    ensures |s| == |ratios|
  {
    if |ratios| == 0 then []
    else
      var n := |ratios| - 1;
      var before := Volatilities(ratios[..n], rule);
      before + [NextVolatility(Last(before, false), ratios[n], rule)]
  }

  /** How often neighbouring states differ. */
  ghost function Switches<T>(s: seq<T>): nat {
    if |s| < 2 then 0 else Switches(s[..|s| - 1]) + if s[|s| - 1] != s[|s| - 2] then 1 else 0
  }

  /** Lengths of the maximal stretches of equal states, in order. */
  ghost function RunLengths<T>(s: seq<T>): seq<nat> {
    if |s| == 0 then []
    else
      var n := |s| - 1;
      var before := RunLengths(s[..n]);
      if n > 0 && s[n] == s[n - 1] && |before| > 0 then before[..|before| - 1] + [before[|before| - 1] + 1] else before + [1]
  }

  ghost function TotalLength(lengths: seq<nat>): nat {
    if |lengths| == 0 then 0 else TotalLength(lengths[..|lengths| - 1]) + lengths[|lengths| - 1]
  }

  lemma TotalLengthGrows(lengths: seq<nat>, n: nat)
    ensures TotalLength(lengths + [n]) == TotalLength(lengths) + n
  {
    assert (lengths + [n])[..|lengths|] == lengths;
  }

  /** The stretches cover the whole sequence, and there is one more of them than there are switches. */
  lemma {:induction false} RunsCover<T>(s: seq<T>)
    ensures TotalLength(RunLengths(s)) == |s|
    ensures |RunLengths(s)| == if |s| == 0 then 0 else Switches(s) + 1
    ensures forall i :: 0 <= i < |RunLengths(s)| ==> RunLengths(s)[i] >= 1
  {
    if |s| > 0 {
      var n := |s| - 1;
      var before := RunLengths(s[..n]);
      RunsCover(s[..n]);
      TotalLengthGrows(before, 1);
      if |before| > 0 {
        var m := |before| - 1;
        assert before == before[..m] + [before[m]];
        TotalLengthGrows(before[..m], before[m]);
        TotalLengthGrows(before[..m], before[m] + 1);
      }
    }
  }

  // ----- stickiness

  /** Whenever the first sequence changes state, it changes to the state the second one is in. */
  ghost predicate FollowsSwitches<T>(sticky: seq<T>, other: seq<T>) {
    && |sticky| == |other|
    && (|sticky| > 0 ==> sticky[0] == other[0])
    && forall i {:trigger sticky[i]} :: 1 <= i < |sticky| && sticky[i] != sticky[i - 1] ==> sticky[i] == other[i]
  }

  /** A sequence that only ever changes to the other's state changes no more often. */
  lemma {:induction false} FollowerSwitchesLess<T>(sticky: seq<T>, other: seq<T>)
    requires FollowsSwitches(sticky, other)
    ensures Switches(sticky) <= Switches(other)
    ensures |sticky| > 0 && sticky[|sticky| - 1] != other[|other| - 1] ==> Switches(sticky) + 1 <= Switches(other)
  {
    if |sticky| >= 2 {
      var n := |sticky| - 1;
      forall i | 1 <= i < n && sticky[..n][i] != sticky[..n][i - 1]
        ensures sticky[..n][i] == other[..n][i]
      {
        assert sticky[i] != sticky[i - 1];
      }
      FollowerSwitchesLess(sticky[..n], other[..n]);
      assert sticky[n] != sticky[n - 1] ==> sticky[n] == other[n];
    }
  }

  lemma ExitIsBetween(rule: DirectionRule)
    requires ValidDirectionRule(rule)
    ensures 0.5 <= ExitProbability(rule) <= rule.entryProbability
  {
    hide Part;
    PartsOrdered(rule.hysteresisRatio, 1.0, rule.entryProbability - 0.5);
  }

  lemma ExitGrows(sticky: DirectionRule, other: DirectionRule)
    requires ValidDirectionRule(sticky) && ValidDirectionRule(other)
    requires sticky.entryProbability == other.entryProbability && sticky.hysteresisRatio <= other.hysteresisRatio
    ensures ExitProbability(sticky) <= ExitProbability(other)
  {
    hide Part;
    PartsOrdered(sticky.hysteresisRatio, other.hysteresisRatio, sticky.entryProbability - 0.5);
  }

  /** One observation: the less sticky rule is in the same state or uncertain, and a change lands on its state. */
  lemma StickierStep(a: Direction, b: Direction, p: real, sticky: DirectionRule, other: DirectionRule)
    requires ValidDirectionRule(sticky) && ValidDirectionRule(other)
    requires sticky.entryProbability == other.entryProbability && sticky.hysteresisRatio <= other.hysteresisRatio
    requires a == b || b == Uncertain
    ensures var a', b' := NextDirection(a, p, sticky), NextDirection(b, p, other);
            (a' == b' || b' == Uncertain) && (a' != a ==> a' == b') && (a == b && a' != a ==> b' == a')
  {
    ExitIsBetween(sticky);
    ExitIsBetween(other);
    ExitGrows(sticky, other);
    hide ExitProbability;
  }

  lemma {:induction false} StickierDirections(probabilities: seq<real>, sticky: DirectionRule, other: DirectionRule)
    requires ValidDirectionRule(sticky) && ValidDirectionRule(other)
    requires sticky.entryProbability == other.entryProbability && sticky.hysteresisRatio <= other.hysteresisRatio
    ensures var a, b := Directions(probabilities, sticky), Directions(probabilities, other);
            && FollowsSwitches(a, b)
            && (Last(a, Uncertain) == Last(b, Uncertain) || Last(b, Uncertain) == Uncertain)
  {
    hide NextDirection;
    if |probabilities| > 0 {
      var n := |probabilities| - 1;
      var a, b := Directions(probabilities[..n], sticky), Directions(probabilities[..n], other);
      StickierDirections(probabilities[..n], sticky, other);
      StickierStep(Last(a, Uncertain), Last(b, Uncertain), probabilities[n], sticky, other);
      if n == 0 { StickierStart(probabilities[0], sticky, other); }
    }
  }

  /** From uncertainty only the entry probability counts. */
  lemma StickierStart(p: real, sticky: DirectionRule, other: DirectionRule)
    requires sticky.entryProbability == other.entryProbability
    ensures NextDirection(Uncertain, p, sticky) == NextDirection(Uncertain, p, other)
  {
  }

  /** A smaller hysteresis ratio never yields more direction switches. */
  lemma StickierDirectionSwitchesLess(probabilities: seq<real>, sticky: DirectionRule, other: DirectionRule)
    requires ValidDirectionRule(sticky) && ValidDirectionRule(other)
    requires sticky.entryProbability == other.entryProbability && sticky.hysteresisRatio <= other.hysteresisRatio
    ensures Switches(Directions(probabilities, sticky)) <= Switches(Directions(probabilities, other))
  {
    StickierDirections(probabilities, sticky, other);
    FollowerSwitchesLess(Directions(probabilities, sticky), Directions(probabilities, other));
  }

  lemma KeepsMore(condition: VolatilityCondition, ratios: ActivityVector, sticky: real, other: real)
    requires condition.entryThreshold > 1.0 && 0.0 <= sticky <= other <= 1.0
    ensures Raises(condition, ratios) ==> Keeps(condition, ratios, other)
    ensures Keeps(condition, ratios, other) ==> Keeps(condition, ratios, sticky)
  {
    hide Part;
    PartsOrdered(sticky, other, condition.entryThreshold - 1.0);
  }

  lemma StickierVolatilityStep(a: bool, b: bool, ratios: ActivityVector, sticky: VolatilityRule, other: VolatilityRule)
    requires ValidVolatilityRule(sticky) && ValidVolatilityRule(other)
    requires sticky.conditions == other.conditions && sticky.hysteresisRatio <= other.hysteresisRatio
    requires b ==> a
    ensures var a', b' := NextVolatility(a, ratios, sticky), NextVolatility(b, ratios, other);
            (b' ==> a') && (a' != a ==> a' == b')
  {
    hide Raises, Keeps, KnownMetric;
    forall i | 0 <= i < |sticky.conditions|
      ensures Raises(sticky.conditions[i], ratios) ==> Keeps(sticky.conditions[i], ratios, other.hysteresisRatio)
      ensures Keeps(sticky.conditions[i], ratios, other.hysteresisRatio) ==> Keeps(sticky.conditions[i], ratios, sticky.hysteresisRatio)
    {
      KeepsMore(sticky.conditions[i], ratios, sticky.hysteresisRatio, other.hysteresisRatio);
    }
  }

  lemma {:induction false} StickierVolatilities(ratios: seq<ActivityVector>, sticky: VolatilityRule, other: VolatilityRule)
    requires ValidVolatilityRule(sticky) && ValidVolatilityRule(other)
    requires sticky.conditions == other.conditions && sticky.hysteresisRatio <= other.hysteresisRatio
    ensures var a, b := Volatilities(ratios, sticky), Volatilities(ratios, other);
            FollowsSwitches(a, b) && (Last(b, false) ==> Last(a, false))
  {
    hide NextVolatility, ValidVolatilityRule;
    if |ratios| > 0 {
      var n := |ratios| - 1;
      StickierVolatilities(ratios[..n], sticky, other);
      StickierVolatilityStep(Last(Volatilities(ratios[..n], sticky), false), Last(Volatilities(ratios[..n], other), false), ratios[n], sticky, other);
      if n == 0 { StickierVolatilityStart(ratios[0], sticky, other); }
    }
  }

  lemma StickierVolatilityStart(ratios: ActivityVector, sticky: VolatilityRule, other: VolatilityRule)
    requires sticky.conditions == other.conditions
    ensures NextVolatility(false, ratios, sticky) == NextVolatility(false, ratios, other)
  {
    hide Raises;
  }

  /** A smaller hysteresis ratio never yields more volatility switches. */
  lemma StickierVolatilitySwitchesLess(ratios: seq<ActivityVector>, sticky: VolatilityRule, other: VolatilityRule)
    requires ValidVolatilityRule(sticky) && ValidVolatilityRule(other)
    requires sticky.conditions == other.conditions && sticky.hysteresisRatio <= other.hysteresisRatio
    ensures Switches(Volatilities(ratios, sticky)) <= Switches(Volatilities(ratios, other))
  {
    StickierVolatilities(ratios, sticky, other);
    FollowerSwitchesLess(Volatilities(ratios, sticky), Volatilities(ratios, other));
  }
}
