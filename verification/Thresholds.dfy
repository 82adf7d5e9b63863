/**
  What the states of the two hysteresis rules mean (internal/dynamicparam/state.go): a state is held
  exactly when some observation entered it and every later one was good enough to keep it, for whole
  sequences of observations and for what the state engine reports.
 */
module Thresholds {
  import opened RealMath
  import opened ActivityScale
  import opened Hysteresis
  import opened StateEngines

  // ----- directions

  /** The share of its entry probability, above one half, that a direction must keep. */
  ghost function KeptProbability(rule: DirectionRule): real {
    0.5 + rule.hysteresisRatio * (rule.entryProbability - 0.5)
  }

  /** Some observation reached the entry probability, and none since fell below the kept share of it. */
  ghost predicate Rose(probabilities: seq<real>, rule: DirectionRule) {
    exists j :: EnteredUp(probabilities, rule, j)
  }

  ghost predicate EnteredUp(probabilities: seq<real>, rule: DirectionRule, j: int) {
    && 0 <= j < |probabilities| && probabilities[j] >= rule.entryProbability
    && forall i :: j < i < |probabilities| ==> probabilities[i] >= KeptProbability(rule)
  }

  /** The same for the opposite direction, with the probabilities of a fall. */
  ghost predicate Fell(probabilities: seq<real>, rule: DirectionRule) {
    exists j :: EnteredDown(probabilities, rule, j)
  }

  ghost predicate EnteredDown(probabilities: seq<real>, rule: DirectionRule, j: int) {
    && 0 <= j < |probabilities| && 1.0 - probabilities[j] >= rule.entryProbability
    && forall i :: j < i < |probabilities| ==> 1.0 - probabilities[i] >= KeptProbability(rule)
  }

  lemma ExitWithin(rule: DirectionRule)
    requires ValidDirectionRule(rule)
    ensures 0.5 <= ExitProbability(rule) <= rule.entryProbability
    ensures ExitProbability(rule) == KeptProbability(rule)
  {
    PartsOrdered(rule.hysteresisRatio, rule.hysteresisRatio, rule.entryProbability - 0.5);
  }

  /** One observation: at least the entry probability means up, at most one less it means down, whatever the state before. */
  lemma DirectionOfOne(current: Direction, probability: real, rule: DirectionRule)
    requires ValidDirectionRule(rule)
    ensures NextDirection(current, probability, rule) == Up
       <==> probability >= rule.entryProbability || (current == Up && probability >= ExitProbability(rule))
    ensures NextDirection(current, probability, rule) == Down
       <==> 1.0 - probability >= rule.entryProbability || (current == Down && 1.0 - probability >= ExitProbability(rule))
    ensures NextDirection(current, probability, rule) == Up ==> probability >= 0.5
    ensures NextDirection(current, probability, rule) == Down ==> probability <= 0.5
  {
    ExitWithin(rule);
  }

  lemma RoseGrows(probabilities: seq<real>, next: real, rule: DirectionRule)
    requires ValidDirectionRule(rule)
    ensures Rose(probabilities + [next], rule)
       <==> next >= rule.entryProbability || (Rose(probabilities, rule) && next >= ExitProbability(rule))
    ensures Fell(probabilities + [next], rule)
       <==> 1.0 - next >= rule.entryProbability || (Fell(probabilities, rule) && 1.0 - next >= ExitProbability(rule))
  {
    ExitWithin(rule);
    hide ExitProbability;
    UpGrows(probabilities, next, rule);
    DownGrows(probabilities, next, rule);
  }

  lemma UpGrows(probabilities: seq<real>, next: real, rule: DirectionRule)
    ensures Rose(probabilities + [next], rule) <==> next >= rule.entryProbability || (Rose(probabilities, rule) && next >= KeptProbability(rule))
  {
    hide KeptProbability;
    var more, n := probabilities + [next], |probabilities|;
    if next >= rule.entryProbability { assert EnteredUp(more, rule, n); }
    if Rose(probabilities, rule) && next >= KeptProbability(rule) {
      var j :| EnteredUp(probabilities, rule, j);
      assert EnteredUp(more, rule, j);
    }
    if Rose(more, rule) {
      var j :| EnteredUp(more, rule, j);
      if j < n {
        assert more[n] == next;
        assert EnteredUp(probabilities, rule, j) by {
          assert probabilities[j] == more[j];
          forall i | j < i < n ensures probabilities[i] == more[i] {
          }
        }
      }
    }
  }

  lemma DownGrows(probabilities: seq<real>, next: real, rule: DirectionRule)
    ensures Fell(probabilities + [next], rule)
       <==> 1.0 - next >= rule.entryProbability || (Fell(probabilities, rule) && 1.0 - next >= KeptProbability(rule))
  {
    hide KeptProbability;
    var more, n := probabilities + [next], |probabilities|;
    if 1.0 - next >= rule.entryProbability { assert EnteredDown(more, rule, n); }
    if Fell(probabilities, rule) && 1.0 - next >= KeptProbability(rule) {
      var j :| EnteredDown(probabilities, rule, j);
      assert EnteredDown(more, rule, j);
    }
    if Fell(more, rule) {
      var j :| EnteredDown(more, rule, j);
      if j < n {
        assert more[n] == next;
        assert EnteredDown(probabilities, rule, j) by {
          assert probabilities[j] == more[j];
          forall i | j < i < n ensures probabilities[i] == more[i] {
          }
        }
      }
    }
  }

  /**
    After any sequence of probabilities the direction is up exactly when some probability reached the entry
    threshold and none since has fallen below the exit threshold, down exactly when the same holds of
    the probabilities of a fall, and uncertain otherwise.
   */
  lemma {:induction false} DirectionMeans(probabilities: seq<real>, rule: DirectionRule)
    requires ValidDirectionRule(rule)
    ensures Last(Directions(probabilities, rule), Uncertain) == Up <==> Rose(probabilities, rule)
    ensures Last(Directions(probabilities, rule), Uncertain) == Down <==> Fell(probabilities, rule)
    decreases |probabilities|
  {
    hide NextDirection, Rose, Fell, ExitProbability;
    if |probabilities| == 0 {
      NothingEntered(rule);
    } else {
      var n := |probabilities| - 1;
      DirectionMeans(probabilities[..n], rule);
      assert probabilities == probabilities[..n] + [probabilities[n]];
      RoseGrows(probabilities[..n], probabilities[n], rule);
      DirectionOfOne(Last(Directions(probabilities[..n], rule), Uncertain), probabilities[n], rule);
    }
  }

  lemma NothingEntered(rule: DirectionRule)
    ensures !Rose([], rule) && !Fell([], rule)
  {
  }

  // ----- volatility

  /** Some metric lies above its entry threshold. */
  ghost predicate Exceeds(ratios: ActivityVector, rule: VolatilityRule) {
    exists i :: 0 <= i < |rule.conditions| && MetricValue(ratios, rule.conditions[i].metric) > rule.conditions[i].entryThreshold
  }

  /** Some metric reaches the kept share of its entry threshold. */
  ghost predicate Sustains(ratios: ActivityVector, rule: VolatilityRule) {
    exists i :: 0 <= i < |rule.conditions| && KeepsUp(ratios, rule.conditions[i], rule.hysteresisRatio)
  }

  ghost predicate KeepsUp(ratios: ActivityVector, condition: VolatilityCondition, ratio: real) {
    MetricValue(ratios, condition.metric) >= 1.0 + ratio * (condition.entryThreshold - 1.0)
  }

  ghost predicate Flared(ratios: seq<ActivityVector>, rule: VolatilityRule) {
    exists j :: EnteredHigh(ratios, rule, j)
  }

  ghost predicate EnteredHigh(ratios: seq<ActivityVector>, rule: VolatilityRule, j: int) {
    0 <= j < |ratios| && Exceeds(ratios[j], rule) && forall i :: j < i < |ratios| ==> Sustains(ratios[i], rule)
  }

  lemma ExceedingSustains(ratios: ActivityVector, rule: VolatilityRule)
    requires ValidVolatilityRule(rule) && Exceeds(ratios, rule)
    ensures Sustains(ratios, rule)
  {
    hide MetricValue;
    var i :| 0 <= i < |rule.conditions| && MetricValue(ratios, rule.conditions[i].metric) > rule.conditions[i].entryThreshold;
    assert rule.conditions[i].entryThreshold > 1.0;
    PartsOrdered(rule.hysteresisRatio, rule.hysteresisRatio, rule.conditions[i].entryThreshold - 1.0);
    assert KeepsUp(ratios, rule.conditions[i], rule.hysteresisRatio);
  }

  lemma VolatilityOfOne(currentHigh: bool, ratios: ActivityVector, rule: VolatilityRule)
    requires ValidVolatilityRule(rule)
    ensures NextVolatility(currentHigh, ratios, rule) <==> Exceeds(ratios, rule) || (currentHigh && Sustains(ratios, rule))
  {
    hide MetricValue;
    if Exceeds(ratios, rule) { ExceedingSustains(ratios, rule); }
    forall i | 0 <= i < |rule.conditions|
      ensures Keeps(rule.conditions[i], ratios, rule.hysteresisRatio) <==> KeepsUp(ratios, rule.conditions[i], rule.hysteresisRatio)
      ensures Raises(rule.conditions[i], ratios) <==> MetricValue(ratios, rule.conditions[i].metric) > rule.conditions[i].entryThreshold
    {
    }
  }

  lemma FlaredGrows(ratios: seq<ActivityVector>, next: ActivityVector, rule: VolatilityRule)
    ensures Flared(ratios + [next], rule) <==> Exceeds(next, rule) || (Flared(ratios, rule) && Sustains(next, rule))
  {
    hide Exceeds, Sustains;
    var more, n := ratios + [next], |ratios|;
    if Exceeds(next, rule) { assert EnteredHigh(more, rule, n); }
    if Flared(ratios, rule) && Sustains(next, rule) {
      var j :| EnteredHigh(ratios, rule, j);
      assert EnteredHigh(more, rule, j);
    }
    if Flared(more, rule) {
      var j :| EnteredHigh(more, rule, j);
      if j < n {
        assert more[n] == next;
        assert EnteredHigh(ratios, rule, j) by {
          assert ratios[j] == more[j];
          forall i | j < i < n ensures ratios[i] == more[i] {
          }
        }
      }
    }
  }

  /** Volatility is high exactly when some metric once exceeded its threshold and at every step since some metric kept its share. */
  lemma {:induction false} VolatilityMeans(ratios: seq<ActivityVector>, rule: VolatilityRule)
    requires ValidVolatilityRule(rule)
    ensures Last(Volatilities(ratios, rule), false) <==> Flared(ratios, rule)
    decreases |ratios|
  {
    hide NextVolatility, Exceeds, Sustains, EnteredHigh;
    if |ratios| == 0 {
      NothingFlared(rule);
    } else {
      var n := |ratios| - 1;
      VolatilityMeans(ratios[..n], rule);
      assert ratios == ratios[..n] + [ratios[n]];
      FlaredGrows(ratios[..n], ratios[n], rule);
      VolatilityOfOne(Last(Volatilities(ratios[..n], rule), false), ratios[n], rule);
    }
  }

  lemma NothingFlared(rule: VolatilityRule)
    ensures !Flared([], rule)
  {
  }

  // ----- what the state engine reports

  /** A reported state names the direction entered and kept by the probabilities so far, and the volatility likewise. */
  lemma ReportedStateMeans(h: seq<StateInput>, input: StateInput, rules: StateRules, numerics: Numerics, r: StructureState)
    requires Reports(h, input, rules, numerics, r) && ValidDirectionRule(rules.direction) && ValidVolatilityRule(rules.volatility)
    ensures r.stateType.direction == Up <==> Rose(Probabilities(h + [input]), rules.direction)
    ensures r.stateType.direction == Down <==> Fell(Probabilities(h + [input]), rules.direction)
    ensures r.stateType.highVolatility <==> Flared(Ratios(h + [input]), rules.volatility)
  {
    hide Directions, Volatilities, RunLengths, Rose, Fell, Flared, IsDeviation, Current, ValidVolatilityRule;
    DirectionMeans(Probabilities(h + [input]), rules.direction);
    VolatilityMeans(Ratios(h + [input]), rules.volatility);
  }
}
