/**
  Scores of the hysteresis rules over out-of-fold predictions
  (internal/dynamicparam/state_search.go). The mutual information is a parameter of the model.
 */
module StateSearch {
  import opened ActivityScale
  import opened Hysteresis

  datatype Prediction = Prediction(index: int, directionUpProbability: real)

  datatype DirectionDiagnostics = DirectionDiagnostics(mutualInformation: real, coverage: real, hitRate: real, actualUpRate: map<Direction, real>,
                                                       stateDurations: seq<nat>, switches: nat)

  datatype VolatilityDiagnostics = VolatilityDiagnostics(balancedAccuracy: real, falseExits: nat, exitDelay: nat, switches: nat, stateDurations: seq<nat>)

  // ----- counting observations

  /** A question about a predicted state and the true outcome of one observation. */
  datatype Query<T> = InState(state: T) | RisingIn(state: T) | Otherwise(state: T) | TrueOtherwise(state: T)

  /** How many observations are in a state, in it and true, not in it, or not in it and true. */
  ghost function Tally<T>(states: seq<T>, truths: seq<bool>, q: Query<T>): (n: nat)
    requires |states| == |truths|
    ensures n <= |states|
  {
    if |states| == 0 then 0
    else
      var k := |states| - 1;
      Tally(states[..k], truths[..k], q)
      + match q
        case InState(s) => if states[k] == s then 1 else 0
        case RisingIn(s) => if states[k] == s && truths[k] then 1 else 0
        case Otherwise(s) => if states[k] != s then 1 else 0
        case TrueOtherwise(s) => if states[k] != s && truths[k] then 1 else 0
  }

  lemma TallyGrows<T>(states: seq<T>, truths: seq<bool>, s: T, t: bool, q: Query<T>)
    requires |states| == |truths|
    ensures Tally(states + [s], truths + [t], q) == Tally(states, truths, q)
            + match q
              case InState(x) => if s == x then 1 else 0
              case RisingIn(x) => if s == x && t then 1 else 0
              case Otherwise(x) => if s != x then 1 else 0
              case TrueOtherwise(x) => if s != x && t then 1 else 0
  {
    assert (states + [s])[..|states|] == states && (truths + [t])[..|truths|] == truths;
  }

  /** In it or not in it; and truth splits either. */
  lemma {:induction false} TalliesSplit<T>(states: seq<T>, truths: seq<bool>, s: T)
    requires |states| == |truths|
    ensures Tally(states, truths, InState(s)) + Tally(states, truths, Otherwise(s)) == |states|
    ensures Tally(states, truths, RisingIn(s)) <= Tally(states, truths, InState(s))
    ensures Tally(states, truths, TrueOtherwise(s)) <= Tally(states, truths, Otherwise(s))
  {
    if |states| > 0 { TalliesSplit(states[..|states| - 1], truths[..|truths| - 1], s); }
  }

  /** The positions a question is about. */
  ghost function Positions<T>(states: seq<T>, truths: seq<bool>, q: Query<T>): set<int>
    requires |states| == |truths|
  {
    match q
    case InState(s) => set i | 0 <= i < |states| && states[i] == s
    case RisingIn(s) => set i | 0 <= i < |states| && states[i] == s && truths[i]
    case Otherwise(s) => set i | 0 <= i < |states| && states[i] != s
    case TrueOtherwise(s) => set i | 0 <= i < |states| && states[i] != s && truths[i]
  }

  /** A tally is the number of the positions it asks for. */
  lemma {:induction false} TallyCounts<T>(states: seq<T>, truths: seq<bool>, q: Query<T>)
    requires |states| == |truths|
    ensures Tally(states, truths, q) == |Positions(states, truths, q)|
  {
    if |states| == 0 {
      assert Positions(states, truths, q) == {};
    } else {
      var k := |states| - 1;
      TallyCounts(states[..k], truths[..k], q);
      var few := Positions(states[..k], truths[..k], q);
      assert k !in few;
      assert Positions(states, truths, q) == few || Positions(states, truths, q) == few + {k};
    }
  }

  // ----- stretches of equal states

  /** Finished stretches, the length of the current one, and the switches so far. */
  datatype Stretches = Stretches(durations: seq<nat>, run: nat, switches: nat)

  const NO_STRETCHES := Stretches([], 0, 0)

  ghost predicate Stretched<T>(states: seq<T>, s: Stretches) {
    && RunLengths(states) == AllDurations(s)
    && s.switches == Switches(states)
    && (s.run == 0 <==> |states| == 0)
  }

  function AllDurations(s: Stretches): seq<nat> {
    s.durations + if s.run > 0 then [s.run] else []
  }

  lemma StretchGrows<T>(states: seq<T>, s: Stretches, next: T)
    requires Stretched(states, s)
    ensures |states| == 0 || next == states[|states| - 1] ==> Stretched(states + [next], s.(run := s.run + 1))
    ensures |states| > 0 && next != states[|states| - 1] ==> Stretched(states + [next], Stretches(s.durations + [s.run], 1, s.switches + 1))
  {
    var more, n := states + [next], |states|;
    assert more[..n] == states;
    var before := RunLengths(states);
    assert RunLengths(more) == if n > 0 && next == states[n - 1] && |before| > 0 then before[..|before| - 1] + [before[|before| - 1] + 1] else before + [1];
    if n > 0 { assert before[..|before| - 1] == s.durations; }
  }

  /** One more state: the current stretch grows, or a new one begins. */
  method Stretch<T(==)>(s: Stretches, ghost states: seq<T>, last: T, next: T) returns (r: Stretches)
    requires Stretched(states, s) && (|states| > 0 ==> last == states[|states| - 1])
    ensures Stretched(states + [next], r)
  {
    StretchGrows(states, s, next);
    if s.run == 0 || next == last {
      r := s.(run := s.run + 1);
    } else {
      r := Stretches(s.durations + [s.run], 1, s.switches + 1);
    }
  }

  // ----- directions

  ghost function LabelledProbabilities(oof: seq<Prediction>, labels: map<int, bool>): seq<real> {
    if |oof| == 0 then []
    else
      var p := oof[|oof| - 1];
      LabelledProbabilities(oof[..|oof| - 1], labels) + if p.index in labels then [p.directionUpProbability] else []
  }

  ghost function LabelledTruths(oof: seq<Prediction>, labels: map<int, bool>): (t: seq<bool>)
    ensures |t| == |LabelledProbabilities(oof, labels)|
  {
    if |oof| == 0 then []
    else
      var p := oof[|oof| - 1];
      LabelledTruths(oof[..|oof| - 1], labels) + if p.index in labels then [labels[p.index]] else []
  }

  lemma LabelledGrow(oof: seq<Prediction>, labels: map<int, bool>, k: nat)
    requires k < |oof|
    ensures var p := oof[k];
            var was, now := LabelledProbabilities(oof[..k], labels), LabelledProbabilities(oof[..k + 1], labels);
            var truthsWas, truths := LabelledTruths(oof[..k], labels), LabelledTruths(oof[..k + 1], labels);
            if p.index in labels then now == was + [p.directionUpProbability] && truths == truthsWas + [labels[p.index]]
            else now == was && truths == truthsWas
  {
    assert oof[..k + 1][..k] == oof[..k];
  }

  lemma DirectionsGrow(probabilities: seq<real>, p: real, rule: DirectionRule)
    ensures var before := Directions(probabilities, rule);
            Directions(probabilities + [p], rule) == before + [NextDirection(Last(before, Uncertain), p, rule)]
  {
    hide NextDirection;
    assert (probabilities + [p])[..|probabilities|] == probabilities;
  }

  /** Predictions that are certain and right. */
  ghost function Hits(states: seq<Direction>, truths: seq<bool>): nat
    requires |states| == |truths|
  {
    TalliesSplit(states, truths, Down);
    Tally(states, truths, RisingIn(Up)) + (Tally(states, truths, InState(Down)) - Tally(states, truths, RisingIn(Down)))
  }

  /** Hits are the positions with the direction that came true. */
  lemma HitsCount(states: seq<Direction>, truths: seq<bool>)
    requires |states| == |truths|
    ensures Hits(states, truths) == |set i | 0 <= i < |states| && states[i] == if truths[i] then Up else Down|
  {
    var rising, down, wrong := Positions(states, truths, RisingIn(Up)), Positions(states, truths, InState(Down)), Positions(states, truths, RisingIn(Down));
    TallyCounts(states, truths, RisingIn(Up));
    TallyCounts(states, truths, InState(Down));
    TallyCounts(states, truths, RisingIn(Down));
    assert wrong <= down && rising !! (down - wrong);
    assert (set i | 0 <= i < |states| && states[i] == if truths[i] then Up else Down) == rising + (down - wrong);
  }

  /** The counters of the scoring loop, with the predictions and outcomes seen so far. */
  datatype Score = Score(states: seq<Direction>, truths: seq<bool>, counts: map<Direction, nat>, upCounts: map<Direction, nat>,
                         hits: nat, certain: nat)

  const NO_SCORE := Score([], [], map[], map[], 0, 0)

  function Lookup(counts: map<Direction, nat>, d: Direction): nat {
    if d in counts then counts[d] else 0
  }

  ghost predicate Counted(s: Score) {
    && |s.states| == |s.truths|
    && (forall d :: d in s.counts <==> d in s.states)
    && (forall d :: Lookup(s.counts, d) == Tally(s.states, s.truths, InState(d)))
    && (forall d :: Lookup(s.upCounts, d) == Tally(s.states, s.truths, RisingIn(d)))
    && s.certain == Tally(s.states, s.truths, Otherwise(Uncertain))
    && s.hits == Hits(s.states, s.truths)
  }

  lemma CountsGrow(s: Score, current: Direction, up: bool)
    requires Counted(s)
    ensures var states, truths := s.states + [current], s.truths + [up];
            && (forall d :: Lookup(s.counts[current := Lookup(s.counts, current) + 1], d) == Tally(states, truths, InState(d)))
            && (forall d :: Lookup(if up then s.upCounts[current := Lookup(s.upCounts, current) + 1] else s.upCounts, d)
                            == Tally(states, truths, RisingIn(d)))
  {
    forall d
      ensures Lookup(s.counts[current := Lookup(s.counts, current) + 1], d) == Tally(s.states + [current], s.truths + [up], InState(d))
      ensures Lookup(if up then s.upCounts[current := Lookup(s.upCounts, current) + 1] else s.upCounts, d)
              == Tally(s.states + [current], s.truths + [up], RisingIn(d))
    {
      TallyGrows(s.states, s.truths, current, up, InState(d));
      TallyGrows(s.states, s.truths, current, up, RisingIn(d));
    }
  }

  lemma HitsGrow(states: seq<Direction>, truths: seq<bool>, current: Direction, up: bool)
    requires |states| == |truths|
    ensures Hits(states + [current], truths + [up]) == Hits(states, truths) + if current == (if up then Up else Down) then 1 else 0
  {
    hide Tally;
    TalliesSplit(states, truths, Down);
    TalliesSplit(states + [current], truths + [up], Down);
    TallyGrows(states, truths, current, up, RisingIn(Up));
    TallyGrows(states, truths, current, up, RisingIn(Down));
    TallyGrows(states, truths, current, up, InState(Down));
  }

  /** Scores one labelled observation. */
  method Count(s: Score, current: Direction, up: bool) returns (r: Score)
    requires Counted(s)
    ensures Counted(r) && r.states == s.states + [current] && r.truths == s.truths + [up]
  {
    hide Tally, Hits;
    CountsGrow(s, current, up);
    HitsGrow(s.states, s.truths, current, up);
    TallyGrows(s.states, s.truths, current, up, Otherwise(Uncertain));
    var truth := if up then Up else Down;
    r := s.(states := s.states + [current], truths := s.truths + [up], counts := s.counts[current := Lookup(s.counts, current) + 1]);
    if up {
      r := r.(upCounts := s.upCounts[current := Lookup(s.upCounts, current) + 1]);
    }
    if current != Uncertain {
      r := r.(certain := r.certain + 1);
      if current == truth {
        r := r.(hits := r.hits + 1);
      }
    }
  }

  function Ratio(a: nat, b: nat): real {
    if b == 0 then 0.0 else a as real / b as real
  }

  /** The scores of a rule over the labelled predictions, from the states it passes through. */
  ghost predicate Scores(d: DirectionDiagnostics, states: seq<Direction>, truths: seq<bool>, minimumSupport: int,
                         mutual: (seq<Direction>, seq<bool>) -> real)
    requires |states| == |truths|
  {
    var certain := Tally(states, truths, Otherwise(Uncertain));
    && d.stateDurations == RunLengths(states) && d.switches == Switches(states)
    && d.mutualInformation == (if certain < minimumSupport then -1.0 else mutual(states, truths))
    && d.coverage == Ratio(certain, |states|) && d.hitRate == Ratio(Hits(states, truths), certain)
    && (forall s :: s in d.actualUpRate <==> s in states)
    && (forall s :: s in states ==> d.actualUpRate[s] == Ratio(Tally(states, truths, RisingIn(s)), Tally(states, truths, InState(s))))
  }

  method ScoreEndpointDirection(oof: seq<Prediction>, labels: map<int, bool>, rule: DirectionRule, minimumSupport: int,
                                mutual: (seq<Direction>, seq<bool>) -> real)
    returns (d: DirectionDiagnostics)
    ensures var states, truths := Directions(LabelledProbabilities(oof, labels), rule), LabelledTruths(oof, labels);
            Scores(d, states, truths, minimumSupport, mutual)
    ensures TotalLength(d.stateDurations) == |LabelledProbabilities(oof, labels)|
    ensures |d.stateDurations| == if LabelledProbabilities(oof, labels) == [] then 0 else d.switches + 1
  {
    hide NextDirection, Directions, LabelledProbabilities, LabelledTruths, Tally, RunLengths, Hits, TotalLength, Switches;
    var current, s, stretches := Uncertain, NO_SCORE, NO_STRETCHES;
    NothingCounted();
    NothingLabelled(labels, rule);
    for k := 0 to |oof|
      invariant Counted(s) && Stretched(s.states, stretches) && current == Last(s.states, Uncertain)
      invariant s.states == Directions(LabelledProbabilities(oof[..k], labels), rule) && s.truths == LabelledTruths(oof[..k], labels)
    {
      LabelledGrow(oof, labels, k);
      var prediction := oof[k];
      if prediction.index !in labels {
        continue;
      }
      DirectionsGrow(LabelledProbabilities(oof[..k], labels), prediction.directionUpProbability, rule);
      var last := current;
      current := NextDirection(current, prediction.directionUpProbability, rule);
      stretches := Stretch(stretches, s.states, last, current);
      s := Count(s, current, labels[prediction.index]);
    }
    assert oof[..|oof|] == oof;
    RunsCover(s.states);
    d := Report(s, stretches, minimumSupport, mutual);
  }

  lemma NothingLabelled(labels: map<int, bool>, rule: DirectionRule)
    ensures LabelledProbabilities([], labels) == [] && LabelledTruths([], labels) == [] && Directions([], rule) == []
  {
  }

  lemma NothingCounted()
    ensures Counted(NO_SCORE) && Stretched<Direction>([], NO_STRETCHES) && Stretched<bool>([], NO_STRETCHES)
  {
  }

  method Report(s: Score, stretches: Stretches, minimumSupport: int, mutual: (seq<Direction>, seq<bool>) -> real) returns (d: DirectionDiagnostics)
    requires Counted(s) && Stretched(s.states, stretches)
    ensures Scores(d, s.states, s.truths, minimumSupport, mutual)
  {
    hide Tally, RunLengths, Hits, Switches;
    PresentAreCounted(s);
    var information := if s.certain < minimumSupport then -1.0 else mutual(s.states, s.truths);
    var rates := map d | d in s.counts && s.counts[d] > 0 :: Ratio(Lookup(s.upCounts, d), s.counts[d]);
    d := DirectionDiagnostics(information, Ratio(s.certain, |s.states|), Ratio(s.hits, s.certain), rates, AllDurations(stretches), stretches.switches);
  }

  lemma PresentAreCounted(s: Score)
    requires Counted(s)
    ensures forall d :: d in s.counts ==> s.counts[d] > 0
  {
    forall d | d in s.counts ensures s.counts[d] > 0 {
      assert Lookup(s.counts, d) == Tally(s.states, s.truths, InState(d));
      SeenIsTallied(s.states, s.truths, d);
    }
  }

  lemma {:induction false} SeenIsTallied<T>(states: seq<T>, truths: seq<bool>, s: T)
    requires |states| == |truths| && s in states
    ensures Tally(states, truths, InState(s)) > 0
  {
    var n := |states| - 1;
    if states[n] != s { SeenIsTallied(states[..n], truths[..n], s); }
  }

  // ----- volatility

  /** A labelled prediction with an available feature point: the ratios the rule sees and whether volatility was high. */
  datatype Observation = Observation(ratios: ActivityVector, truthHigh: bool)

  /** What is known of one index: its label, if any, and its ratios, if available. */
  datatype Known = Known(labels: map<int, bool>, ratios: map<int, ActivityVector>)

  ghost function Observations(oof: seq<Prediction>, known: Known): seq<Observation> {
    if |oof| == 0 then []
    else
      var p := oof[|oof| - 1];
      Observations(oof[..|oof| - 1], known)
      + if p.index in known.labels && p.index in known.ratios then [Observation(known.ratios[p.index], known.labels[p.index])] else []
  }

  ghost function RatiosOf(o: seq<Observation>): (r: seq<ActivityVector>)
    ensures |r| == |o|
  {
    seq(|o|, i requires 0 <= i < |o| => o[i].ratios)
  }

  ghost function TruthsOf(o: seq<Observation>): (t: seq<bool>)
    ensures |t| == |o|
  {
    seq(|o|, i requires 0 <= i < |o| => o[i].truthHigh)
  }

  /** Switches to low while volatility was still high. */
  ghost function FalseExits(states: seq<bool>, truths: seq<bool>): nat
    requires |states| == |truths|
  {
    if |states| < 2 then 0
    else
      var k := |states| - 1;
      FalseExits(states[..k], truths[..k]) + if states[k - 1] && !states[k] && truths[k] then 1 else 0
  }

  /** A false exit is a missed high. */
  lemma {:induction false} FalseExitsAreMisses(states: seq<bool>, truths: seq<bool>)
    requires |states| == |truths|
    ensures FalseExits(states, truths) <= Tally(states, truths, RisingIn(false))
  {
    if |states| >= 2 { FalseExitsAreMisses(states[..|states| - 1], truths[..|truths| - 1]); }
  }

  /** The positions where high turns to low while volatility was high. */
  ghost function ExitPositions(states: seq<bool>, truths: seq<bool>, n: nat): set<int>
    requires n <= |states| == |truths|
  {
    set i | 1 <= i < n && states[i - 1] && !states[i] && truths[i]
  }

  lemma OneMoreExit(states: seq<bool>, truths: seq<bool>, n: nat)
    requires 1 <= n < |states| == |truths|
    ensures |ExitPositions(states, truths, n + 1)|
         == |ExitPositions(states, truths, n)| + if states[n - 1] && !states[n] && truths[n] then 1 else 0
  {
    var few := ExitPositions(states, truths, n);
    assert ExitPositions(states, truths, n + 1) == if states[n - 1] && !states[n] && truths[n] then few + {n} else few;
  }

  /** False exits are counted at exactly these positions. */
  lemma {:induction false} FalseExitsCount(states: seq<bool>, truths: seq<bool>, n: nat)
    requires n <= |states| == |truths|
    ensures FalseExits(states[..n], truths[..n]) == |ExitPositions(states, truths, n)|
  {
    if n < 2 {
      assert ExitPositions(states, truths, n) == {};
    } else {
      FalseExitsCount(states, truths, n - 1);
      OneMoreExit(states, truths, n - 1);
      hide ExitPositions;
      assert states[..n][..n - 1] == states[..n - 1] && truths[..n][..n - 1] == truths[..n - 1];
    }
  }

  datatype Confusion = Confusion(tp: nat, tn: nat, fp: nat, fn: nat, falseExits: nat, exitDelay: nat)

  ghost predicate Confused(states: seq<bool>, truths: seq<bool>, c: Confusion) {
    && |states| == |truths|
    && c.tp == Tally(states, truths, RisingIn(true)) && c.fn == Tally(states, truths, RisingIn(false))
    && c.tp + c.fp == Tally(states, truths, InState(true)) && c.tn + c.fn == Tally(states, truths, InState(false))
    && c.falseExits == FalseExits(states, truths) && c.exitDelay == c.fp
  }

  /** Enters one observation into the confusion counts. */
  method Confuse(c: Confusion, ghost states: seq<bool>, ghost truths: seq<bool>, first: bool, last: bool, current: bool, truthHigh: bool)
    returns (r: Confusion)
    requires Confused(states, truths, c) && first == (|states| == 0) && (!first ==> last == states[|states| - 1])
    ensures Confused(states + [current], truths + [truthHigh], r)
  {
    hide Tally;
    ConfusionGrows(states, truths, current, truthHigh);
    r := c;
    if current && truthHigh { r := r.(tp := r.tp + 1); }
    if current && !truthHigh { r := r.(fp := r.fp + 1); }
    if !current && truthHigh { r := r.(fn := r.fn + 1); }
    if !current && !truthHigh { r := r.(tn := r.tn + 1); }
    if !first && current != last {
      if !current && truthHigh { r := r.(falseExits := r.falseExits + 1); }
    }
    if current && !truthHigh { r := r.(exitDelay := r.exitDelay + 1); }
  }

  lemma ConfusionGrows(states: seq<bool>, truths: seq<bool>, current: bool, truthHigh: bool)
    requires |states| == |truths|
    ensures var s, t := states + [current], truths + [truthHigh];
            && (forall b: bool :: Tally(s, t, RisingIn(b)) == Tally(states, truths, RisingIn(b)) + if current == b && truthHigh then 1 else 0)
            && (forall b: bool :: Tally(s, t, InState(b)) == Tally(states, truths, InState(b)) + if current == b then 1 else 0)
            && FalseExits(s, t) == FalseExits(states, truths) + if |states| > 0 && states[|states| - 1] && !current && truthHigh then 1 else 0
  {
    hide Tally, FalseExits;
    FalseExitsGrow(states, truths, current, truthHigh);
    forall b: bool
      ensures Tally(states + [current], truths + [truthHigh], RisingIn(b)) == Tally(states, truths, RisingIn(b)) + if current == b && truthHigh then 1 else 0
      ensures Tally(states + [current], truths + [truthHigh], InState(b)) == Tally(states, truths, InState(b)) + if current == b then 1 else 0
    {
      TallyGrows(states, truths, current, truthHigh, RisingIn(b));
      TallyGrows(states, truths, current, truthHigh, InState(b));
    }
  }

  lemma FalseExitsGrow(states: seq<bool>, truths: seq<bool>, current: bool, truthHigh: bool)
    requires |states| == |truths|
    ensures FalseExits(states + [current], truths + [truthHigh])
         == FalseExits(states, truths) + if |states| > 0 && states[|states| - 1] && !current && truthHigh then 1 else 0
  {
    assert (states + [current])[..|states|] == states && (truths + [truthHigh])[..|truths|] == truths;
  }

  lemma ObservationsGrow(oof: seq<Prediction>, known: Known, k: nat)
    requires k < |oof|
    ensures Observations(oof[..k + 1], known) == Observations(oof[..k], known)
            + if oof[k].index in known.labels && oof[k].index in known.ratios
              then [Observation(known.ratios[oof[k].index], known.labels[oof[k].index])] else []
  {
    assert oof[..k + 1][..k] == oof[..k];
  }

  lemma VolatilitiesGrow(seen: seq<Observation>, o: Observation, rule: VolatilityRule)
    ensures var before := Volatilities(RatiosOf(seen), rule);
            Volatilities(RatiosOf(seen + [o]), rule) == before + [NextVolatility(Last(before, false), o.ratios, rule)]
    ensures TruthsOf(seen + [o]) == TruthsOf(seen) + [o.truthHigh]
  {
    hide NextVolatility;
    var more := RatiosOf(seen + [o]);
    assert more[..|seen|] == RatiosOf(seen);
  }

  /** The scores of a volatility rule: half the rate of highs found plus half the rate of lows found. */
  ghost predicate ScoresVolatility(d: VolatilityDiagnostics, states: seq<bool>, truths: seq<bool>)
    requires |states| == |truths|
  {
    var found, high := Tally(states, truths, RisingIn(true)), Tally(states, truths, InState(true));
    var missed, low := Tally(states, truths, RisingIn(false)), Tally(states, truths, InState(false));
    && d.stateDurations == RunLengths(states) && d.switches == Switches(states)
    && d.falseExits == FalseExits(states, truths)
    && d.exitDelay == high - found
    && found <= high && missed <= low
    && d.balancedAccuracy == (Ratio(found, found + missed) + Ratio(low - missed, (low - missed) + (high - found))) / 2.0
  }

  method ScoreVolatilityRule(oof: seq<Prediction>, known: Known, rule: VolatilityRule) returns (d: VolatilityDiagnostics)
    ensures var o := Observations(oof, known);
            ScoresVolatility(d, Volatilities(RatiosOf(o), rule), TruthsOf(o))
    ensures TotalLength(d.stateDurations) == |Observations(oof, known)|
    ensures |d.stateDurations| == if Observations(oof, known) == [] then 0 else d.switches + 1
  {
    hide NextVolatility, Volatilities, Observations, RatiosOf, TruthsOf, Tally, RunLengths, TotalLength, Switches, FalseExits, Confused, Stretched, ScoresVolatility;
    var current, first := false, true;
    var c, stretches := Confusion(0, 0, 0, 0, 0, 0), NO_STRETCHES;
    ghost var seen: seq<Observation> := [];
    NothingObserved(oof, known, rule);
    for k := 0 to |oof|
      invariant seen == Observations(oof[..k], known)
      invariant Confused(Volatilities(RatiosOf(seen), rule), TruthsOf(seen), c)
      invariant Stretched(Volatilities(RatiosOf(seen), rule), stretches)
      invariant first == (|seen| == 0) && current == Last(Volatilities(RatiosOf(seen), rule), false)
    {
      ObservationsGrow(oof, known, k);
      var index := oof[k].index;
      if index !in known.labels || index !in known.ratios {
        continue;
      }
      var last, truthHigh := current, known.labels[index];
      ghost var states := Volatilities(RatiosOf(seen), rule);
      VolatilitiesGrow(seen, Observation(known.ratios[index], truthHigh), rule);
      current := NextVolatility(current, known.ratios[index], rule);
      c := Confuse(c, states, TruthsOf(seen), first, last, current, truthHigh);
      stretches := Stretch(stretches, states, last, current);
      seen, first := seen + [Observation(known.ratios[index], truthHigh)], false;
    }
    assert oof[..|oof|] == oof;
    RunsCover(Volatilities(RatiosOf(seen), rule));
    d := ReportVolatility(c, stretches, Volatilities(RatiosOf(seen), rule), TruthsOf(seen));
  }

  method ReportVolatility(c: Confusion, stretches: Stretches, ghost states: seq<bool>, ghost truths: seq<bool>) returns (d: VolatilityDiagnostics)
    requires Confused(states, truths, c) && Stretched(states, stretches)
    ensures ScoresVolatility(d, states, truths) && d.stateDurations == RunLengths(states) && d.switches == Switches(states)
  {
    hide Tally, RunLengths, Switches, FalseExits, Ratio;
    TalliesSplit(states, truths, true);
    TalliesSplit(states, truths, false);
    d := VolatilityDiagnostics((Ratio(c.tp, c.tp + c.fn) + Ratio(c.tn, c.tn + c.fp)) / 2.0, c.falseExits, c.exitDelay,
                               stretches.switches, AllDurations(stretches));
  }

  lemma NothingObserved(oof: seq<Prediction>, known: Known, rule: VolatilityRule)
    ensures Observations(oof[..0], known) == [] && Volatilities(RatiosOf([]), rule) == [] && TruthsOf([]) == []
    ensures Confused([], [], Confusion(0, 0, 0, 0, 0, 0)) && Stretched<bool>([], NO_STRETCHES)
  {
  }
}
