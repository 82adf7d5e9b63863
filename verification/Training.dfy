/**
  Purged walk-forward folds and supervised examples (internal/dynamicparam/training.go): no label of
  a training example reaches into the validation block.
 */
module Training {
  import opened Wrappers
  import opened RealMath
  import opened Quant
  import opened ActivityScale
  import opened Targets

  datatype FoldWindow = FoldWindow(fold: nat, trainStart: int, trainEnd: int, validationStart: int, validationEnd: int, purge: int)

  datatype FoldError = InsufficientSamples

  datatype TargetKind = Direction | JointSpace | PathActivity

  datatype SupervisedExample = SupervisedExample(feature: FeaturePoint, target: seq<real>)

  // ----- folds

  ghost predicate EnoughSamples(total: int, folds: int, minimumTrain: int, purge: int) {
    total > minimumTrain + purge + folds && folds >= 2 && minimumTrain >= 1 && purge >= 1
  }

  /** Where a fold's validation begins; one past the last fold is the end of the samples. */
  ghost function ValidationStart(windows: seq<FoldWindow>, fold: nat, total: int): int
    requires fold <= |windows|
  {
    if fold < |windows| then windows[fold].validationStart else total
  }

  /** Consecutive non-empty validation blocks that end the samples, each trained on everything at least a purge before it. */
  ghost predicate PurgedFolds(windows: seq<FoldWindow>, total: int, minimumTrain: int, purge: int) {
    && (|windows| > 0 ==> windows[0].validationStart == minimumTrain + purge)
    && forall f :: 0 <= f < |windows| ==> Purged(windows[f], f, minimumTrain, purge) && windows[f].validationEnd == ValidationStart(windows, f + 1, total) - 1
  }

  ghost predicate Purged(w: FoldWindow, fold: nat, minimumTrain: int, purge: int) {
    && w.fold == fold && w.purge == purge && w.trainStart == 0
    && w.trainEnd == w.validationStart - purge - 1 && w.trainEnd >= minimumTrain - 1
    && w.validationStart <= w.validationEnd
  }

  lemma BlockFits(remaining: int, folds: int, fold: int)
    requires remaining > folds >= 2 && 0 <= fold < folds
    ensures remaining / folds >= 1
    ensures 0 <= fold * (remaining / folds) && (fold + 1) * (remaining / folds) <= remaining
  {
    var block := remaining / folds;
    assert block * folds <= remaining < (block + 1) * folds;
    if block < 1 { IntMonotone(folds, block + 1, 1); }
    IntMonotone(block, fold + 1, folds);
    IntMonotone(block, 0, fold);
  }

  /** The window of one fold: equal blocks, of which the last takes the rest. */
  ghost function FoldAt(total: int, folds: int, minimumTrain: int, purge: int, fold: nat): FoldWindow
    requires folds >= 2
  {
    var block := (total - minimumTrain - purge) / folds;
    var start := minimumTrain + purge + fold * block;
    FoldWindow(fold, 0, start - purge - 1, start, if fold == folds - 1 then total - 1 else start + block - 1, purge)
  }

  method BuildPurgedFolds(total: int, folds: int, minimumTrain: int, purge: int) returns (r: Result<seq<FoldWindow>, FoldError>)
    ensures r.Err? <==> !EnoughSamples(total, folds, minimumTrain, purge)
    ensures r.Ok? ==> |r.value| == folds && PurgedFolds(r.value, total, minimumTrain, purge)
    ensures r.Ok? ==> forall f :: 0 <= f < folds ==> r.value[f] == FoldAt(total, folds, minimumTrain, purge, f)
  {
    if total <= minimumTrain + purge + folds || folds < 2 || minimumTrain < 1 || purge < 1 {
      return Err(InsufficientSamples);
    }
    var remaining := total - minimumTrain - purge;
    var block := remaining / folds;
    BlockFits(remaining, folds, 0);
    var windows: seq<FoldWindow> := [];
    for fold := 0 to folds
      invariant |windows| == fold && forall f :: 0 <= f < fold ==> windows[f] == FoldAt(total, folds, minimumTrain, purge, f)
    {
      var validationStart := minimumTrain + purge + fold * block;
      var validationEnd := validationStart + block - 1;
      if fold == folds - 1 {
        validationEnd := total - 1;
      }
      windows := windows + [FoldWindow(fold, 0, validationStart - purge - 1, validationStart, validationEnd, purge)];
    }
    FoldsArePurged(windows, total, folds, minimumTrain, purge);
    r := Ok(windows);
  }

  lemma FoldsArePurged(windows: seq<FoldWindow>, total: int, folds: int, minimumTrain: int, purge: int)
    requires EnoughSamples(total, folds, minimumTrain, purge) && |windows| == folds
    requires forall f :: 0 <= f < folds ==> windows[f] == FoldAt(total, folds, minimumTrain, purge, f)
    ensures PurgedFolds(windows, total, minimumTrain, purge)
  {
    hide FoldAt;
    forall f | 0 <= f < folds
      ensures Purged(windows[f], f, minimumTrain, purge) && windows[f].validationEnd == ValidationStart(windows, f + 1, total) - 1
    {
      FoldIsPurged(total, folds, minimumTrain, purge, f);
    }
    FoldIsPurged(total, folds, minimumTrain, purge, 0);
  }

  /** One fold, and where the next one begins. */
  lemma FoldIsPurged(total: int, folds: int, minimumTrain: int, purge: int, f: nat)
    requires EnoughSamples(total, folds, minimumTrain, purge) && f < folds
    ensures Purged(FoldAt(total, folds, minimumTrain, purge, f), f, minimumTrain, purge)
    ensures f == 0 ==> FoldAt(total, folds, minimumTrain, purge, f).validationStart == minimumTrain + purge
    ensures FoldAt(total, folds, minimumTrain, purge, f).validationEnd
         == (if f + 1 < folds then FoldAt(total, folds, minimumTrain, purge, f + 1).validationStart else total) - 1
  {
    var remaining := total - minimumTrain - purge;
    var block := remaining / folds;
    BlockFits(remaining, folds, f);
    assert (f + 1) * block == f * block + block;
  }

  /** One block: where it begins and ends, and that the next one follows it. */
  lemma BlockAt(windows: seq<FoldWindow>, total: int, minimumTrain: int, purge: int, f: nat)
    requires PurgedFolds(windows, total, minimumTrain, purge) && f < |windows|
    ensures windows[f].validationStart <= windows[f].validationEnd
    ensures windows[f].validationEnd == if f + 1 < |windows| then windows[f + 1].validationStart - 1 else total - 1
    ensures f == 0 ==> windows[f].validationStart == minimumTrain + purge
  {
    assert Purged(windows[f], f, minimumTrain, purge);
  }

  lemma {:induction false} BlocksAscend(windows: seq<FoldWindow>, total: int, minimumTrain: int, purge: int, f: nat, g: nat)
    requires PurgedFolds(windows, total, minimumTrain, purge) && f < g < |windows|
    ensures windows[f].validationEnd < windows[g].validationStart
    decreases g
  {
    hide PurgedFolds;
    BlockAt(windows, total, minimumTrain, purge, g - 1);
    if f < g - 1 { BlocksAscend(windows, total, minimumTrain, purge, f, g - 1); }
  }

  predicate Validates(w: FoldWindow, sample: int) {
    w.validationStart <= sample <= w.validationEnd
  }

  /** A fold trains on exactly the samples that lie more than the purge before its first validated one. */
  lemma TrainsOnEarlier(windows: seq<FoldWindow>, total: int, minimumTrain: int, purge: int, f: nat, sample: int)
    requires PurgedFolds(windows, total, minimumTrain, purge) && f < |windows|
    ensures windows[f].trainStart <= sample <= windows[f].trainEnd <==> 0 <= sample && sample + purge < windows[f].validationStart
  {
    assert Purged(windows[f], f, minimumTrain, purge);
  }

  /** The blocks of all folds but the last are equally long, and the last is at least as long, by less than the number of folds. */
  lemma BlocksAreEqual(total: int, folds: int, minimumTrain: int, purge: int, f: nat, last: nat)
    requires EnoughSamples(total, folds, minimumTrain, purge) && f < last == folds - 1
    ensures var one, end := FoldAt(total, folds, minimumTrain, purge, f), FoldAt(total, folds, minimumTrain, purge, last);
            && one.validationEnd - one.validationStart + 1 == (total - minimumTrain - purge) / folds
            && 0 <= (end.validationEnd - end.validationStart) - (one.validationEnd - one.validationStart) < folds
  {
    var remaining := total - minimumTrain - purge;
    var block := remaining / folds;
    assert block * folds <= remaining < block * folds + folds;
    assert (folds - 1) * block == block * folds - block;
  }

  /** The validation blocks hold every sample after the first purge exactly once, and none before. */
  lemma EachSampleValidatedOnce(windows: seq<FoldWindow>, total: int, minimumTrain: int, purge: int, sample: int)
    requires |windows| > 0 && PurgedFolds(windows, total, minimumTrain, purge)
    ensures minimumTrain + purge <= sample < total <==> exists f :: 0 <= f < |windows| && Validates(windows[f], sample)
    ensures forall f, g :: 0 <= f < g < |windows| ==> !(Validates(windows[f], sample) && Validates(windows[g], sample))
  {
    forall f, g | 0 <= f < g < |windows| ensures windows[f].validationEnd < windows[g].validationStart {
      BlocksAscend(windows, total, minimumTrain, purge, f, g);
    }
    forall f | 0 <= f < |windows| ensures minimumTrain + purge <= windows[f].validationStart && windows[f].validationEnd < total {
      BlockAt(windows, total, minimumTrain, purge, 0);
      BlockAt(windows, total, minimumTrain, purge, f);
      BlockAt(windows, total, minimumTrain, purge, |windows| - 1);
    }
    hide PurgedFolds;
    if minimumTrain + purge <= sample < total { FindBlock(windows, total, minimumTrain, purge, sample, |windows|); }
  }

  lemma {:induction false} FindBlock(windows: seq<FoldWindow>, total: int, minimumTrain: int, purge: int, sample: int, n: nat)
    requires 0 < n <= |windows| && PurgedFolds(windows, total, minimumTrain, purge)
    requires minimumTrain + purge <= sample < ValidationStart(windows, n, total)
    ensures exists f :: 0 <= f < |windows| && Validates(windows[f], sample)
  {
    hide PurgedFolds;
    BlockAt(windows, total, minimumTrain, purge, n - 1);
    if n > 1 { BlockAt(windows, total, minimumTrain, purge, n - 2); }
    assert Validates(windows[n - 1], sample) || sample < windows[n - 1].validationStart;
    if sample < windows[n - 1].validationStart { FindBlock(windows, total, minimumTrain, purge, sample, n - 1); }
  }

  // ----- examples

  predicate Usable(features: seq<FeaturePoint>, t: TargetPoint, kind: TargetKind) {
    t.index < |features| && features[t.index].unavailable.None? && (kind == JointSpace ==> t.causalMedian.Some?)
  }

  function OutputOf(t: TargetPoint, kind: TargetKind, encode: ActivityVector -> seq<real>): seq<real> {
    match kind
    case Direction => [if t.directionUp then 1.0 else 0.0]
    case JointSpace => [t.normalizedUp, t.normalizedDown]
    case PathActivity => encode(t.futureActivity)
  }

  /** The usable targets among the first n, as examples. */
  ghost function ExamplesOf(features: seq<FeaturePoint>, targets: seq<TargetPoint>, kind: TargetKind, encode: ActivityVector -> seq<real>, n: nat): seq<SupervisedExample>
    requires n <= |targets|
  {
    if n == 0 then []
    else
      var t := targets[n - 1];
      ExamplesOf(features, targets, kind, encode, n - 1)
      + if Usable(features, t, kind) then [SupervisedExample(features[t.index], OutputOf(t, kind, encode))] else []
  }

  method TargetExamples(features: seq<FeaturePoint>, targets: seq<TargetPoint>, kind: TargetKind, encode: ActivityVector -> seq<real>)
    returns (result: seq<SupervisedExample>)
    ensures result == ExamplesOf(features, targets, kind, encode, |targets|)
  {
    hide OutputOf;
    result := [];
    for n := 0 to |targets|
      invariant result == ExamplesOf(features, targets, kind, encode, n)
    {
      var target := targets[n];
      if target.index >= |features| || features[target.index].unavailable.Some? {
        continue;
      }
      if kind == JointSpace && target.causalMedian.None? {
        continue;
      }
      result := result + [SupervisedExample(features[target.index], OutputOf(target, kind, encode))];
    }
  }

  /** Features and targets as the builders leave them: each at its own index. */
  ghost predicate InPlace(features: seq<FeaturePoint>, targets: seq<TargetPoint>) {
    && (forall i :: 0 <= i < |features| ==> features[i].index == i)
    && (forall i :: 0 <= i < |targets| ==> targets[i].index == i)
  }

  /** Indices strictly increase and stay below a bound. */
  ghost predicate Ascending(e: seq<SupervisedExample>, bound: nat) {
    && (forall i :: 0 <= i < |e| ==> e[i].feature.index < bound)
    && (forall i, j :: 0 <= i < j < |e| ==> e[i].feature.index < e[j].feature.index)
  }

  lemma AscendingGrows(e: seq<SupervisedExample>, x: SupervisedExample, bound: nat)
    requires Ascending(e, bound) && x.feature.index == bound
    ensures Ascending(e, bound + 1) && Ascending(e + [x], bound + 1)
  {
  }

  /** Leaving out unusable targets keeps the indices strictly increasing. */
  lemma {:induction false} ExamplesAscend(features: seq<FeaturePoint>, targets: seq<TargetPoint>, kind: TargetKind, encode: ActivityVector -> seq<real>, n: nat)
    requires InPlace(features, targets) && n <= |targets|
    ensures Ascending(ExamplesOf(features, targets, kind, encode, n), n)
  {
    hide OutputOf;
    if n > 0 {
      ExamplesAscend(features, targets, kind, encode, n - 1);
      var before, t := ExamplesOf(features, targets, kind, encode, n - 1), targets[n - 1];
      assert t.index == n - 1;
      if Usable(features, t, kind) {
        AscendingGrows(before, SupervisedExample(features[t.index], OutputOf(t, kind, encode)), n - 1);
      } else {
        assert before + [] == before;
      }
    }
  }

  lemma {:induction false} IndicesSpread(e: seq<SupervisedExample>, bound: nat, i: nat, j: nat)
    requires i <= j < |e| && Ascending(e, bound)
    ensures e[j].feature.index - e[i].feature.index >= j - i
    decreases j
  {
    if i < j { IndicesSpread(e, bound, i, j - 1); }
  }

  /**
    In every fold, a training example's index plus the horizon stays before every validation
    example's index, however many targets were dropped in between.
   */
  lemma TrainingEndsBeforeValidation(features: seq<FeaturePoint>, targets: seq<TargetPoint>, kind: TargetKind, encode: ActivityVector -> seq<real>,
                                     windows: seq<FoldWindow>, minimumTrain: int, horizon: nat, fold: nat, train: nat, validation: nat)
    requires InPlace(features, targets)
    requires var e := ExamplesOf(features, targets, kind, encode, |targets|);
             PurgedFolds(windows, |e|, minimumTrain, horizon) && fold < |windows| && validation < |e|
    requires windows[fold].trainStart <= train <= windows[fold].trainEnd
    requires windows[fold].validationStart <= validation <= windows[fold].validationEnd
    ensures var e := ExamplesOf(features, targets, kind, encode, |targets|);
            train < |e| && e[train].feature.index + horizon < e[validation].feature.index
  {
    hide ExamplesOf;
    var e := ExamplesOf(features, targets, kind, encode, |targets|);
    assert Purged(windows[fold], fold, minimumTrain, horizon);
    ExamplesAscend(features, targets, kind, encode, |targets|);
    IndicesSpread(e, |targets|, train, validation);
  }

  /** Every example pairs an available feature point with the outcome of the same index. */
  lemma {:induction false} ExampleMeans(features: seq<FeaturePoint>, targets: seq<TargetPoint>, kind: TargetKind, encode: ActivityVector -> seq<real>,
                                        n: nat, e: nat) returns (t: TargetPoint)
    requires InPlace(features, targets) && n <= |targets| && e < |ExamplesOf(features, targets, kind, encode, n)|
    ensures var x := ExamplesOf(features, targets, kind, encode, n)[e];
            && t in targets && t.index < |features| && x.feature == features[t.index] && x.feature.unavailable.None?
            && (kind == Direction ==> x.target == [if t.directionUp then 1.0 else 0.0])
            && (kind == JointSpace ==> t.causalMedian.Some? && x.target == [t.normalizedUp, t.normalizedDown])
            && (kind == PathActivity ==> x.target == encode(t.futureActivity))
  {
    if e < |ExamplesOf(features, targets, kind, encode, n - 1)| {
      t := ExampleMeans(features, targets, kind, encode, n - 1, e);
    } else {
      t := targets[n - 1];
    }
  }

  /** No usable target is left out. */
  lemma {:induction false} ExamplesComplete(features: seq<FeaturePoint>, targets: seq<TargetPoint>, kind: TargetKind, encode: ActivityVector -> seq<real>,
                                            n: nat, i: nat) returns (e: nat)
    requires InPlace(features, targets) && i < n <= |targets|
    requires i < |features| && features[i].unavailable.None? && (kind == JointSpace ==> targets[i].causalMedian.Some?)
    ensures e < |ExamplesOf(features, targets, kind, encode, n)| && ExamplesOf(features, targets, kind, encode, n)[e].feature == features[i]
  {
    hide OutputOf;
    if i < n - 1 {
      e := ExamplesComplete(features, targets, kind, encode, n - 1, i);
    } else {
      e := |ExamplesOf(features, targets, kind, encode, n - 1)|;
    }
  }

  // ----- the slices of a fold

  /** What is learnt, from how far back, and how it is validated. */
  datatype Study = Study(lookback: nat, includeSequence: bool, horizon: nat, m: Measures, kind: TargetKind, encode: ActivityVector -> seq<real>,
                         folds: int, minimumTrain: int)

  datatype FoldSlice = FoldSlice(window: FoldWindow, train: seq<SupervisedExample>, validation: seq<SupervisedExample>)

  ghost function Examples(s: Study, features: seq<FeaturePoint>, targets: seq<TargetPoint>): seq<SupervisedExample> {
    ExamplesOf(features, targets, s.kind, s.encode, |targets|)
  }

  /** The examples a window of a fold selects. */
  ghost predicate Selects(e: seq<SupervisedExample>, slice: FoldSlice) {
    var w := slice.window;
    && 0 == w.trainStart <= w.trainEnd < w.validationStart <= w.validationEnd < |e|
    && slice.train == e[..w.trainEnd + 1] && slice.validation == e[w.validationStart..w.validationEnd + 1]
  }

  /** All folds over some examples, each with what its window selects. */
  ghost predicate AreSlices(s: Study, e: seq<SupervisedExample>, slices: seq<FoldSlice>) {
    && s.folds >= 2 && |slices| == s.folds
    && forall f :: 0 <= f < |slices| ==> slices[f].window == FoldAt(|e|, s.folds, s.minimumTrain, s.horizon, f)
                                         && Purged(slices[f].window, f, s.minimumTrain, s.horizon) && Selects(e, slices[f])
  }

  /** The training and validation examples of every fold. */
  method FoldSlices(s: Study, features: seq<FeaturePoint>, targets: seq<TargetPoint>) returns (r: Result<seq<FoldSlice>, FoldError>)
    ensures r.Err? <==> !EnoughSamples(|Examples(s, features, targets)|, s.folds, s.minimumTrain, s.horizon)
    ensures r.Ok? ==> AreSlices(s, Examples(s, features, targets), r.value)
  {
    hide ExamplesOf, PurgedFolds, FoldAt;
    var examples := TargetExamples(features, targets, s.kind, s.encode);
    var folds := BuildPurgedFolds(|examples|, s.folds, s.minimumTrain, s.horizon);
    if folds.Err? {
      return Err(folds.error);
    }
    var slices: seq<FoldSlice> := [];
    for f := 0 to |folds.value|
      invariant |slices| == f
      invariant forall g :: 0 <= g < f ==> slices[g].window == folds.value[g] && Purged(folds.value[g], g, s.minimumTrain, s.horizon) && Selects(examples, slices[g])
    {
      var window := folds.value[f];
      WindowBounds(folds.value, |examples|, s.minimumTrain, s.horizon, f);
      slices := slices + [FoldSlice(window, examples[window.trainStart..window.trainEnd + 1], examples[window.validationStart..window.validationEnd + 1])];
    }
    r := Ok(slices);
  }

  lemma WindowBounds(windows: seq<FoldWindow>, total: int, minimumTrain: int, purge: int, f: nat)
    requires PurgedFolds(windows, total, minimumTrain, purge) && f < |windows| && minimumTrain >= 1 && purge >= 1
    ensures Purged(windows[f], f, minimumTrain, purge)
    ensures 0 == windows[f].trainStart <= windows[f].trainEnd < windows[f].validationStart <= windows[f].validationEnd < total
  {
    assert Purged(windows[f], f, minimumTrain, purge);
    if f < |windows| - 1 { BlocksAscend(windows, total, minimumTrain, purge, f, |windows| - 1); }
    BlockAt(windows, total, minimumTrain, purge, |windows| - 1);
  }

  // ----- no leakage

  /** What the builders of features and targets make of a series. */
  ghost predicate Built(bars: seq<Bar>, s: Study, features: seq<FeaturePoint>, targets: seq<TargetPoint>) {
    && ValidBars(bars) && |features| == |bars| && |targets| + s.horizon == |bars|
    && (forall i :: 0 <= i < |features| ==> features[i] == FeatureAt(bars, s.lookback, s.includeSequence, s.m, i))
    && forall i :: 0 <= i < |targets| ==> targets[i] == TargetAt(bars, i, s.horizon, s.m)
  }

  /**
    No leakage: when the bars before a validation example are the same, every training target that
    ends before it is the same, whatever the later bars are.
   */
  lemma NoLeakage(bars: seq<Bar>, other: seq<Bar>, m: Measures, horizon: nat, trainIndex: nat, validationIndex: nat)
    requires ValidBars(bars) && ValidBars(other) && trainIndex + horizon < validationIndex <= |bars| && validationIndex <= |other|
    requires bars[..validationIndex] == other[..validationIndex]
    ensures TargetAt(bars, trainIndex, horizon, m) == TargetAt(other, trainIndex, horizon, m)
  {
    hide ValidBars, TargetAt;
    SamePrefix(bars, other, validationIndex, trainIndex + horizon + 1);
    TargetIsLocal(bars, other, trainIndex, horizon, m);
  }

  lemma BuiltInPlace(bars: seq<Bar>, s: Study, features: seq<FeaturePoint>, targets: seq<TargetPoint>)
    requires Built(bars, s, features, targets)
    ensures InPlace(features, targets)
  {
    hide ValidBars, UpSpace, DownSpace, CausalMedian, ActivityRatios;
  }

  /** The examples of fewer targets begin those of more, and the others come later. */
  lemma {:induction false} EarlierExamples(s: Study, features: seq<FeaturePoint>, targets: seq<TargetPoint>, n: nat, k: nat)
    requires InPlace(features, targets) && k <= n <= |targets|
    ensures var few, many := ExamplesOf(features, targets, s.kind, s.encode, k), ExamplesOf(features, targets, s.kind, s.encode, n);
            |few| <= |many| && many[..|few|] == few && forall j :: |few| <= j < |many| ==> many[j].feature.index >= k
    decreases n
  {
    hide OutputOf;
    if k < n {
      EarlierExamples(s, features, targets, n - 1, k);
      var few, less := ExamplesOf(features, targets, s.kind, s.encode, k), ExamplesOf(features, targets, s.kind, s.encode, n - 1);
      var many := ExamplesOf(features, targets, s.kind, s.encode, n);
      assert targets[n - 1].index == n - 1;
      assert many[..|few|] == less[..|few|];
    }
  }

  /** Targets that end before an index yield the same examples whatever comes from it on. */
  lemma {:induction false} SameExamples(bars: seq<Bar>, other: seq<Bar>, s: Study, features: seq<FeaturePoint>, targets: seq<TargetPoint>,
                                        otherFeatures: seq<FeaturePoint>, otherTargets: seq<TargetPoint>, v: nat, n: nat)
    requires Built(bars, s, features, targets) && Built(other, s, otherFeatures, otherTargets)
    requires n + s.horizon <= v <= |bars| && v <= |other| && bars[..v] == other[..v]
    ensures n <= |targets| && n <= |otherTargets|
    ensures ExamplesOf(features, targets, s.kind, s.encode, n) == ExamplesOf(otherFeatures, otherTargets, s.kind, s.encode, n)
  {
    hide OutputOf, TargetAt, FeatureAt, ValidBars;
    if n > 0 {
      SameExamples(bars, other, s, features, targets, otherFeatures, otherTargets, v, n - 1);
      NoLeakage(bars, other, s.m, s.horizon, n - 1, v);
      SamePrefix(bars, other, v, n);
      FeatureIsCausal(bars, other, s.lookback, s.includeSequence, s.m, n - 1);
      TargetIndex(bars, s.horizon, s.m, n - 1);
    }
  }

  lemma TargetIndex(bars: seq<Bar>, horizon: nat, m: Measures, i: nat)
    requires ValidBars(bars) && i + horizon < |bars|
    ensures TargetAt(bars, i, horizon, m).index == i
  {
    hide ValidBars, UpSpace, DownSpace, CausalMedian;
  }

  /** How far the training slice of a fold reaches: it ends before the horizon in front of the first validation bar. */
  lemma SliceEnds(s: Study, features: seq<FeaturePoint>, targets: seq<TargetPoint>, slice: FoldSlice, fold: nat)
    requires InPlace(features, targets) && Purged(slice.window, fold, s.minimumTrain, s.horizon) && Selects(Examples(s, features, targets), slice)
    ensures slice.validation[0].feature.index < |targets|
    ensures var last := slice.window.trainEnd;
            Examples(s, features, targets)[last].feature.index + s.horizon < slice.validation[0].feature.index
  {
    hide ExamplesOf, OutputOf;
    var e := Examples(s, features, targets);
    ExamplesAscend(features, targets, s.kind, s.encode, |targets|);
    IndicesSpread(e, |targets|, slice.window.trainEnd, slice.window.validationStart);
  }

  /**
    No leakage in a whole fold: on two valid series that agree before the fold's first validation bar,
    and give equally many examples, the fold trains on the same slice: the same bars are selected, with
    the same features and the same targets.
   */
  lemma TrainingSliceIsCausal(bars: seq<Bar>, other: seq<Bar>, s: Study, features: seq<FeaturePoint>, targets: seq<TargetPoint>,
                              otherFeatures: seq<FeaturePoint>, otherTargets: seq<TargetPoint>,
                              slices: seq<FoldSlice>, otherSlices: seq<FoldSlice>, fold: nat)
    requires Built(bars, s, features, targets) && Built(other, s, otherFeatures, otherTargets)
    requires AreSlices(s, Examples(s, features, targets), slices) && AreSlices(s, Examples(s, otherFeatures, otherTargets), otherSlices)
    requires |Examples(s, features, targets)| == |Examples(s, otherFeatures, otherTargets)| && fold < |slices|
    requires |slices[fold].validation| > 0 && slices[fold].validation[0].feature.index <= |bars|
    requires slices[fold].validation[0].feature.index <= |other|
    requires var v := slices[fold].validation[0].feature.index; bars[..v] == other[..v]
    ensures slices[fold].window == otherSlices[fold].window && slices[fold].train == otherSlices[fold].train
  {
    hide Built, ExamplesOf, FoldAt;
    var slice := slices[fold];
    var v := slice.validation[0].feature.index;
    BuiltInPlace(bars, s, features, targets);
    BuiltInPlace(other, s, otherFeatures, otherTargets);
    SliceEnds(s, features, targets, slice, fold);
    var c := v - s.horizon;
    SameExamples(bars, other, s, features, targets, otherFeatures, otherTargets, v, c);
    EarlierExamples(s, features, targets, |targets|, c);
    EarlierExamples(s, otherFeatures, otherTargets, |otherTargets|, c);
    var few, e, o := ExamplesOf(features, targets, s.kind, s.encode, c), Examples(s, features, targets), Examples(s, otherFeatures, otherTargets);
    var n := slice.window.trainEnd + 1;
    assert n <= |few|;
    assert e[..n] == e[..|few|][..n] && o[..n] == o[..|few|][..n];
  }
}
