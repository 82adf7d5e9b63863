/**
  No look-ahead in a backtest (internal/backtestcore/sigmoiddca.go): what a run does up to a bar is
  settled by the bars up to it and by the month of the next one, which tells whether the bar closes
  its month.
 */
module BacktestCausality {
  import opened Wrappers
  import opened Quant
  import opened Simulators
  import opened LongTermFilters
  import opened Backtest
  import opened BacktestRunner

  /** Two settings that cannot be told apart at bar k: equal up to it, and the next bars in the same month. */
  ghost predicate AgreeUpTo<S(!new)>(a: Setting<S>, b: Setting<S>, k: nat) {
    && a.spec == b.spec && a.initial == b.initial && a.monthOf == b.monthOf
    && k < |a.bars| && k < |b.bars| && (forall i :: 0 <= i <= k ==> a.bars[i] == b.bars[i])
    && (k + 1 < |a.bars| <==> k + 1 < |b.bars|)
    && (k + 1 < |a.bars| ==> a.monthOf(a.bars[k + 1].openTime) == b.monthOf(b.bars[k + 1].openTime))
    && forall i: nat, p, s :: i <= k ==> a.strategy(i, p, s) == b.strategy(i, p, s)
  }

  lemma AgreeBothWays<S(!new)>(a: Setting<S>, b: Setting<S>, k: nat)
    requires AgreeUpTo(a, b, k)
    ensures AgreeUpTo(b, a, k)
  {
  }

  lemma NoticedAgrees<S(!new)>(a: Setting<S>, b: Setting<S>, k: nat, m: FilterMemory, index: nat)
    requires AgreeUpTo(a, b, k) && index <= k
    ensures Noticed(a, m, index) == Noticed(b, m, index)
  {
    assert index < k ==> a.bars[index + 1] == b.bars[index + 1];
    assert ClosesMonth(a.bars, index, a.monthOf) == ClosesMonth(b.bars, index, b.monthOf);
  }

  /** What follows in one setting follows in the other. */
  lemma FollowsAgrees<S(!new)>(a: Setting<S>, b: Setting<S>, k: nat, before: Standing<S>, r: BarRecord<S>)
    requires AgreeUpTo(a, b, k) && Follows(a, before, r) && r.index <= k
    ensures Follows(b, before, r)
  {
    hide Observed, PracticalStep, FilteredStep, ActualExposure, Executable, HasAdjustment;
    NoticedAgrees(a, b, k, before.filter, r.index);
    assert a.bars[r.index] == b.bars[r.index];
  }

  lemma {:induction false} PrefixAgrees<S(!new)>(a: Setting<S>, b: Setting<S>, k: nat, n: nat)
    requires AgreeUpTo(a, b, k) && n <= k + 1
    ensures PrefixMemory(a, n) == PrefixMemory(b, n) && PrefixSignals(a, n) == PrefixSignals(b, n)
  {
    hide Noticed, PrefixBar;
    if n > 0 {
      PrefixAgrees(a, b, k, n - 1);
      NoticedAgrees(a, b, k, PrefixMemory(a, n - 1), n - 1);
      assert a.bars[n - 1] == b.bars[n - 1];
    }
  }

  /** A run that executes a bar up to k starts from the same standing in both settings. */
  lemma StartAgrees<S(!new)>(a: Setting<S>, b: Setting<S>, k: nat, first: nat)
    requires AgreeUpTo(a, b, k) && NormalSpec(a.spec, a.bars) && NormalSpec(b.spec, b.bars)
    requires first <= k && Executable(a.spec, a.bars[first])
    ensures StartStanding(a, |a.bars|) == StartStanding(b, |b.bars|)
  {
    hide Executable, PrefixBar, PrefixMemory, PrefixSignals;
    assert a.bars[first] == b.bars[first];
    PrefixEnds(a, first);
    PrefixEnds(b, first);
    StartSettles(a, first, |a.bars|);
    StartSettles(b, first, |b.bars|);
    PrefixAgrees(a, b, k, first);
  }

  // ----- executed bars

  lemma {:induction false} IndicesAgree<S(!new)>(a: Setting<S>, b: Setting<S>, k: nat, n: nat)
    requires AgreeUpTo(a, b, k) && n <= k + 1
    ensures ExecutableIndices(a.spec, a.bars, n) == ExecutableIndices(b.spec, b.bars, n)
  {
    hide Executable;
    if n > 0 {
      IndicesAgree(a, b, k, n - 1);
      assert a.bars[n - 1] == b.bars[n - 1];
    }
  }

  lemma {:induction false} EarlierIndices(spec: Spec, bars: seq<Bar>, n: nat, m: nat)
    requires n <= m <= |bars|
    ensures var few, many := ExecutableIndices(spec, bars, n), ExecutableIndices(spec, bars, m);
            |few| <= |many| && many[..|few|] == few && forall j :: |few| <= j < |many| ==> n <= many[j] < m
    decreases m
  {
    hide Executable;
    if n < m {
      EarlierIndices(spec, bars, n, m - 1);
      var few, less, many := ExecutableIndices(spec, bars, n), ExecutableIndices(spec, bars, m - 1), ExecutableIndices(spec, bars, m);
      assert many[..|few|] == less[..|few|];
    }
  }

  lemma {:induction false} IndicesExecute(spec: Spec, bars: seq<Bar>, n: nat, j: nat)
    requires n <= |bars| && j < |ExecutableIndices(spec, bars, n)|
    ensures ExecutableIndices(spec, bars, n)[j] < n && Executable(spec, bars[ExecutableIndices(spec, bars, n)[j]])
  {
    if j < |ExecutableIndices(spec, bars, n - 1)| { IndicesExecute(spec, bars, n - 1, j); }
  }

  /** The records of a trace that executes the bars below m. */
  ghost predicate Runs<S>(setting: Setting<S>, trace: seq<BarRecord<S>>, m: nat) {
    m <= |setting.bars| && RunOf(setting, trace) && Indices(trace) == ExecutableIndices(setting.spec, setting.bars, m)
  }

  lemma RecordIndex<S>(setting: Setting<S>, trace: seq<BarRecord<S>>, m: nat, q: nat, j: nat)
    requires Runs(setting, trace, m) && q <= m && j < |ExecutableIndices(setting.spec, setting.bars, q)|
    ensures j < |trace| && trace[j].index == ExecutableIndices(setting.spec, setting.bars, q)[j] < q
    ensures Executable(setting.spec, setting.bars[trace[j].index])
  {
    hide RunOf, Executable;
    var few := ExecutableIndices(setting.spec, setting.bars, q);
    EarlierIndices(setting.spec, setting.bars, q, m);
    IndicesExecute(setting.spec, setting.bars, q, j);
    assert |Indices(trace)| == |trace|;
    assert Indices(trace)[j] == Indices(trace)[..|few|][j];
  }

  /** The first j records of two runs that both execute the bars below q are the same. */
  lemma {:induction false} SameRecords<S(!new)>(a: Setting<S>, b: Setting<S>, k: nat, one: seq<BarRecord<S>>, two: seq<BarRecord<S>>, m: nat, l: nat, q: nat, j: nat)
    requires AgreeUpTo(a, b, k) && Runs(a, one, m) && Runs(b, two, l) && q <= m && q <= l && q <= k + 1
    requires j <= |ExecutableIndices(a.spec, a.bars, q)|
    ensures j <= |one| && j <= |two| && one[..j] == two[..j]
  {
    hide Follows, AgreeUpTo, Executable, ExecutableIndices, Indices, RunOf, At;
    if j > 0 {
      SameRecords(a, b, k, one, two, m, l, q, j - 1);
      IndicesAgree(a, b, k, q);
      RecordIndex(a, one, m, q, j - 1);
      RecordIndex(b, two, l, q, j - 1);
      SameStanding(a, b, k, one, two, j - 1, one[j - 1].index);
      StepOf(a, one, j - 1);
      StepOf(b, two, j - 1);
      FollowsAgrees(a, b, k, At(a, one, j - 1), one[j - 1]);
      OnlyOneFollows(b, At(b, two, j - 1), one[j - 1], two[j - 1]);
      assert one[..j] == one[..j - 1] + [one[j - 1]] && two[..j] == two[..j - 1] + [two[j - 1]];
    }
  }

  /** After the same records, and with a bar still to be executed, both runs stand alike. */
  lemma SameStanding<S(!new)>(a: Setting<S>, b: Setting<S>, k: nat, one: seq<BarRecord<S>>, two: seq<BarRecord<S>>, j: nat, next: nat)
    requires AgreeUpTo(a, b, k) && RunOf(a, one) && RunOf(b, two)
    requires j <= |one| && j <= |two| && one[..j] == two[..j]
    requires next <= k && next < |a.bars| && Executable(a.spec, a.bars[next])
    ensures At(a, one, j) == At(b, two, j)
  {
    hide AgreeUpTo, Executable, ValidTrace, PrefixMemory, PrefixSignals;
    if j == 0 {
      StartAgrees(a, b, k, next);
    } else {
      assert one[j - 1] == one[..j][j - 1] == two[j - 1];
    }
  }

  // ----- no look-ahead

  /**
    Two runs in settings that agree up to bar k have the same records there: nothing that was traded,
    decided or carried over depends on what comes later.
   */
  lemma RunIsCausal<S(!new)>(a: Setting<S>, b: Setting<S>, k: nat, one: seq<BarRecord<S>>, two: seq<BarRecord<S>>, m: nat, l: nat) returns (n: nat)
    requires AgreeUpTo(a, b, k) && Runs(a, one, m) && Runs(b, two, l) && k < m && k < l
    ensures n <= |one| && n <= |two| && one[..n] == two[..n]
    ensures forall j :: 0 <= j < n ==> one[j].index <= k
    ensures forall j :: n <= j < |one| ==> one[j].index > k
    ensures forall j :: n <= j < |two| ==> two[j].index > k
  {
    hide AgreeUpTo, RunOf, ExecutableIndices;
    n := |ExecutableIndices(a.spec, a.bars, k + 1)|;
    BarsExist(a, b, k);
    SameRecords(a, b, k, one, two, m, l, k + 1, n);
    IndicesAgree(a, b, k, k + 1);
    forall j | 0 <= j < n ensures one[j].index <= k { RecordIndex(a, one, m, k + 1, j); }
    LaterIndices(a, one, m, k);
    LaterIndices(b, two, l, k);
  }

  lemma BarsExist<S(!new)>(a: Setting<S>, b: Setting<S>, k: nat)
    requires AgreeUpTo(a, b, k)
    ensures k < |a.bars| && k < |b.bars|
  {
  }

  lemma LaterIndices<S>(setting: Setting<S>, trace: seq<BarRecord<S>>, m: nat, k: nat)
    requires Runs(setting, trace, m) && k < m
    ensures forall j :: |ExecutableIndices(setting.spec, setting.bars, k + 1)| <= j < |trace| ==> trace[j].index > k
  {
    hide RunOf;
    EarlierIndices(setting.spec, setting.bars, k + 1, m);
    forall j | |ExecutableIndices(setting.spec, setting.bars, k + 1)| <= j < |trace| ensures trace[j].index > k {
      assert trace[j].index == Indices(trace)[j];
    }
  }

  // ----- runs that stop

  /** A bar at which a run fails is followed by no record. */
  lemma FailureBlocks<S>(setting: Setting<S>, before: Standing<S>, index: nat, error: BacktestError, r: BarRecord<S>)
    requires index < |setting.bars| && Fails(setting, before, index, error) && r.index == index
    ensures !Follows(setting, before, r)
  {
    hide PracticalStep, FilteredStep, ActualExposure, Executable, Observed, HasAdjustment;
  }

  lemma FailsAgrees<S(!new)>(a: Setting<S>, b: Setting<S>, k: nat, before: Standing<S>, index: nat, error: BacktestError)
    requires AgreeUpTo(a, b, k) && index <= k && Fails(a, before, index, error)
    ensures Fails(b, before, index, error)
  {
    hide PracticalStep, HasAdjustment;
    assert a.bars[index] == b.bars[index];
  }

  lemma FailsOnce<S>(setting: Setting<S>, before: Standing<S>, index: nat, one: BacktestError, two: BacktestError)
    requires index < |setting.bars| && Fails(setting, before, index, one) && Fails(setting, before, index, two)
    ensures one == two
  {
    hide PracticalStep, HasAdjustment;
  }

  /** A run that failed at bar s after executing the bars before it. */
  ghost predicate FailedAt<S>(setting: Setting<S>, trace: seq<BarRecord<S>>, s: nat, error: BacktestError) {
    && Runs(setting, trace, s) && s < |setting.bars| && Executable(setting.spec, setting.bars[s])
    && Fails(setting, At(setting, trace, |trace|), s, error)
  }

  lemma OneMoreIndex(spec: Spec, bars: seq<Bar>, s: nat)
    requires s < |bars| && Executable(spec, bars[s])
    ensures ExecutableIndices(spec, bars, s + 1) == ExecutableIndices(spec, bars, s) + [s]
  {
  }

  /** Where one run failed, the other does not go on. */
  lemma CannotGoOn<S(!new)>(a: Setting<S>, b: Setting<S>, k: nat, one: seq<BarRecord<S>>, two: seq<BarRecord<S>>, s: nat, l: nat, error: BacktestError)
    requires AgreeUpTo(a, b, k) && FailedAt(a, one, s, error) && s <= k && Runs(b, two, l)
    ensures l <= s
  {
    hide AgreeUpTo, Fails, Follows, Executable, ExecutableIndices;
    if s < l {
      var n := |ExecutableIndices(a.spec, a.bars, s)|;
      assert |Indices(one)| == n == |one|;
      SameRecords(a, b, k, one, two, s, l, s, n);
      BarsAgree(a, b, k, s);
      IndicesAgree(a, b, k, s);
      OneMoreIndex(b.spec, b.bars, s);
      RecordIndex(b, two, l, s + 1, n);
      SameStanding(a, b, k, one, two, n, s);
      FailsAgrees(a, b, k, At(a, one, n), s, error);
      StepOf(b, two, n);
      FailureBlocks(b, At(b, two, n), s, error, two[n]);
    }
  }

  lemma BarsAgree<S(!new)>(a: Setting<S>, b: Setting<S>, k: nat, s: nat)
    requires AgreeUpTo(a, b, k) && s <= k
    ensures a.spec == b.spec && s < |a.bars| && s < |b.bars| && a.bars[s] == b.bars[s]
  {
  }

  /** Two runs that both fail up to bar k fail at the same bar and for the same reason. */
  lemma FailuresAgree<S(!new)>(a: Setting<S>, b: Setting<S>, k: nat, one: seq<BarRecord<S>>, two: seq<BarRecord<S>>, s: nat, t: nat,
                               error: BacktestError, other: BacktestError)
    requires AgreeUpTo(a, b, k) && s <= k && t <= k && FailedAt(a, one, s, error) && FailedAt(b, two, t, other)
    ensures s == t && error == other
  {
    hide AgreeUpTo, Fails, Follows, Executable, ExecutableIndices;
    AgreeBothWays(a, b, k);
    CannotGoOn(a, b, k, one, two, s, t, error);
    CannotGoOn(b, a, k, two, one, t, s, other);
    var n := |ExecutableIndices(a.spec, a.bars, s)|;
    IndicesAgree(a, b, k, s);
    assert |Indices(one)| == n == |one| && |Indices(two)| == |two|;
    SameRecords(a, b, k, one, two, s, s, s, n);
    SameStanding(a, b, k, one, two, n, s);
    FailsAgrees(a, b, k, At(a, one, n), s, error);
    FailsOnce(b, At(b, two, n), s, error, other);
  }

  /**
    A backtest that stops at a bar up to k stops at the same bar for the same reason on every market
    that agrees up to k.
   */
  lemma FailureIsCausal<S(!new)>(a: Setting<S>, b: Setting<S>, k: nat, one: seq<BarRecord<S>>, two: seq<BarRecord<S>>, s: nat, t: nat,
                                 error: BacktestError, result: Result<BacktestResult, BacktestError>)
    requires AgreeUpTo(a, b, k) && s <= k && error != NothingEvaluated
    requires Accounts(a, one, s, Err(error)) && Accounts(b, two, t, result)
    ensures result == Err(error) && s == t
  {
    hide AgreeUpTo, Fails, Follows, Executable, ExecutableIndices, Reports, PathOf, RunOf;
    CannotGoOn(a, b, k, one, two, s, t, error);
    BarsAgree(a, b, k, s);
    match result
    case Ok(_) =>
    case Err(other) =>
      FailuresAgree(a, b, k, one, two, s, t, error, other);
  }

  // ----- the reported path

  /** A path up to a time, and points after that time. */
  ghost predicate SplitsAt(path: seq<NavPoint>, n: nat, time: int) {
    && n <= |path| && (forall i :: 0 <= i < n ==> path[i].time <= time)
    && forall i :: n <= i < |path| ==> path[i].time > time
  }

  lemma {:induction false} PathSplits<S>(setting: Setting<S>, trace: seq<BarRecord<S>>, n: nat, k: nat)
    requires NormalSpec(setting.spec, setting.bars) && Indexed(setting, trace) && n <= |trace| && k < |setting.bars|
    requires forall j :: 0 <= j < n ==> trace[j].index <= k
    requires forall j :: n <= j < |trace| ==> trace[j].index > k
    ensures Indexed(setting, trace[..n])
    ensures var few, all := PathOf(setting, trace[..n]), PathOf(setting, trace);
            |few| <= |all| && all[..|few|] == few && SplitsAt(all, |few|, setting.bars[k].openTime)
    decreases |trace|
  {
    hide PointOf, Evaluated;
    if |trace| == 0 {
      assert trace[..n] == trace;
    } else {
      var last := |trace| - 1;
      PathSplits(setting, trace[..last], if n < |trace| then n else last, k);
      if n == |trace| {
        assert trace[..n] == trace && trace[..last][..last] == trace[..last];
      } else {
        assert trace[..last][..n] == trace[..n];
      }
      LastPoint(setting, trace, k);
    }
  }

  lemma LastPoint<S>(setting: Setting<S>, trace: seq<BarRecord<S>>, k: nat)
    requires NormalSpec(setting.spec, setting.bars) && Indexed(setting, trace) && |trace| > 0 && k < |setting.bars|
    ensures var all, r := PathOf(setting, trace), trace[|trace| - 1];
            var less := PathOf(setting, trace[..|trace| - 1]);
            all == less || (|all| == |less| + 1 && all[..|less|] == less && (all[|less|].time <= setting.bars[k].openTime <==> r.index <= k))
  {
    var r := trace[|trace| - 1];
    assert r.index < k ==> setting.bars[r.index].openTime < setting.bars[k].openTime;
    assert k < r.index ==> setting.bars[k].openTime < setting.bars[r.index].openTime;
  }

  lemma {:induction false} PathAgrees<S(!new)>(a: Setting<S>, b: Setting<S>, k: nat, trace: seq<BarRecord<S>>)
    requires AgreeUpTo(a, b, k) && Indexed(a, trace) && Indexed(b, trace)
    requires forall j :: 0 <= j < |trace| ==> trace[j].index <= k
    ensures PathOf(a, trace) == PathOf(b, trace)
    decreases |trace|
  {
    hide PointOf, Evaluated;
    if |trace| > 0 {
      PathAgrees(a, b, k, trace[..|trace| - 1]);
      BarsAgree(a, b, k, trace[|trace| - 1].index);
    }
  }

  /**
    The path that a completed backtest reports up to the time of bar k is the same on every market that
    agrees up to k.
   */
  lemma PathIsCausal<S(!new)>(a: Setting<S>, b: Setting<S>, k: nat, one: seq<BarRecord<S>>, two: seq<BarRecord<S>>,
                              first: BacktestResult, second: BacktestResult) returns (n: nat)
    requires AgreeUpTo(a, b, k)
    requires Accounts(a, one, |a.bars|, Ok(first)) && Accounts(b, two, |b.bars|, Ok(second))
    ensures SplitsAt(first.path, n, a.bars[k].openTime) && SplitsAt(second.path, n, a.bars[k].openTime)
    ensures first.path[..n] == second.path[..n]
  {
    hide AgreeUpTo, Accounts, Runs, PathOf, SplitsAt, NormalSpec, Indexed;
    BarsExist(a, b, k);
    BarsAgree(a, b, k, k);
    Completed(a, one, first);
    Completed(b, two, second);
    var j := RunIsCausal(a, b, k, one, two, |a.bars|, |b.bars|);
    PathSplits(a, one, j, k);
    PathSplits(b, two, j, k);
    PathAgrees(a, b, k, one[..j]);
    n := |PathOf(a, one[..j])|;
    SplitsWithin(first.path, n, a.bars[k].openTime);
  }

  lemma Completed<S>(setting: Setting<S>, trace: seq<BarRecord<S>>, report: BacktestResult)
    requires Accounts(setting, trace, |setting.bars|, Ok(report))
    ensures Runs(setting, trace, |setting.bars|) && NormalSpec(setting.spec, setting.bars)
    ensures Indexed(setting, trace) && report.path == PathOf(setting, trace)
  {
    hide ValidTrace, ExecutableIndices, PathOf, FlowsOf, PathTrades, TotalFlow;
  }

  lemma SplitsWithin(path: seq<NavPoint>, n: nat, time: int)
    requires SplitsAt(path, n, time)
    ensures n <= |path|
  {
  }
}
