/**
  What a backtest reports (internal/backtestcore/sigmoiddca.go): money comes in once a month, and the
  path accounts for both portfolios from one point to the next by what came in, what trading cost and
  what price moves earned.
 */
module RunReports {
  import opened Wrappers
  import opened RealMath
  import opened Quant
  import opened Simulators
  import opened LongTermFilters
  import opened Backtest
  import opened BacktestRunner
  import opened BacktestCausality

  // ----- the order of the executed bars

  lemma {:induction false} IndicesAscend(spec: Spec, bars: seq<Bar>, n: nat, i: nat, j: nat)
    requires n <= |bars| && i < j < |ExecutableIndices(spec, bars, n)|
    ensures ExecutableIndices(spec, bars, n)[i] < ExecutableIndices(spec, bars, n)[j]
  {
    if j < |ExecutableIndices(spec, bars, n - 1)| {
      IndicesAscend(spec, bars, n - 1, i, j);
    } else {
      IndicesExecute(spec, bars, n - 1, i);
    }
  }

  ghost function TimeOf<S>(setting: Setting<S>, r: BarRecord<S>): int
    requires r.index < |setting.bars|
  {
    setting.bars[r.index].openTime
  }

  /** The records of a run, in time order, at executable bars. */
  ghost predicate InOrder<S>(setting: Setting<S>, trace: seq<BarRecord<S>>) {
    && Indexed(setting, trace)
    && (forall i :: 0 <= i < |trace| ==> Executable(setting.spec, setting.bars[trace[i].index]))
    && forall i, j :: 0 <= i < j < |trace| ==> TimeOf(setting, trace[i]) < TimeOf(setting, trace[j])
  }

  lemma RunsInOrder<S>(setting: Setting<S>, trace: seq<BarRecord<S>>, m: nat)
    requires Runs(setting, trace, m)
    ensures InOrder(setting, trace)
  {
    hide ValidTrace, ExecutableIndices, Executable;
    var indices := Indices(trace);
    forall i | 0 <= i < |trace| ensures trace[i].index < |setting.bars| && Executable(setting.spec, setting.bars[trace[i].index]) {
      IndicesExecute(setting.spec, setting.bars, m, i);
      assert trace[i].index == indices[i];
    }
    forall i, j | 0 <= i < j < |trace| ensures TimeOf(setting, trace[i]) < TimeOf(setting, trace[j]) {
      IndicesAscend(setting.spec, setting.bars, m, i, j);
      assert trace[i].index == indices[i] && trace[j].index == indices[j];
    }
  }

  lemma {:induction false} ExecutablesListed(spec: Spec, bars: seq<Bar>, n: nat, i: nat)
    requires n <= |bars| && i < n && Executable(spec, bars[i])
    ensures i in ExecutableIndices(spec, bars, n)
  {
    hide Executable;
    if i < n - 1 { ExecutablesListed(spec, bars, n - 1, i); }
  }

  /** A bar inside the run and, where the prefix is only history, inside the evaluation, with a close to trade at. */
  ghost predicate InRun(spec: Spec, bar: Bar) {
    && spec.startTime <= bar.openTime <= spec.endTime && bar.openTime <= spec.evaluationEnd && bar.close > 0.0
    && (spec.prefixMode == HistoryOnly ==> spec.evaluationStart <= bar.openTime)
  }

  /** A completed run executes every such bar, in order, and no other. */
  lemma RunCovers<S>(setting: Setting<S>, trace: seq<BarRecord<S>>, i: nat)
    requires Runs(setting, trace, |setting.bars|) && i < |setting.bars|
    ensures (exists k :: 0 <= k < |trace| && trace[k].index == i) <==> InRun(setting.spec, setting.bars[i])
  {
    hide RunOf, ExecutableIndices;
    var n, indices := |setting.bars|, Indices(trace);
    if k :| 0 <= k < |trace| && trace[k].index == i {
      IndicesExecute(setting.spec, setting.bars, n, k);
      assert indices[k] == i;
    }
    if InRun(setting.spec, setting.bars[i]) {
      ExecutablesListed(setting.spec, setting.bars, n, i);
      var k :| 0 <= k < |indices| && indices[k] == i;
      assert trace[k].index == i;
    }
  }

  // ----- contributions

  ghost function MonthAt<S>(setting: Setting<S>, trace: seq<BarRecord<S>>, k: nat): int
    requires k < |trace| && Indexed(setting, trace)
  {
    setting.monthOf(TimeOf(setting, trace[k]))
  }

  /** A bar pays exactly when it is not the first and lies in another month than the one before it. */
  lemma ContributionIs<S>(setting: Setting<S>, trace: seq<BarRecord<S>>, k: nat)
    requires RunOf(setting, trace) && Indexed(setting, trace) && k < |trace|
    ensures trace[k].contribution
         == if k > 0 && MonthAt(setting, trace, k) != MonthAt(setting, trace, k - 1) then setting.spec.monthlyContribution else 0.0
  {
    hide Trades, Observed, Executable, PrefixMemory, PrefixSignals;
    StepOf(setting, trace, k);
    if k > 0 { StepOf(setting, trace, k - 1); }
  }

  /** The first executed bar of the month of another one. */
  lemma {:induction false} FirstOfMonth<S>(setting: Setting<S>, trace: seq<BarRecord<S>>, k: nat) returns (j: nat)
    requires Indexed(setting, trace) && k < |trace|
    ensures j <= k && MonthAt(setting, trace, j) == MonthAt(setting, trace, k)
    ensures j > 0 ==> MonthAt(setting, trace, j - 1) != MonthAt(setting, trace, j)
    decreases k
  {
    if k > 0 && MonthAt(setting, trace, k - 1) == MonthAt(setting, trace, k) {
      j := FirstOfMonth(setting, trace, k - 1);
    } else {
      j := k;
    }
  }

  /**
    Where months follow time, every month of executed bars but the first is paid for on exactly one bar, its
    first, and the first month not at all.
   */
  lemma PaidOnceAMonth<S>(setting: Setting<S>, trace: seq<BarRecord<S>>, m: nat, k: nat) returns (j: nat)
    requires Runs(setting, trace, m) && k < |trace| && setting.spec.monthlyContribution > 0.0
    requires forall s, t :: s <= t ==> setting.monthOf(s) <= setting.monthOf(t)
    ensures Indexed(setting, trace) && j < |trace| && MonthAt(setting, trace, j) == MonthAt(setting, trace, k)
    ensures forall i :: 0 <= i < |trace| && MonthAt(setting, trace, i) == MonthAt(setting, trace, k) ==>
              trace[i].contribution == if i == j && MonthAt(setting, trace, k) != MonthAt(setting, trace, 0) then setting.spec.monthlyContribution else 0.0
  {
    hide RunOf, Executable, ExecutableIndices, Indices;
    RunsInOrder(setting, trace, m);
    MonthsFollow(setting, trace);
    RunsAreRuns(setting, trace, m);
    j := FirstOfMonth(setting, trace, k);
    hide InOrder, MonthAt;
    forall i | 0 <= i < |trace| && MonthAt(setting, trace, i) == MonthAt(setting, trace, k)
      ensures trace[i].contribution == if i == j && MonthAt(setting, trace, k) != MonthAt(setting, trace, 0) then setting.spec.monthlyContribution else 0.0
    {
      ContributionIs(setting, trace, i);
      assert j > 0 ==> MonthAt(setting, trace, j - 1) < MonthAt(setting, trace, j);
      assert i > 0 ==> MonthAt(setting, trace, i - 1) <= MonthAt(setting, trace, i);
    }
  }

  /** Along a run in time order the months do not fall where months follow time. */
  lemma MonthsFollow<S>(setting: Setting<S>, trace: seq<BarRecord<S>>)
    requires InOrder(setting, trace) && forall s, t :: s <= t ==> setting.monthOf(s) <= setting.monthOf(t)
    ensures forall i, j :: 0 <= i <= j < |trace| ==> MonthAt(setting, trace, i) <= MonthAt(setting, trace, j)
  {
    hide Executable;
  }

  // ----- the path

  /** The point of one record. */
  ghost function PointFor<S>(setting: Setting<S>, r: BarRecord<S>): NavPoint
    requires r.index < |setting.bars|
  {
    PointOf(setting.bars[r.index], r.after.practical, r.after.filtered, r.after.riskOff, r.after.filter, OutcomeOf(r))
  }

  /** The path of the first n records is the points of those from the m-th on, where the evaluation starts. */
  ghost predicate StartsAt<S>(setting: Setting<S>, trace: seq<BarRecord<S>>, n: nat, m: nat, path: seq<NavPoint>)
    requires Indexed(setting, trace) && n <= |trace|
  {
    && m <= n && |path| == n - m
    && (forall i :: 0 <= i < n ==> (TimeOf(setting, trace[i]) >= setting.spec.evaluationStart <==> i >= m))
    && forall i :: 0 <= i < n - m ==> path[i] == PointFor(setting, trace[m + i])
  }

  lemma {:induction false} PathIsSuffix<S>(setting: Setting<S>, trace: seq<BarRecord<S>>, n: nat) returns (m: nat)
    requires InOrder(setting, trace) && n <= |trace|
    ensures Indexed(setting, trace[..n]) && StartsAt(setting, trace, n, m, PathOf(setting, trace[..n]))
  {
    hide StartsAt;
    if n == 0 {
      m := 0;
      EmptyPath(setting, trace);
    } else {
      var before := PathIsSuffix(setting, trace, n - 1);
      var r := trace[n - 1];
      assert trace[..n][..n - 1] == trace[..n - 1] && trace[..n][n - 1] == r;
      PathStep(setting, trace[..n]);
      EvaluatedIs(setting.spec, setting.bars[r.index]);
      m := if Evaluated(setting.spec, setting.bars[r.index]) then before else n;
      hide Evaluated, PathOf;
      SuffixGrows(setting, trace, n, before, PathOf(setting, trace[..n - 1]));
    }
  }

  lemma EmptyPath<S>(setting: Setting<S>, trace: seq<BarRecord<S>>)
    requires Indexed(setting, trace)
    ensures StartsAt(setting, trace, 0, 0, PathOf(setting, trace[..0]))
  {
  }

  lemma SuffixGrows<S>(setting: Setting<S>, trace: seq<BarRecord<S>>, n: nat, m: nat, path: seq<NavPoint>)
    requires InOrder(setting, trace) && 0 < n <= |trace| && StartsAt(setting, trace, n - 1, m, path)
    ensures if TimeOf(setting, trace[n - 1]) >= setting.spec.evaluationStart then StartsAt(setting, trace, n, m, path + [PointFor(setting, trace[n - 1])])
            else path == [] && StartsAt(setting, trace, n, n, path)
  {
    hide PointFor, Executable;
    assert n > 1 ==> TimeOf(setting, trace[n - 2]) < TimeOf(setting, trace[n - 1]);
  }

  lemma EvaluatedIs(spec: Spec, bar: Bar)
    requires Executable(spec, bar)
    ensures Evaluated(spec, bar) <==> bar.openTime >= spec.evaluationStart
  {
  }

  lemma PathStep<S>(setting: Setting<S>, trace: seq<BarRecord<S>>)
    requires Indexed(setting, trace) && |trace| > 0
    ensures var r := trace[|trace| - 1];
            PathOf(setting, trace)
            == PathOf(setting, trace[..|trace| - 1]) + if Evaluated(setting.spec, setting.bars[r.index]) then [PointFor(setting, r)] else []
  {
    hide PointOf, OutcomeOf, Evaluated;
  }

  /** One ledger from a point to the next. */
  ghost predicate Accounted(equity: real, quantity: real, price: real, laterEquity: real, laterQuantity: real, laterPrice: real,
                            paid: real, cost: real, tradePrice: real) {
    laterEquity == equity + paid - cost + Earned(quantity, laterQuantity, price, tradePrice, laterPrice)
  }

  /** What price moves earn: on the first quantity up to the trade, on the later one from it on. */
  ghost function Earned(quantity: real, laterQuantity: real, price: real, tradePrice: real, laterPrice: real): real {
    quantity * (tradePrice - price) + laterQuantity * (laterPrice - tradePrice)
  }

  /** What a portfolio is worth at a price. */
  ghost function Worth(p: Portfolio, price: real): real {
    p.usdt + (p.dead + p.floating + p.coldSealed) * price
  }

  /** What a point says of a portfolio. */
  ghost predicate Describes(point: NavPoint, bar: Bar, practical: Portfolio, filtered: Portfolio) {
    && point.time == bar.openTime && point.price == bar.close
    && point.totalEquity == Worth(filtered, bar.close)
    && point.cash == filtered.usdt && point.assetQuantity == filtered.dead + filtered.floating + filtered.coldSealed
    && point.practicalEquity == Worth(practical, bar.close)
    && point.practicalCash == practical.usdt && point.practicalAssetQuantity == practical.dead + practical.floating + practical.coldSealed
  }

  lemma PointDescribes<S>(setting: Setting<S>, r: BarRecord<S>)
    requires r.index < |setting.bars|
    ensures Describes(PointFor(setting, r), setting.bars[r.index], r.after.practical, r.after.filtered)
  {
    hide ActualExposure, Equity, Worth;
    var close := setting.bars[r.index].close;
    WorthIsEquity(r.after.practical, close);
    WorthIsEquity(r.after.filtered, close);
  }

  lemma WorthIsEquity(p: Portfolio, price: real)
    ensures Worth(p, price) == Equity(p, price)
  {
  }

  /** What a point says of the trades, the filter and the signals of its bar. */
  lemma PointReports<S>(setting: Setting<S>, r: BarRecord<S>)
    requires r.index < |setting.bars|
    ensures PointFor(setting, r).trades == r.filteredTrades && PointFor(setting, r).practicalTrades == r.practicalTrades
    ensures PointFor(setting, r).riskOff == r.after.riskOff && PointFor(setting, r).ready == r.after.filter.ready
    ensures PointFor(setting, r).currentSma == r.after.filter.currentSma && PointFor(setting, r).previousSma == r.after.filter.previousSma
    ensures PointFor(setting, r).signal == r.signal && PointFor(setting, r).event == r.event
  {
    hide ActualExposure, Equity;
  }

  /** The price a bar trades at. */
  ghost function TradePriceOf<S>(setting: Setting<S>, bar: Bar): real {
    if setting.spec.executionMode == CloseNextOpen then bar.open else bar.close
  }

  lemma RecordTradesAt<S>(setting: Setting<S>, trace: seq<BarRecord<S>>, k: nat)
    requires RunOf(setting, trace) && k < |trace|
    ensures trace[k].index < |setting.bars| && trace[k].tradePrice == TradePriceOf(setting, setting.bars[trace[k].index])
  {
    hide Trades, Observed, Executable, PrefixMemory, PrefixSignals;
    StepOf(setting, trace, k);
  }

  /** Two points around a record: both ledgers gain what came in, less costs, plus what price moves earned. */
  ghost predicate Neighbours<S>(setting: Setting<S>, r: BarRecord<S>, was: NavPoint, now: NavPoint)
    requires r.index < |setting.bars|
  {
    var paid, price := r.contribution, TradePriceOf(setting, setting.bars[r.index]);
    && Accounted(was.totalEquity, was.assetQuantity, was.price, now.totalEquity, now.assetQuantity, now.price,
                 paid, now.trades.costs.totalCost, price)
    && Accounted(was.practicalEquity, was.practicalAssetQuantity, was.price, now.practicalEquity, now.practicalAssetQuantity, now.price,
                 paid, now.practicalTrades.costs.totalCost, price)
  }

  /** Both ledgers of neighbouring records. */
  lemma RecordsBalance<S>(setting: Setting<S>, trace: seq<BarRecord<S>>, k: nat)
    requires RunOf(setting, trace) && Indexed(setting, trace) && 0 < k < |trace|
    ensures Neighbours(setting, trace[k], PointFor(setting, trace[k - 1]), PointFor(setting, trace[k]))
  {
    hide RunOf, Equity, PointFor, TradePriceOf, TotalAsset, Earned, NetGain, CloseOf;
    RunConserves(setting, trace, PracticalLedger, k - 1, k);
    RunConserves(setting, trace, FilteredLedger, k - 1, k);
    RecordTradesAt(setting, trace, k);
    OneGain(setting, trace, PracticalLedger, k);
    OneGain(setting, trace, FilteredLedger, k);
    PointReports(setting, trace[k]);
    PointEquity(setting, trace[k - 1]);
    PointEquity(setting, trace[k]);
  }

  lemma PointEquity<S>(setting: Setting<S>, r: BarRecord<S>)
    requires r.index < |setting.bars|
    ensures var p := PointFor(setting, r);
            && p.price == CloseOf(setting, r)
            && p.totalEquity == Equity(Held(r.after, FilteredLedger), CloseOf(setting, r)) && p.assetQuantity == TotalAsset(Held(r.after, FilteredLedger))
            && p.practicalEquity == Equity(Held(r.after, PracticalLedger), CloseOf(setting, r))
            && p.practicalAssetQuantity == TotalAsset(Held(r.after, PracticalLedger))
  {
    hide ActualExposure;
  }

  lemma GainIsEarned(before: Portfolio, after: Portfolio, lastClose: real, tradePrice: real, close: real)
    ensures PriceGain(before, after, lastClose, tradePrice, close) == Earned(TotalAsset(before), TotalAsset(after), lastClose, tradePrice, close)
  {
  }

  lemma OneGain<S>(setting: Setting<S>, trace: seq<BarRecord<S>>, ledger: Ledger, k: nat)
    requires Indexed(setting, trace) && 0 < k < |trace|
    ensures NetGain(setting, trace, ledger, k - 1, k)
         == trace[k].contribution - TradesOf(trace[k], ledger).costs.totalCost
          + Earned(TotalAsset(Held(trace[k - 1].after, ledger)), TotalAsset(Held(trace[k].after, ledger)),
                   CloseOf(setting, trace[k - 1]), trace[k].tradePrice, CloseOf(setting, trace[k]))
  {
    GainIsEarned(Held(trace[k - 1].after, ledger), Held(trace[k].after, ledger), CloseOf(setting, trace[k - 1]), trace[k].tradePrice, CloseOf(setting, trace[k]));
    hide PriceGain, Earned, TotalAsset;
    assert NetGain(setting, trace, ledger, k - 1, k - 1) == 0.0;
  }

  /**
    Every two neighbouring points of a reported path belong to neighbouring executed bars; they describe both
    portfolios there, and what each gained in between is what came in, less what its trades cost, plus
    what price moves earned on what it held.
   */
  lemma PathIsAccounted<S>(setting: Setting<S>, trace: seq<BarRecord<S>>, report: BacktestResult, i: nat) returns (k: nat)
    requires Accounts(setting, trace, |setting.bars|, Ok(report)) && 0 < i < |report.path|
    ensures 0 < k < |trace| && Indexed(setting, trace)
    ensures Describes(report.path[i], setting.bars[trace[k].index], trace[k].after.practical, trace[k].after.filtered)
    ensures Neighbours(setting, trace[k], report.path[i - 1], report.path[i])
  {
    hide Describes, Neighbours, PointFor, Runs, InOrder;
    var m := ReportedPath(setting, trace, report);
    k := m + i;
    assert report.path[i - 1] == PointFor(setting, trace[m + (i - 1)]);
    assert report.path[i] == PointFor(setting, trace[m + i]);
    RecordsBalance(setting, trace, k);
    PointDescribes(setting, trace[k]);
  }

  /** The reported path is the points of the last records. */
  lemma ReportedPath<S>(setting: Setting<S>, trace: seq<BarRecord<S>>, report: BacktestResult) returns (m: nat)
    requires Accounts(setting, trace, |setting.bars|, Ok(report))
    ensures RunOf(setting, trace) && Indexed(setting, trace) && m + |report.path| == |trace|
    ensures forall i :: 0 <= i < |report.path| ==> report.path[i] == PointFor(setting, trace[m + i])
  {
    hide Accounts, Runs, InOrder, PathOf, PointFor;
    Completed(setting, trace, report);
    RunsInOrder(setting, trace, |setting.bars|);
    RunsAreRuns(setting, trace, |setting.bars|);
    assert trace[..|trace|] == trace;
    m := PathIsSuffix(setting, trace, |trace|);
  }

  lemma RunsAreRuns<S>(setting: Setting<S>, trace: seq<BarRecord<S>>, m: nat)
    requires Runs(setting, trace, m)
    ensures RunOf(setting, trace)
  {
  }

  /** A record that paid after the start of the evaluation. */
  ghost predicate Pays<S>(setting: Setting<S>, r: BarRecord<S>, flow: Flow)
    requires r.index < |setting.bars|
  {
    flow == Flow(TimeOf(setting, r), r.contribution) && r.contribution > 0.0 && TimeOf(setting, r) > setting.spec.evaluationStart
  }

  /** The reported flows are exactly the contributions after the start of the evaluation. */
  lemma {:induction false} FlowsAreContributions<S>(setting: Setting<S>, trace: seq<BarRecord<S>>, flow: Flow)
    requires Indexed(setting, trace)
    ensures flow in FlowsOf(setting, trace) <==> exists k :: 0 <= k < |trace| && Pays(setting, trace[k], flow)
    decreases |trace|
  {
    if |trace| > 0 {
      var n := |trace| - 1;
      FlowsAreContributions(setting, trace[..n], flow);
      if k :| 0 <= k < |trace[..n]| && Pays(setting, trace[..n][k], flow) { assert trace[k] == trace[..n][k]; }
      if k :| 0 <= k < |trace| && Pays(setting, trace[k], flow) {
        if k < n { assert trace[..n][k] == trace[k]; }
      }
    }
  }

  /** The final assets of a report are what the two portfolios are worth after the last executed bar. */
  lemma ResultMeans<S>(setting: Setting<S>, trace: seq<BarRecord<S>>, report: BacktestResult)
    requires Accounts(setting, trace, |setting.bars|, Ok(report))
    ensures |trace| > 0 && Indexed(setting, trace) && |report.path| > 0
    ensures var last := trace[|trace| - 1];
            && report.finalAssets == Worth(last.after.filtered, setting.bars[last.index].close)
            && report.practicalFinalAssets == Worth(last.after.practical, setting.bars[last.index].close)
            && report.evaluationEnd == TimeOf(setting, last)
    ensures report.evaluationInitial == report.path[0].totalEquity
    ensures report.totalInjected == report.evaluationInitial + TotalFlow(report.cashFlows)
  {
    hide PointFor, PathOf, FlowsOf, TotalFlow, Runs, InOrder, Executable, ValidTrace, Worth;
    ReportedEnds(setting, trace, report);
    var m := ReportedPath(setting, trace, report);
    var n := |report.path|;
    assert report.path[n - 1] == PointFor(setting, trace[m + (n - 1)]);
    PointDescribes(setting, trace[|trace| - 1]);
  }

  /** The figures of a report are those of the ends of its path. */
  lemma ReportedEnds<S>(setting: Setting<S>, trace: seq<BarRecord<S>>, report: BacktestResult)
    requires Accounts(setting, trace, |setting.bars|, Ok(report))
    ensures var path, n := report.path, |report.path|;
            && n > 0 && report.evaluationInitial == path[0].totalEquity && report.totalInjected == path[0].totalEquity + TotalFlow(report.cashFlows)
            && report.finalAssets == path[n - 1].totalEquity && report.practicalFinalAssets == path[n - 1].practicalEquity
            && report.evaluationEnd == path[n - 1].time
  {
    hide ValidTrace, PathOf, FlowsOf, PathTrades, TotalFlow, ExecutableIndices;
  }
}
