/**
  The loop that drives a backtest (internal/backtestcore/sigmoiddca.go, RunSigmoidDCA): two
  simulators, the filter and the pending orders as mutable state, proved to produce a run in the
  sense of Backtest and to report what that run did.
 */
module BacktestRunner {
  import opened Wrappers
  import opened Quant
  import opened Simulators
  import opened LongTermFilters
  import opened Backtest

  /** What one executed bar reports to the path. */
  datatype BarOutcome = BarOutcome(contribution: real, event: Signal, signal: Signal, practicalTrades: TradeSummary, filteredTrades: TradeSummary)

  datatype NavPoint = NavPoint(time: int, price: real, totalEquity: real, cash: real, assetQuantity: real, exposure: real,
                               practicalEquity: real, practicalCash: real, practicalAssetQuantity: real, practicalExposure: real,
                               trades: TradeSummary, practicalTrades: TradeSummary,
                               ready: bool, riskOff: bool, currentSma: real, previousSma: real, signal: Signal, event: Signal)

  datatype Flow = Flow(time: int, amount: real)

  datatype BacktestResult = BacktestResult(path: seq<NavPoint>, cashFlows: seq<Flow>, evaluationInitial: real, totalInjected: real,
                                           finalAssets: real, practicalFinalAssets: real, evaluationStart: int, evaluationEnd: int,
                                           tradeCount: nat, costs: CostSummary, practicalTradeCount: nat, practicalCosts: CostSummary)

  // ----- what a run reports

  function PointOf(bar: Bar, practical: Portfolio, filtered: Portfolio, riskOff: bool, filter: FilterMemory, o: BarOutcome): NavPoint {
    NavPoint(bar.openTime, bar.close, Equity(filtered, bar.close), filtered.usdt, TotalAsset(filtered), ActualExposure(filtered, bar.close),
             Equity(practical, bar.close), practical.usdt, TotalAsset(practical), ActualExposure(practical, bar.close),
             o.filteredTrades, o.practicalTrades, filter.ready, riskOff, filter.currentSma, filter.previousSma, o.signal, o.event)
  }

  ghost function OutcomeOf<S>(r: BarRecord<S>): BarOutcome {
    BarOutcome(r.contribution, r.event, r.signal, r.practicalTrades, r.filteredTrades)
  }

  /** The path: one point for every executed bar inside the evaluation. */
  ghost function PathOf<S>(setting: Setting<S>, trace: seq<BarRecord<S>>): seq<NavPoint>
    requires Indexed(setting, trace)
  {
    if |trace| == 0 then []
    else
      var r := trace[|trace| - 1];
      var bar := setting.bars[r.index];
      PathOf(setting, trace[..|trace| - 1])
      + if Evaluated(setting.spec, bar) then [PointOf(bar, r.after.practical, r.after.filtered, r.after.riskOff, r.after.filter, OutcomeOf(r))] else []
  }

  /** The contributions made after the evaluation's first instant. */
  ghost function FlowsOf<S>(setting: Setting<S>, trace: seq<BarRecord<S>>): seq<Flow>
    requires Indexed(setting, trace)
  {
    if |trace| == 0 then []
    else
      var r := trace[|trace| - 1];
      var bar := setting.bars[r.index];
      FlowsOf(setting, trace[..|trace| - 1])
      + if r.contribution > 0.0 && bar.openTime > setting.spec.evaluationStart then [Flow(bar.openTime, r.contribution)] else []
  }

  ghost function TotalFlow(flows: seq<Flow>): real {
    if |flows| == 0 then 0.0 else TotalFlow(flows[..|flows| - 1]) + flows[|flows| - 1].amount
  }

  /** All trades of one ledger along a path, added up. */
  ghost function PathTrades(path: seq<NavPoint>, ledger: Ledger): TradeSummary {
    if |path| == 0 then NO_TRADE
    else
      var point := path[|path| - 1];
      AddTrades(PathTrades(path[..|path| - 1], ledger), if ledger == PracticalLedger then point.practicalTrades else point.trades)
  }

  /** The counts and costs a run reports are those of its path's points, for both ledgers. */
  ghost predicate Reports<S>(setting: Setting<S>, trace: seq<BarRecord<S>>, result: BacktestResult)
    requires Indexed(setting, trace)
  {
    var path, n := PathOf(setting, trace), |result.path|;
    && result.path == path && n > 0
    && result.cashFlows == FlowsOf(setting, trace)
    && result.evaluationInitial == path[0].totalEquity
    && result.totalInjected == path[0].totalEquity + TotalFlow(result.cashFlows)
    && result.finalAssets == path[n - 1].totalEquity && result.practicalFinalAssets == path[n - 1].practicalEquity
    && result.evaluationStart == path[0].time && result.evaluationEnd == path[n - 1].time
    && result.tradeCount == PathTrades(path, FilteredLedger).tradeCount && result.costs == PathTrades(path, FilteredLedger).costs
    && result.practicalTradeCount == PathTrades(path, PracticalLedger).tradeCount
    && result.practicalCosts == PathTrades(path, PracticalLedger).costs
  }

  /** Why a run stops at a bar: an open that cannot be traded at, or no parameters for the strategy. */
  ghost predicate Fails<S>(setting: Setting<S>, before: Standing<S>, index: nat, error: BacktestError)
    requires index < |setting.bars|
  {
    var bar, next := setting.bars[index], setting.spec.executionMode == CloseNextOpen;
    var contribution := MonthlyContribution(setting, before.lastTime, bar.openTime);
    var funded := AddCash(before.practical, contribution);
    var blocked := next && MustTrade(before, contribution > 0.0) && bar.open <= 0.0;
    var seen := if next then PracticalStep(funded, setting.spec.simulator, OrdersOf(before.pendingOutput), bar.open).portfolio else funded;
    match error
    case InvalidOpen(time) => time == bar.openTime && blocked
    case ParametersUnavailable(time) => time == bar.openTime && !blocked && setting.strategy(index, seen, before.state).Unavailable?
    case NothingEvaluated => false
  }

  lemma FailureHasACause<S>(setting: Setting<S>, before: Standing<S>, index: nat, error: BacktestError)
    requires index < |setting.bars| && Fails(setting, before, index, error)
    ensures error != NothingEvaluated
  {
  }

  // ----- the mutable state of a run

  ghost function Funded<S>(before: Standing<S>, contribution: real): Standing<S> {
    before.(practical := AddCash(before.practical, contribution), filtered := AddCash(before.filtered, contribution))
  }

  ghost function NewRecord<S>(index: nat, o: BarOutcome, tradePrice: real, output: StrategyOutput, after: Standing<S>): BarRecord<S> {
    BarRecord(index, o.contribution, tradePrice, o.event, o.signal, o.practicalTrades, o.filteredTrades, output, after)
  }

  /** What trading at the open leaves: both portfolios traded, flags moved, nothing pending. */
  ghost predicate TradedAtOpen<S>(setting: Setting<S>, before: Standing<S>, contribution: real, open: real,
                                  trades: (TradeSummary, TradeSummary), after: Standing<S>) {
    var c, orders := setting.spec.simulator, OrdersOf(before.pendingOutput);
    && Outcome(after.practical, trades.0) == PracticalStep(AddCash(before.practical, contribution), c, orders, open)
    && Outcome(after.filtered, trades.1)
       == FilteredStep(AddCash(before.filtered, contribution), c, ActualExposure(after.practical, open), before.riskOff, before.diverged,
                       orders, before.pendingSignal, contribution > 0.0, open)
    && after == before.(practical := after.practical, filtered := after.filtered, riskOff := NextRisk(before.riskOff, before.pendingSignal),
                        diverged := before.diverged || before.pendingSignal != Quiet, pendingOutput := None, pendingSignal := Quiet)
  }

  /** With nothing to execute both portfolios stay as they are. */
  lemma MissedTrade<S>(setting: Setting<S>, before: Standing<S>, contribution: real, price: real, p: Portfolio, f: Portfolio)
    requires !MustTrade(before, contribution > 0.0)
    ensures PracticalStep(p, setting.spec.simulator, OrdersOf(before.pendingOutput), price) == Outcome(p, NO_TRADE)
    ensures FilteredStep(f, setting.spec.simulator, ActualExposure(p, price), before.riskOff, before.diverged, OrdersOf(before.pendingOutput),
                         before.pendingSignal, contribution > 0.0, price) == Outcome(f, NO_TRADE)
  {
    hide Executed, ActualExposure;
    NothingExecuted(f, setting.spec.simulator, price);
  }

  class Runner<S(!new)> {
    const setting: Setting<S>
    const practical: Simulator
    const filtered: Simulator
    const filter: LongTermFilter
    var riskOff: bool
    var diverged: bool
    var pendingSignal: Signal
    var pendingOutput: Option<StrategyOutput>
    var state: S
    var lastMonth: int
    var runStarted: bool
    var historyOnlyStarted: bool
    ghost var lastTime: Option<int>

    ghost predicate Wired()
      reads this, filter
    {
      && practical != filtered
      && practical.config == filtered.config == setting.spec.simulator && NormalConfig(setting.spec.simulator)
      && filter.config == setting.spec.filter && filter.monthOf == setting.monthOf
    }

    /** Once a bar has been executed the run has started, and with it what follows a history prefix. */
    ghost predicate Started()
      reads this
    {
      && (lastTime.None? ==> !historyOnlyStarted && (setting.spec.prefixMode == ExecutePrefix ==> !runStarted))
      && (lastTime.Some? ==> runStarted && (setting.spec.prefixMode == HistoryOnly ==> historyOnlyStarted))
    }

    /** The stored month is that of the last executed bar, wherever it matters. */
    ghost predicate Valid()
      reads this, filter
    {
      && Wired() && Started()
      && (lastTime.Some? && setting.spec.monthlyContribution > 0.0 ==> lastMonth == setting.monthOf(lastTime.value))
    }

    ghost function Now(): Standing<S>
      reads this, practical, filtered, filter
    {
      Standing(practical.portfolio, filtered.portfolio, riskOff, diverged, filter.Memory(), pendingSignal, pendingOutput, state, lastTime)
    }

    constructor (setting: Setting<S>)
      requires NormalSpec(setting.spec, setting.bars)
      ensures Valid() && fresh(practical) && fresh(filtered) && fresh(filter)
      ensures this.setting == setting && Now() == StartStanding(setting, 0)
    {
      var spec := setting.spec;
      this.setting := setting;
      practical := new Simulator(spec.initialCapital, spec.initialAsset, spec.simulator);
      filtered := new Simulator(spec.initialCapital, spec.initialAsset, spec.simulator);
      filter := new LongTermFilter(spec.filter, setting.monthOf);
      riskOff, diverged, pendingSignal, pendingOutput, state := false, false, Quiet, None, setting.initial;
      lastMonth, runStarted, historyOnlyStarted, lastTime := 0, false, false, None;
    }

    /** The filter looks at a bar of the history prefix; its last signal stays pending. */
    method ObserveHistory(index: nat)
      requires Wired() && index < |setting.bars|
      modifies this`pendingSignal, filter
      ensures Wired()
      ensures filter.Memory() == Noticed(setting, old(filter.Memory()), index)
      ensures var signal := ChangeSignal(old(filter.Memory()).riskOff, filter.Memory().riskOff);
              Now() == old(Now()).(filter := filter.Memory(), pendingSignal := if signal == Quiet then old(pendingSignal) else signal)
    {
      var observation := filter.Observe(index, setting.bars);
      if observation.signal != Quiet {
        pendingSignal := observation.signal;
      }
    }

    /** Pays the monthly contribution into both portfolios when the month has changed. */
    method ContributeMonthly(index: nat) returns (contribution: real)
      requires Wired() && index < |setting.bars| && setting.spec.monthlyContribution >= 0.0
      requires lastTime.Some? && setting.spec.monthlyContribution > 0.0 ==> lastMonth == setting.monthOf(lastTime.value)
      requires lastTime.None? ==> lastMonth == setting.monthOf(setting.bars[index].openTime)
      requires index == 0 ==> lastTime.None?
      modifies this`lastMonth, practical, filtered
      ensures Wired()
      ensures contribution == MonthlyContribution(setting, lastTime, setting.bars[index].openTime)
      ensures setting.spec.monthlyContribution > 0.0 ==> lastMonth == setting.monthOf(setting.bars[index].openTime)
      ensures practical.portfolio == AddCash(old(practical.portfolio), contribution)
      ensures filtered.portfolio == AddCash(old(filtered.portfolio), contribution)
    {
      contribution := 0.0;
      var month := setting.monthOf(setting.bars[index].openTime);
      if index > 0 && month != lastMonth && setting.spec.monthlyContribution > 0.0 {
        practical.Contribute(setting.spec.monthlyContribution);
        filtered.Contribute(setting.spec.monthlyContribution);
        contribution := setting.spec.monthlyContribution;
        lastMonth := month;
      }
    }

    /** Executes what is pending at the bar's open, if anything is. */
    method TradeAtOpen(open: real, contribution: real, ghost before: Standing<S>) returns (trades: Option<(TradeSummary, TradeSummary)>)
      requires Wired() && Now() == Funded(before, contribution)
      modifies this`riskOff, this`diverged, this`pendingSignal, this`pendingOutput, practical, filtered
      ensures trades.None? <==> MustTrade(before, contribution > 0.0) && open <= 0.0
      ensures trades.Some? ==> TradedAtOpen(setting, before, contribution, open, trades.value, Now())
    {
      hide PracticalStep, FilteredStep, ActualExposure, HasAdjustment, OrdersOf;
      if !(pendingOutput.Some? || pendingSignal != Quiet || (diverged && !riskOff && contribution > 0.0)) {
        MissedTrade(setting, before, contribution, open, practical.portfolio, filtered.portfolio);
        return Some((NO_TRADE, NO_TRADE));
      }
      if open <= 0.0 {
        return None;
      }
      var event := pendingSignal;
      var practicalTrades, filteredTrades :=
        TradeBoth(practical, filtered, riskOff, diverged, OrdersOf(pendingOutput), event, contribution > 0.0, open);
      riskOff, diverged := NextRisk(riskOff, event), diverged || event != Quiet;
      pendingOutput, pendingSignal := None, Quiet;
      trades := Some((practicalTrades, filteredTrades));
    }

    /** Execution one bar later: pending orders and signal at the open, then the new decision. */
    method StepNextOpen(index: nat, contribution: real, ghost before: Standing<S>)
      returns (r: Result<BarOutcome, BacktestError>, ghost record: BarRecord<S>)
      requires Wired() && index < |setting.bars|
      requires Now() == Funded(before, contribution) && setting.spec.executionMode == CloseNextOpen
      requires contribution == MonthlyContribution(setting, before.lastTime, setting.bars[index].openTime)
      modifies this`riskOff, this`diverged, this`pendingSignal, this`pendingOutput, this`state, practical, filtered, filter
      ensures Wired()
      ensures r.Ok? ==> record == NewRecord(index, r.value, setting.bars[index].open, record.output, Now())
      ensures r.Ok? ==> FollowsNextOpen(setting, before, record) && FlagsMove(CloseNextOpen, before, record)
      ensures r.Ok? ==> r.value.contribution == contribution && filter.Memory() == Noticed(setting, before.filter, index)
      ensures r.Err? ==> Fails(setting, before, index, r.error)
    {
      hide PracticalStep, FilteredStep, ActualExposure, HasAdjustment, Observed, OrdersOf;
      var bar := setting.bars[index];
      var event := pendingSignal;
      record := NewRecord(index, BarOutcome(contribution, event, Quiet, NO_TRADE, NO_TRADE), bar.open, NO_OUTPUT, before);
      var trades := TradeAtOpen(bar.open, contribution, before);
      if trades.None? {
        r := Err(InvalidOpen(bar.openTime));
        return;
      }
      match setting.strategy(index, practical.portfolio, state) {
        case Unavailable =>
          r := Err(ParametersUnavailable(bar.openTime));
        case Decided(output, next) =>
          state := next;
          var observation := filter.Observe(index, setting.bars);
          pendingOutput := Some(output);
          if observation.signal != Quiet {
            pendingSignal := observation.signal;
          }
          var outcome := BarOutcome(contribution, event, observation.signal, trades.value.0, trades.value.1);
          r := Ok(outcome);
          record := NewRecord(index, outcome, bar.open, output, Now());
      }
    }

    /** Execution on the same bar: the decision first, then orders and signal at the close. */
    method StepSameBar(index: nat, contribution: real, ghost before: Standing<S>)
      returns (r: Result<BarOutcome, BacktestError>, ghost record: BarRecord<S>)
      requires Wired() && index < |setting.bars|
      requires Now() == Funded(before, contribution) && setting.spec.executionMode == CloseSameBar
      requires contribution == MonthlyContribution(setting, before.lastTime, setting.bars[index].openTime)
      modifies this`riskOff, this`diverged, this`state, practical, filtered, filter
      ensures Wired()
      ensures r.Ok? ==> record == NewRecord(index, r.value, setting.bars[index].close, record.output, Now())
      ensures r.Ok? ==> FollowsSameBar(setting, before, record) && FlagsMove(CloseSameBar, before, record)
      ensures r.Ok? ==> r.value.contribution == contribution && filter.Memory() == Noticed(setting, before.filter, index)
      ensures r.Err? ==> Fails(setting, before, index, r.error)
    {
      hide PracticalStep, FilteredStep, ActualExposure, HasAdjustment, Observed, OrdersOf;
      var bar := setting.bars[index];
      record := NewRecord(index, BarOutcome(contribution, Quiet, Quiet, NO_TRADE, NO_TRADE), bar.close, NO_OUTPUT, before);
      match setting.strategy(index, practical.portfolio, state) {
        case Unavailable =>
          r := Err(ParametersUnavailable(bar.openTime));
        case Decided(output, next) =>
          state := next;
          var observation := filter.Observe(index, setting.bars);
          var event := observation.signal;
          var practicalTrades, filteredTrades :=
            TradeBoth(practical, filtered, riskOff, diverged, OrdersOf(Some(output)), event, contribution > 0.0, bar.close);
          riskOff, diverged := NextRisk(riskOff, event), diverged || event != Quiet;
          var outcome := BarOutcome(contribution, event, event, practicalTrades, filteredTrades);
          r := Ok(outcome);
          record := NewRecord(index, outcome, bar.close, output, Now());
      }
    }

    /** One executed bar: contribution, trades, decision and observation. */
    method StepBar(index: nat) returns (r: Result<BarOutcome, BacktestError>, ghost record: BarRecord<S>)
      requires Wired() && NormalSpec(setting.spec, setting.bars)
      requires index < |setting.bars| && Executable(setting.spec, setting.bars[index])
      requires lastTime.Some? && setting.spec.monthlyContribution > 0.0 ==> lastMonth == setting.monthOf(lastTime.value)
      requires lastTime.None? ==> lastMonth == setting.monthOf(setting.bars[index].openTime)
      requires index == 0 ==> lastTime.None?
      modifies this, practical, filtered, filter
      ensures Wired() && runStarted == old(runStarted) && historyOnlyStarted == old(historyOnlyStarted)
      ensures r.Ok? ==> Follows(setting, old(Now()), record) && record.index == index && record.after == Now() && OutcomeOf(record) == r.value
      ensures r.Ok? ==> lastTime == Some(setting.bars[index].openTime)
      ensures r.Ok? && setting.spec.monthlyContribution > 0.0 ==> lastMonth == setting.monthOf(setting.bars[index].openTime)
      ensures r.Err? ==> Fails(setting, old(Now()), index, r.error)
    {
      hide FollowsNextOpen, FollowsSameBar, Fails, Observed, Executable;
      ghost var before := Now();
      var contribution := ContributeMonthly(index);
      if setting.spec.executionMode == CloseNextOpen {
        r, record := StepNextOpen(index, contribution, before);
      } else {
        r, record := StepSameBar(index, contribution, before);
      }
      if r.Ok? {
        ghost var unstamped := record;
        lastTime := Some(setting.bars[index].openTime);
        record := record.(after := Now());
        Stamped(setting, before, unstamped, record);
      }
    }

    /** One bar of the run: a bar of the history prefix is only observed, any other is executed. */
    method RunBar(index: nat) returns (r: Option<Result<BarOutcome, BacktestError>>, ghost record: BarRecord<S>)
      requires Valid() && NormalSpec(setting.spec, setting.bars)
      requires index < |setting.bars| && (index == 0 ==> lastTime.None?)
      requires if HistoryBar(setting.spec, setting.bars[index]) then lastTime.None? else Executable(setting.spec, setting.bars[index])
      modifies this, practical, filtered, filter
      ensures r.None? <==> HistoryBar(setting.spec, setting.bars[index])
      ensures r.None? ==> Valid() && filter.Memory() == Noticed(setting, old(filter.Memory()), index)
      ensures r.None? ==> var signal := ChangeSignal(old(filter.Memory()).riskOff, filter.Memory().riskOff);
                          Now() == old(Now()).(filter := filter.Memory(), pendingSignal := if signal == Quiet then old(pendingSignal) else signal)
      ensures r.Some? && r.value.Ok? ==> Valid() && Follows(setting, old(Now()), record) && record.index == index
                                         && record.after == Now() && OutcomeOf(record) == r.value.value
      ensures r.Some? && r.value.Ok? ==> lastTime == Some(setting.bars[index].openTime)
      ensures r.Some? && r.value.Err? ==> Fails(setting, old(Now()), index, r.value.error)
    {
      hide Follows, Fails, Observed, Executable, NormalSpec, OutcomeOf;
      ghost var before := Now();
      var month := setting.monthOf(setting.bars[index].openTime);
      if !runStarted {
        lastMonth := month;
        runStarted := true;
      }
      if HistoryBar(setting.spec, setting.bars[index]) {
        ObserveHistory(index);
        r, record := None, NewRecord(index, BarOutcome(0.0, Quiet, Quiet, NO_TRADE, NO_TRADE), 0.0, NO_OUTPUT, before);
        return;
      }
      if setting.spec.prefixMode == HistoryOnly && !historyOnlyStarted {
        lastMonth := month;
        historyOnlyStarted := true;
      }
      var outcome;
      outcome, record := StepBar(index);
      r := Some(outcome);
    }
  }

  /** When a bar is stamped has no part in what was traded. */
  lemma Stamped<S>(setting: Setting<S>, before: Standing<S>, r: BarRecord<S>, s: BarRecord<S>)
    requires s == r.(after := r.after.(lastTime := s.after.lastTime)) && r.index < |setting.bars|
    ensures FollowsNextOpen(setting, before, s) == FollowsNextOpen(setting, before, r)
    ensures FollowsSameBar(setting, before, s) == FollowsSameBar(setting, before, r)
    ensures FlagsMove(setting.spec.executionMode, before, s) == FlagsMove(setting.spec.executionMode, before, r)
  {
    hide PracticalStep, FilteredStep, ActualExposure;
  }

  // ----- the loop over the bars

  /** The path with the trade totals and the flows that the loop keeps beside it. */
  datatype Books = Books(path: seq<NavPoint>, tradeCount: nat, costs: CostSummary, practicalTradeCount: nat, practicalCosts: CostSummary,
                         flows: seq<Flow>, injected: real)

  const NO_BOOKS := Books([], 0, NO_COST, 0, NO_COST, [], 0.0)

  /** The totals of the books are those of their path. */
  ghost predicate Totalled(b: Books) {
    var filtered, practical := PathTrades(b.path, FilteredLedger), PathTrades(b.path, PracticalLedger);
    && b.tradeCount == filtered.tradeCount && b.costs == filtered.costs
    && b.practicalTradeCount == practical.tradeCount && b.practicalCosts == practical.costs
  }

  lemma OneMorePoint(path: seq<NavPoint>, point: NavPoint, ledger: Ledger)
    ensures PathTrades(path + [point], ledger)
         == AddTrades(PathTrades(path, ledger), if ledger == PracticalLedger then point.practicalTrades else point.trades)
  {
    hide AddTrades;
    assert (path + [point])[..|path|] == path;
  }

  lemma OneMoreFlow(flows: seq<Flow>, flow: Flow)
    ensures TotalFlow(flows + [flow]) == TotalFlow(flows) + flow.amount
  {
    assert (flows + [flow])[..|flows|] == flows;
  }

  /** Enters one evaluated bar into the books. */
  method AddPoint(b: Books, point: NavPoint) returns (c: Books)
    requires Totalled(b)
    ensures Totalled(c) && c.path == b.path + [point] && c.flows == b.flows && c.injected == b.injected
  {
    hide PathTrades;
    OneMorePoint(b.path, point, FilteredLedger);
    OneMorePoint(b.path, point, PracticalLedger);
    c := Books(b.path + [point], b.tradeCount + point.trades.tradeCount, AddCosts(b.costs, point.trades.costs),
               b.practicalTradeCount + point.practicalTrades.tradeCount, AddCosts(b.practicalCosts, point.practicalTrades.costs),
               b.flows, b.injected);
  }

  /** The books of a run: its path and flows, with their totals. */
  ghost predicate BooksOf<S>(setting: Setting<S>, trace: seq<BarRecord<S>>, b: Books)
    requires Indexed(setting, trace)
  {
    && b.path == PathOf(setting, trace) && Totalled(b)
    && b.flows == FlowsOf(setting, trace) && b.injected == TotalFlow(b.flows)
  }

  /** Enters one executed bar into the books: its contribution, and its point when it is evaluated. */
  method EnterBar<S>(setting: Setting<S>, b: Books, index: nat, o: BarOutcome, practical: Portfolio, filtered: Portfolio, riskOff: bool,
                     filter: FilterMemory, ghost trace: seq<BarRecord<S>>, ghost record: BarRecord<S>) returns (c: Books)
    requires Indexed(setting, trace) && BooksOf(setting, trace, b)
    requires index < |setting.bars| && record.index == index && OutcomeOf(record) == o
    requires record.after.practical == practical && record.after.filtered == filtered
    requires record.after.riskOff == riskOff && record.after.filter == filter
    ensures Indexed(setting, trace + [record]) && BooksOf(setting, trace + [record], c)
  {
    hide PathOf, FlowsOf, PathTrades, TotalFlow, PointOf, Evaluated, OutcomeOf;
    var bar := setting.bars[index];
    PathGrows(setting, trace, record);
    SameOutcome(record, o);
    c := b;
    if o.contribution > 0.0 && bar.openTime > setting.spec.evaluationStart {
      var flow := Flow(bar.openTime, o.contribution);
      OneMoreFlow(b.flows, flow);
      c := c.(flows := c.flows + [flow], injected := c.injected + o.contribution);
    }
    if Evaluated(setting.spec, bar) {
      c := AddPoint(c, PointOf(bar, practical, filtered, riskOff, filter, o));
    }
  }

  lemma SameOutcome<S>(r: BarRecord<S>, o: BarOutcome)
    requires OutcomeOf(r) == o
    ensures o.contribution == r.contribution
  {
  }

  lemma PathGrows<S>(setting: Setting<S>, trace: seq<BarRecord<S>>, r: BarRecord<S>)
    requires Indexed(setting, trace) && r.index < |setting.bars|
    ensures Indexed(setting, trace + [r])
    ensures var bar := setting.bars[r.index];
            PathOf(setting, trace + [r])
            == PathOf(setting, trace)
             + if Evaluated(setting.spec, bar) then [PointOf(bar, r.after.practical, r.after.filtered, r.after.riskOff, r.after.filter, OutcomeOf(r))] else []
    ensures var bar := setting.bars[r.index];
            FlowsOf(setting, trace + [r])
            == FlowsOf(setting, trace) + if r.contribution > 0.0 && bar.openTime > setting.spec.evaluationStart then [Flow(bar.openTime, r.contribution)] else []
  {
    hide PointOf, OutcomeOf;
    assert (trace + [r])[..|trace|] == trace;
  }

  /** No bar from an index on belongs to the history prefix. */
  ghost predicate PrefixOver<S>(setting: Setting<S>, index: nat) {
    forall j :: index <= j < |setting.bars| ==> !PrefixBar(setting.spec, setting.bars[j])
  }

  /** The run so far: the bars before an index have been executed or passed over. */
  ghost predicate SoFar<S>(setting: Setting<S>, trace: seq<BarRecord<S>>, index: nat, now: Standing<S>) {
    && index <= |setting.bars|
    && ValidTrace(setting, StartStanding(setting, index), trace)
    && now == Before(StartStanding(setting, index), trace, |trace|)
    && Indices(trace) == ExecutableIndices(setting.spec, setting.bars, index)
    && Indexed(setting, trace)
    && (trace != [] ==> PrefixOver(setting, index))
  }

  lemma NothingSoFar<S>(setting: Setting<S>)
    ensures SoFar(setting, [], 0, StartStanding(setting, 0)) && StartStanding(setting, 0).lastTime == None
  {
  }

  /** A bar that is neither executed nor part of the prefix changes nothing. */
  lemma PassOver<S>(setting: Setting<S>, trace: seq<BarRecord<S>>, index: nat, now: Standing<S>)
    requires SoFar(setting, trace, index, now) && index < |setting.bars|
    requires !Executable(setting.spec, setting.bars[index]) && !PrefixBar(setting.spec, setting.bars[index])
    ensures SoFar(setting, trace, index + 1, now)
  {
    hide Follows, Executable, PrefixBar;
    StartSettles(setting, index, index + 1);
  }

  lemma PrefixIsNotExecuted(spec: Spec, bar: Bar)
    requires PrefixBar(spec, bar)
    ensures !Executable(spec, bar)
  {
  }

  lemma PrefixGoesOn<S>(setting: Setting<S>, index: nat)
    requires index < |setting.bars| && PrefixBar(setting.spec, setting.bars[index])
    ensures PrefixMemory(setting, index + 1) == Noticed(setting, PrefixMemory(setting, index), index)
  {
    hide Observed;
  }

  lemma PassPrefix<S>(setting: Setting<S>, trace: seq<BarRecord<S>>, index: nat, now: Standing<S>, later: Standing<S>)
    requires SoFar(setting, trace, index, now) && index < |setting.bars| && PrefixBar(setting.spec, setting.bars[index])
    requires later.filter == Noticed(setting, now.filter, index)
    requires var signal := ChangeSignal(now.filter.riskOff, later.filter.riskOff);
             later == now.(filter := later.filter, pendingSignal := if signal == Quiet then now.pendingSignal else signal)
    ensures trace == [] && SoFar(setting, trace, index + 1, later)
  {
    hide Follows, Observed, Executable;
    PrefixIsNotExecuted(setting.spec, setting.bars[index]);
    assert trace == [];
    hide PrefixBar;
    PrefixGoesOn(setting, index);
    hide PrefixMemory;
    var was := PrefixSignals(setting, index);
    var noted := Noted(ChangeSignal(now.filter.riskOff, later.filter.riskOff));
    assert PrefixSignals(setting, index + 1) == was + noted;
    hide PrefixSignals;
    assert LastSignal(was + noted) == if noted == [] then LastSignal(was) else noted[0];
  }

  /** No bar has been executed when a bar of the prefix comes up. */
  lemma NotYetExecuted<S>(setting: Setting<S>, trace: seq<BarRecord<S>>, index: nat, now: Standing<S>)
    requires SoFar(setting, trace, index, now) && index < |setting.bars| && PrefixBar(setting.spec, setting.bars[index])
    ensures now.lastTime.None?
  {
    hide Follows, PrefixBar, ExecutableIndices;
    assert trace == [];
  }

  /** In an ordered series the prefix lies before the first executed bar. */
  lemma PrefixEnds<S>(setting: Setting<S>, index: nat)
    requires NormalSpec(setting.spec, setting.bars) && index < |setting.bars| && Executable(setting.spec, setting.bars[index])
    ensures PrefixOver(setting, index)
  {
    forall j | index <= j < |setting.bars| ensures !PrefixBar(setting.spec, setting.bars[j]) {
      if index < j { assert setting.bars[index].openTime < setting.bars[j].openTime; }
    }
  }

  lemma Advance<S>(setting: Setting<S>, trace: seq<BarRecord<S>>, index: nat, now: Standing<S>, r: BarRecord<S>)
    requires NormalSpec(setting.spec, setting.bars) && SoFar(setting, trace, index, now) && index < |setting.bars|
    requires Follows(setting, now, r) && r.index == index
    ensures SoFar(setting, trace + [r], index + 1, r.after)
  {
    assert Executable(setting.spec, setting.bars[index]);
    hide Follows, Executable, PrefixBar;
    PrefixEnds(setting, index);
    StartSettles(setting, index, index + 1);
    ExtendTrace(setting, StartStanding(setting, index), trace, r);
  }

  /** Past the end of the run nothing is executed and nothing belongs to the prefix. */
  lemma Finish<S>(setting: Setting<S>, trace: seq<BarRecord<S>>, index: nat, now: Standing<S>)
    requires NormalSpec(setting.spec, setting.bars) && SoFar(setting, trace, index, now)
    requires index < |setting.bars| ==> BeyondEnd(setting.spec, setting.bars[index])
    ensures RunOf(setting, trace) && Indices(trace) == ExecutableIndices(setting.spec, setting.bars, |setting.bars|)
  {
    hide Follows;
    forall j | index <= j < |setting.bars| ensures !PrefixBar(setting.spec, setting.bars[j]) {
      if index < j { assert setting.bars[index].openTime < setting.bars[j].openTime; }
    }
    hide PrefixBar, Executable;
    StartSettles(setting, index, |setting.bars|);
    NothingAfterEnd(setting.spec, setting.bars, index, |setting.bars|);
  }

  /** A run that stops at an executable bar is a run already. */
  lemma Stopped<S>(setting: Setting<S>, trace: seq<BarRecord<S>>, index: nat, now: Standing<S>)
    requires NormalSpec(setting.spec, setting.bars) && SoFar(setting, trace, index, now)
    requires index < |setting.bars| && Executable(setting.spec, setting.bars[index])
    ensures RunOf(setting, trace) && At(setting, trace, |trace|) == now
    ensures Indices(trace) == ExecutableIndices(setting.spec, setting.bars, index)
  {
    hide Follows, Executable, PrefixBar;
    PrefixEnds(setting, index);
    StartSettles(setting, index, |setting.bars|);
  }

  /** A result and the run it comes from: a completed one, or one that stopped at a bar. */
  ghost predicate Accounts<S>(setting: Setting<S>, trace: seq<BarRecord<S>>, stopped: nat, result: Result<BacktestResult, BacktestError>) {
    && RunOf(setting, trace) && Indexed(setting, trace) && stopped <= |setting.bars|
    && Indices(trace) == ExecutableIndices(setting.spec, setting.bars, stopped)
    && match result
       case Ok(report) => stopped == |setting.bars| && Reports(setting, trace, report)
       case Err(NothingEvaluated) => stopped == |setting.bars| && PathOf(setting, trace) == []
       case Err(error) =>
         && stopped < |setting.bars| && Executable(setting.spec, setting.bars[stopped])
         && Fails(setting, At(setting, trace, |trace|), stopped, error)
  }

  /**
    The whole backtest. A completed run has executed every executable bar, and what it reports are
    the path, the flows and the trade totals of that run; a failed one names the first bar that could
    not be executed, and an empty evaluation is an error of its own.
   */
  method RunSigmoidDCA<S(!new)>(setting: Setting<S>) returns (result: Result<BacktestResult, BacktestError>)
    requires NormalSpec(setting.spec, setting.bars)
    ensures exists trace, stopped :: Accounts(setting, trace, stopped, result)
  {
    hide SoFar, RunOf, PathOf, FlowsOf, PathTrades, TotalFlow, PointOf, Fails, Follows, StartStanding, At, Before, Executable, PrefixBar, BeyondEnd, Observed, ExecutableIndices, Indices, NormalSpec, Reports, Evaluated, OutcomeOf, BooksOf;
    var runner := new Runner(setting);
    NothingSoFar(setting);
    ghost var trace: seq<BarRecord<S>> := [];
    var books := NO_BOOKS;
    EmptyBooks(setting);
    var index := 0;
    while index < |setting.bars|
      invariant index <= |setting.bars|
      invariant runner.Valid() && runner.setting == setting
      invariant fresh(runner) && fresh(runner.practical) && fresh(runner.filtered) && fresh(runner.filter)
      invariant SoFar(setting, trace, index, runner.Now())
      invariant Indexed(setting, trace)
      invariant BooksOf(setting, trace, books)
      invariant index == 0 ==> runner.lastTime.None?
    {
      var bar := setting.bars[index];
      Sorted(setting.spec, bar);
      if bar.openTime < setting.spec.startTime {
        PassOver(setting, trace, index, runner.Now());
        index := index + 1;
        continue;
      }
      if BeyondEnd(setting.spec, bar) {
        break;
      }
      if bar.close <= 0.0 {
        PassOver(setting, trace, index, runner.Now());
        index := index + 1;
        continue;
      }
      ghost var before := runner.Now();
      if HistoryBar(setting.spec, bar) { NotYetExecuted(setting, trace, index, before); }
      var outcome, record := runner.RunBar(index);
      if outcome.None? {
        PassPrefix(setting, trace, index, before, runner.Now());
        index := index + 1;
        continue;
      }
      Stopped(setting, trace, index, before);
      if outcome.value.Err? {
        FailureHasACause(setting, before, index, outcome.value.error);
        result := Err(outcome.value.error);
        assert Accounts(setting, trace, index, result);
        return;
      }
      Advance(setting, trace, index, before, record);
      books := EnterBar(setting, books, index, outcome.value.value, runner.practical.portfolio, runner.filtered.portfolio, runner.riskOff,
                        runner.filter.Memory(), trace, record);
      trace := trace + [record];
      index := index + 1;
    }
    Finish(setting, trace, index, runner.Now());
    PathInBooks(setting, trace, books);
    if |books.path| == 0 {
      result := Err(NothingEvaluated);
    } else {
      Reported(setting, trace, books);
      result := Ok(FinishResult(books));
    }
    assert Accounts(setting, trace, |setting.bars|, result);
  }

  lemma PathInBooks<S>(setting: Setting<S>, trace: seq<BarRecord<S>>, b: Books)
    requires Indexed(setting, trace) && BooksOf(setting, trace, b)
    ensures b.path == PathOf(setting, trace)
  {
  }

  lemma Reported<S>(setting: Setting<S>, trace: seq<BarRecord<S>>, b: Books)
    requires Indexed(setting, trace) && |b.path| > 0 && BooksOf(setting, trace, b)
    ensures Reports(setting, trace, FinishResult(b))
  {
    hide PathOf, FlowsOf, PathTrades, TotalFlow;
  }

  /** Which of the four ways through the loop a bar takes. */
  lemma Sorted(spec: Spec, bar: Bar)
    ensures bar.openTime < spec.startTime || BeyondEnd(spec, bar) || bar.close <= 0.0 ==> !Executable(spec, bar) && !PrefixBar(spec, bar)
    ensures spec.startTime <= bar.openTime && !BeyondEnd(spec, bar) && bar.close > 0.0 ==>
              if HistoryBar(spec, bar) then PrefixBar(spec, bar) && !Executable(spec, bar) else Executable(spec, bar)
  {
  }

  function FinishResult(b: Books): BacktestResult
    requires |b.path| > 0
  {
    var first, last := b.path[0], b.path[|b.path| - 1];
    BacktestResult(b.path, b.flows, first.totalEquity, first.totalEquity + b.injected, last.totalEquity, last.practicalEquity, first.time, last.time,
                   b.tradeCount, b.costs, b.practicalTradeCount, b.practicalCosts)
  }

  lemma EmptyBooks<S>(setting: Setting<S>)
    ensures BooksOf(setting, [], NO_BOOKS)
  {
  }
}
