/**
  The two-portfolio backtest (internal/backtestcore/sigmoiddca.go): a practical and a filtered
  simulator side by side, a risk overlay on the second, monthly contributions, and execution at
  the close or one bar later at the open. The strategy is an arbitrary function of the bar, the
  practical portfolio and its own state; the calendar is the parameter `monthOf`.
 */
module Backtest {
  import opened Wrappers
  import opened RealMath
  import opened Quant
  import opened ExecutionCosts
  import opened Simulators
  import opened LongTermFilters

  datatype ExecutionMode = CloseSameBar | CloseNextOpen

  datatype PrefixMode = ExecutePrefix | HistoryOnly

  datatype Spec = Spec(executionMode: ExecutionMode, prefixMode: PrefixMode,
                       startTime: int, endTime: int, evaluationStart: int, evaluationEnd: int,
                       initialCapital: real, monthlyContribution: real, initialAsset: real,
                       simulator: SimulatorConfig, filter: LongTermFilterConfig)

  datatype BacktestError = InvalidOpen(time: int) | ParametersUnavailable(time: int) | NothingEvaluated

  /** What the strategy answers at a bar: refused parameters, or an output and its next state. */
  datatype Decision<S> = Unavailable | Decided(output: StrategyOutput, state: S)

  /** A specification as the source's normalisation leaves it. */
  ghost predicate NormalSpec(spec: Spec, bars: seq<Bar>) {
    && spec.initialCapital > 0.0 && spec.monthlyContribution >= 0.0 && spec.initialAsset >= 0.0
    && NormalConfig(spec.simulator)
    && forall i, j :: 0 <= i < j < |bars| ==> bars[i].openTime < bars[j].openTime
  }

  // ----- which bars the run executes

  predicate BeyondEnd(spec: Spec, bar: Bar) {
    bar.openTime > spec.endTime || bar.openTime > spec.evaluationEnd
  }

  /** Bars before the evaluation that only feed the filter's history. */
  predicate HistoryBar(spec: Spec, bar: Bar) {
    spec.prefixMode == HistoryOnly && bar.openTime < spec.evaluationStart
  }

  predicate Executable(spec: Spec, bar: Bar) {
    spec.startTime <= bar.openTime && !BeyondEnd(spec, bar) && bar.close > 0.0 && !HistoryBar(spec, bar)
  }

  predicate Evaluated(spec: Spec, bar: Bar) {
    spec.evaluationStart <= bar.openTime <= spec.evaluationEnd
  }

  /** Indices of the executable bars among the first n, in order. */
  ghost function ExecutableIndices(spec: Spec, bars: seq<Bar>, n: nat): seq<nat>
    requires n <= |bars|
  {
    if n == 0 then []
    else ExecutableIndices(spec, bars, n - 1) + if Executable(spec, bars[n - 1]) then [n - 1] else []
  }

  lemma {:induction false} NothingAfterEnd(spec: Spec, bars: seq<Bar>, from: nat, n: nat)
    requires NormalSpec(spec, bars) && from <= n <= |bars|
    requires from < |bars| ==> BeyondEnd(spec, bars[from])
    ensures ExecutableIndices(spec, bars, n) == ExecutableIndices(spec, bars, from)
    decreases n
  {
    if from < n {
      NothingAfterEnd(spec, bars, from, n - 1);
      assert bars[from].openTime <= bars[n - 1].openTime;
    }
  }

  // ----- one trading step of both portfolios

  predicate Adjusts(intent: TradeIntent) {
    (intent.action == Buy && intent.amountUsdt > 0.0) || (intent.action == Sell && intent.qtyAsset > 0.0)
  }

  /** Some intent asks for a trade, or there is a transfer. */
  function HasAdjustment(output: StrategyOutput): bool {
    || |output.lotTransfers| > 0
    || exists i :: 0 <= i < |output.intents| && Adjusts(output.intents[i])
  }

  function ActualExposure(p: Portfolio, price: real): real {
    var asset, equity := TotalAsset(p), Equity(p, price);
    if asset <= 0.0 || price <= 0.0 || equity <= 0.0 then 0.0 else Clip(asset * price / equity, 0.0, 1.0)
  }

  const NO_OUTPUT := StrategyOutput([], [])

  /** The strategy's orders as they stand when a trading step begins. */
  datatype Orders = Orders(output: StrategyOutput, present: bool, adjusts: bool)

  function OrdersOf(pending: Option<StrategyOutput>): Orders {
    if pending.Some? then Orders(pending.value, true, HasAdjustment(pending.value)) else Orders(NO_OUTPUT, false, false)
  }

  function PracticalStep(p: Portfolio, c: SimulatorConfig, orders: Orders, price: real): Outcome {
    if orders.present then Executed(p, c, orders.output, price) else Outcome(p, NO_TRADE)
  }

  /** What the overlay does to the filtered portfolio, given the practical exposure just reached. */
  function FilteredStep(f: Portfolio, c: SimulatorConfig, weight: real, riskOff: bool, diverged: bool, orders: Orders,
                        event: Signal, contributed: bool, price: real): Outcome {
    match event
    case Enter => Liquidated(f, c, price)
    case Exit => Rebalanced(f, c, weight, price)
    case Quiet =>
      if riskOff || !(orders.present || contributed) then Outcome(f, NO_TRADE)
      else if !diverged then Executed(f, c, orders.output, price)
      else if orders.adjusts || contributed then Rebalanced(f, c, weight, price)
      else Outcome(f, NO_TRADE)
  }

  function NextRisk(riskOff: bool, event: Signal): bool {
    match event
    case Enter => true
    case Exit => false
    case Quiet => riskOff
  }

  /** Trades both portfolios at a price, the practical one first. */
  method TradeBoth(practical: Simulator, filtered: Simulator, riskOff: bool, diverged: bool, orders: Orders,
                   event: Signal, contributed: bool, price: real)
    returns (practicalTrades: TradeSummary, filteredTrades: TradeSummary)
    requires practical != filtered && NormalConfig(practical.config) && filtered.config == practical.config
    modifies practical, filtered
    ensures Outcome(practical.portfolio, practicalTrades) == PracticalStep(old(practical.portfolio), practical.config, orders, price)
    ensures Outcome(filtered.portfolio, filteredTrades)
         == FilteredStep(old(filtered.portfolio), practical.config, ActualExposure(practical.portfolio, price), riskOff, diverged, orders, event, contributed, price)
  {
    hide Executed, Liquidated, Rebalanced, ActualExposure, Conserves, HasAdjustment;
    practicalTrades, filteredTrades := NO_TRADE, NO_TRADE;
    if orders.present {
      practicalTrades := practical.Execute(orders.output, price);
    }
    var weight := ActualExposure(practical.portfolio, price);
    match event {
      case Enter => filteredTrades := filtered.LiquidateAll(price);
      case Exit => filteredTrades := filtered.RebalanceToExposure(weight, price);
      case Quiet =>
        if !riskOff && (orders.present || contributed) {
          if diverged {
            if orders.adjusts || contributed {
              filteredTrades := filtered.RebalanceToExposure(weight, price);
            }
          } else {
            filteredTrades := filtered.Execute(orders.output, price);
          }
        }
    }
  }

  // ----- the run as a sequence of bars

  /** Everything that is carried from one executed bar to the next. */
  datatype Standing<S> = Standing(practical: Portfolio, filtered: Portfolio, riskOff: bool, diverged: bool, filter: FilterMemory,
                                  pendingSignal: Signal, pendingOutput: Option<StrategyOutput>, state: S, lastTime: Option<int>)

  /** One executed bar: what was traded, what was decided, and how things stand after it. */
  datatype BarRecord<S> = BarRecord(index: nat, contribution: real, tradePrice: real, event: Signal, signal: Signal,
                                    practicalTrades: TradeSummary, filteredTrades: TradeSummary, output: StrategyOutput, after: Standing<S>)

  datatype Setting<!S> = Setting(spec: Spec, bars: seq<Bar>, monthOf: int -> int, strategy: (nat, Portfolio, S) -> Decision<S>, initial: S)

  /** A bar of the history prefix that the filter looks at without trading. */
  predicate PrefixBar(spec: Spec, bar: Bar) {
    spec.startTime <= bar.openTime && !BeyondEnd(spec, bar) && bar.close > 0.0 && HistoryBar(spec, bar)
  }

  ghost function Noticed<S>(setting: Setting<S>, m: FilterMemory, index: int): FilterMemory {
    Observed(m, setting.spec.filter, setting.monthOf, setting.bars, index)
  }

  /** The filter after the prefix bars among the first n bars. */
  ghost function PrefixMemory<S>(setting: Setting<S>, n: nat): FilterMemory
    requires n <= |setting.bars|
  {
    if n == 0 then BLANK_MEMORY
    else if PrefixBar(setting.spec, setting.bars[n - 1]) then Noticed(setting, PrefixMemory(setting, n - 1), n - 1)
    else PrefixMemory(setting, n - 1)
  }

  /** The signals of the prefix bars among the first n bars. */
  ghost function PrefixSignals<S>(setting: Setting<S>, n: nat): seq<Signal>
    requires n <= |setting.bars|
  {
    if n == 0 then []
    else PrefixSignals(setting, n - 1) + Noted(ChangeSignal(PrefixMemory(setting, n - 1).riskOff, PrefixMemory(setting, n).riskOff))
  }

  function LastSignal(signals: seq<Signal>): Signal {
    if |signals| == 0 then Quiet else signals[|signals| - 1]
  }

  function InitialPortfolio(spec: Spec): Portfolio {
    Portfolio(spec.initialCapital, 0.0, 0.0, spec.initialAsset)
  }

  /** How things stand before the first executed bar, after the prefix among the first n bars. */
  ghost function StartStanding<S>(setting: Setting<S>, n: nat): Standing<S>
    requires n <= |setting.bars|
  {
    var start := InitialPortfolio(setting.spec);
    Standing(start, start, false, false, PrefixMemory(setting, n), LastSignal(PrefixSignals(setting, n)), None, setting.initial, None)
  }

  /** Nothing that is not a prefix bar changes the start. */
  lemma {:induction false} StartSettles<S>(setting: Setting<S>, from: nat, n: nat)
    requires from <= n <= |setting.bars|
    requires forall i :: from <= i < n ==> !PrefixBar(setting.spec, setting.bars[i])
    ensures StartStanding(setting, n) == StartStanding(setting, from)
    decreases n
  {
    if from < n { StartSettles(setting, from, n - 1); }
  }

  function MonthlyContribution<S>(setting: Setting<S>, lastTime: Option<int>, time: int): real {
    if lastTime.Some? && setting.monthOf(time) != setting.monthOf(lastTime.value) then setting.spec.monthlyContribution else 0.0
  }

  function AddCash(p: Portfolio, amount: real): Portfolio {
    p.(usdt := p.usdt + amount)
  }

  /** Both portfolios trade at the record's price, after the contribution. */
  ghost predicate Trades<S>(setting: Setting<S>, before: Standing<S>, r: BarRecord<S>, orders: Orders) {
    var c := setting.spec.simulator;
    && Outcome(r.after.practical, r.practicalTrades) == PracticalStep(AddCash(before.practical, r.contribution), c, orders, r.tradePrice)
    && Outcome(r.after.filtered, r.filteredTrades)
       == FilteredStep(AddCash(before.filtered, r.contribution), c, ActualExposure(r.after.practical, r.tradePrice),
                       before.riskOff, before.diverged, orders, r.event, r.contribution > 0.0, r.tradePrice)
  }

  /** Execution one bar later reaches for the open only when there is something to do. */
  predicate MustTrade<S>(before: Standing<S>, contributed: bool) {
    before.pendingOutput.Some? || before.pendingSignal != Quiet || (before.diverged && !before.riskOff && contributed)
  }

  /** Execution one bar later: yesterday's orders and signal at today's open, then today's decision. */
  ghost predicate FollowsNextOpen<S>(setting: Setting<S>, before: Standing<S>, r: BarRecord<S>)
    requires r.index < |setting.bars|
  {
    && r.tradePrice == setting.bars[r.index].open && r.event == before.pendingSignal
    && (MustTrade(before, r.contribution > 0.0) ==> r.tradePrice > 0.0)
    && Trades(setting, before, r, OrdersOf(before.pendingOutput))
    && setting.strategy(r.index, r.after.practical, before.state) == Decided(r.output, r.after.state)
    && r.after.pendingOutput == Some(r.output) && r.after.pendingSignal == r.signal
  }

  /** Execution on the same bar: today's decision and signal at today's close. */
  ghost predicate FollowsSameBar<S>(setting: Setting<S>, before: Standing<S>, r: BarRecord<S>)
    requires r.index < |setting.bars|
  {
    && r.tradePrice == setting.bars[r.index].close && r.event == r.signal
    && Trades(setting, before, r, OrdersOf(Some(r.output)))
    && setting.strategy(r.index, AddCash(before.practical, r.contribution), before.state) == Decided(r.output, r.after.state)
    && r.after.pendingOutput == before.pendingOutput && r.after.pendingSignal == before.pendingSignal
  }

  /** The step from one standing over one executed bar. */
  ghost predicate Follows<S>(setting: Setting<S>, before: Standing<S>, r: BarRecord<S>) {
    && r.index < |setting.bars|
    && Executable(setting.spec, setting.bars[r.index])
    && r.contribution == MonthlyContribution(setting, before.lastTime, setting.bars[r.index].openTime)
    && r.after.riskOff == NextRisk(before.riskOff, r.event)
    && r.after.diverged == (before.diverged || r.event != Quiet)
    && r.after.filter == Noticed(setting, before.filter, r.index)
    && r.signal == ChangeSignal(before.filter.riskOff, r.after.filter.riskOff)
    && r.after.lastTime == Some(setting.bars[r.index].openTime)
    && if setting.spec.executionMode == CloseNextOpen then FollowsNextOpen(setting, before, r) else FollowsSameBar(setting, before, r)
  }

  ghost function Before<S>(start: Standing<S>, trace: seq<BarRecord<S>>, k: nat): Standing<S>
    requires k <= |trace|
  {
    if k == 0 then start else trace[k - 1].after
  }

  /** Every record follows from the standing before it. */
  ghost predicate ValidTrace<S>(setting: Setting<S>, start: Standing<S>, trace: seq<BarRecord<S>>) {
    forall k :: 0 <= k < |trace| ==> Follows(setting, Before(start, trace, k), trace[k])
  }

  ghost function Indices<S>(trace: seq<BarRecord<S>>): seq<nat> {
    seq(|trace|, k requires 0 <= k < |trace| => trace[k].index)
  }

  lemma ExtendTrace<S>(setting: Setting<S>, start: Standing<S>, trace: seq<BarRecord<S>>, r: BarRecord<S>)
    requires ValidTrace(setting, start, trace) && Follows(setting, Before(start, trace, |trace|), r)
    ensures ValidTrace(setting, start, trace + [r])
    ensures Indices(trace + [r]) == Indices(trace) + [r.index]
  {
    hide Follows;
    forall k | 0 <= k < |trace| + 1
      ensures Follows(setting, Before(start, trace + [r], k), (trace + [r])[k])
    {
      if k < |trace| { assert Follows(setting, Before(start, trace, k), trace[k]); }
      assert Before(start, trace + [r], k) == Before(start, trace, k);
    }
  }

  // ----- what every trace means

  /** What ties the two portfolios together between bars. */
  ghost predicate Coupled<S>(c: SimulatorConfig, s: Standing<S>) {
    && Solvent(s.practical) && Solvent(s.filtered)
    && (s.riskOff ==> s.diverged)
    && (!s.diverged ==> s.practical == s.filtered)
    && (s.riskOff && LowCosts(c) ==> NoAsset(s.filtered))
  }

  lemma LiquidationConserves(p: Portfolio, c: SimulatorConfig, price: real)
    requires Solvent(p) && NormalConfig(c)
    ensures Conserves(p, price, Liquidated(p, c, price))
  {
    hide SoldAny, Conserves;
    SoldAnyConserves(p, c, TotalAsset(p), price, false);
  }

  lemma PracticalConserves(p: Portfolio, c: SimulatorConfig, orders: Orders, price: real)
    requires Solvent(p) && NormalConfig(c)
    ensures Conserves(p, price, PracticalStep(p, c, orders, price))
  {
    hide Executed, Conserves;
    NoTradeConserves(p, price);
    ExecuteConserves(p, c, orders.output, price);
  }

  lemma FilteredConserves(f: Portfolio, c: SimulatorConfig, weight: real, riskOff: bool, diverged: bool, orders: Orders,
                          event: Signal, contributed: bool, price: real)
    requires Solvent(f) && NormalConfig(c)
    ensures Conserves(f, price, FilteredStep(f, c, weight, riskOff, diverged, orders, event, contributed, price))
  {
    hide Executed, Liquidated, Rebalanced, Conserves;
    NoTradeConserves(f, price);
    ExecuteConserves(f, c, orders.output, price);
    RebalanceConserves(f, c, weight, price);
    LiquidationConserves(f, c, price);
  }

  /** Executing nothing changes nothing, so missing orders and an empty output agree. */
  lemma NothingExecuted(p: Portfolio, c: SimulatorConfig, price: real)
    ensures Executed(p, c, NO_OUTPUT, price) == Outcome(p, NO_TRADE)
  {
  }

  /** Value at the trading price moves by the contribution and the reported cost, and by nothing else. */
  ghost predicate Balances(before: Portfolio, after: Portfolio, price: real, contribution: real, trades: TradeSummary) {
    && Equity(after, price) == Equity(before, price) + contribution - trades.costs.totalCost
    && trades.costs.totalCost >= 0.0
  }

  lemma AddCashEquity(p: Portfolio, amount: real, price: real)
    ensures Equity(AddCash(p, amount), price) == Equity(p, price) + amount
  {
  }

  /** Both ledgers balance over every executed bar, and both portfolios stay solvent. */
  lemma StepBalances<S>(setting: Setting<S>, before: Standing<S>, r: BarRecord<S>)
    requires NormalSpec(setting.spec, setting.bars) && Follows(setting, before, r)
    requires Solvent(before.practical) && Solvent(before.filtered)
    ensures Solvent(r.after.practical) && Solvent(r.after.filtered)
    ensures Balances(before.practical, r.after.practical, r.tradePrice, r.contribution, r.practicalTrades)
    ensures Balances(before.filtered, r.after.filtered, r.tradePrice, r.contribution, r.filteredTrades)
  {
    hide PracticalStep, FilteredStep, ActualExposure, HasAdjustment, Equity, OrdersOf;
    var c := setting.spec.simulator;
    var orders := if setting.spec.executionMode == CloseNextOpen then OrdersOf(before.pendingOutput) else OrdersOf(Some(r.output));
    AddCashEquity(before.practical, r.contribution, r.tradePrice);
    AddCashEquity(before.filtered, r.contribution, r.tradePrice);
    PracticalConserves(AddCash(before.practical, r.contribution), c, orders, r.tradePrice);
    FilteredConserves(AddCash(before.filtered, r.contribution), c, ActualExposure(r.after.practical, r.tradePrice),
                      before.riskOff, before.diverged, orders, r.event, r.contribution > 0.0, r.tradePrice);
  }

  lemma StepKeepsTogether<S>(setting: Setting<S>, before: Standing<S>, r: BarRecord<S>)
    requires Follows(setting, before, r)
    requires !before.diverged && !before.riskOff && before.practical == before.filtered && r.event == Quiet
    ensures r.after.practical == r.after.filtered && r.practicalTrades == r.filteredTrades
  {
    hide Executed, ActualExposure, HasAdjustment;
    NothingExecuted(AddCash(before.filtered, r.contribution), setting.spec.simulator, r.tradePrice);
  }

  lemma StepKeepsEmpty<S>(setting: Setting<S>, before: Standing<S>, r: BarRecord<S>)
    requires NormalSpec(setting.spec, setting.bars) && LowCosts(setting.spec.simulator) && Follows(setting, before, r)
    requires Solvent(before.filtered)
    requires before.riskOff ==> NoAsset(before.filtered)
    requires r.after.riskOff
    ensures NoAsset(r.after.filtered)
  {
    hide Executed, Liquidated, Rebalanced, ActualExposure, HasAdjustment;
    if r.event == Enter {
      LiquidationEmpties(AddCash(before.filtered, r.contribution), setting.spec.simulator, r.tradePrice);
    }
  }

  /** Every executed bar keeps the two portfolios coupled. */
  lemma StepKeepsCoupling<S>(setting: Setting<S>, before: Standing<S>, r: BarRecord<S>)
    requires NormalSpec(setting.spec, setting.bars) && Follows(setting, before, r) && Coupled(setting.spec.simulator, before)
    ensures Coupled(setting.spec.simulator, r.after)
  {
    hide Trades;
    StepBalances(setting, before, r);
    if !r.after.diverged { StepKeepsTogether(setting, before, r); }
    if r.after.riskOff && LowCosts(setting.spec.simulator) { StepKeepsEmpty(setting, before, r); }
  }

  // ----- whole runs

  ghost predicate RunOf<S>(setting: Setting<S>, trace: seq<BarRecord<S>>) {
    && NormalSpec(setting.spec, setting.bars)
    && ValidTrace(setting, StartStanding(setting, |setting.bars|), trace)
  }

  /** How things stand before the k-th executed bar of a run. */
  ghost function At<S>(setting: Setting<S>, trace: seq<BarRecord<S>>, k: nat): Standing<S>
    requires k <= |trace|
  {
    Before(StartStanding(setting, |setting.bars|), trace, k)
  }

  lemma StepOf<S>(setting: Setting<S>, trace: seq<BarRecord<S>>, k: nat)
    requires RunOf(setting, trace) && k < |trace|
    ensures Follows(setting, At(setting, trace, k), trace[k]) && At(setting, trace, k + 1) == trace[k].after
  {
    hide Follows;
  }

  /** How the flags and signals move over one bar. */
  ghost predicate FlagsMove<S>(mode: ExecutionMode, before: Standing<S>, r: BarRecord<S>) {
    && r.signal == ChangeSignal(before.filter.riskOff, r.after.filter.riskOff)
    && r.event == (if mode == CloseNextOpen then before.pendingSignal else r.signal)
    && r.after.pendingSignal == (if mode == CloseNextOpen then r.signal else before.pendingSignal)
    && r.after.riskOff == NextRisk(before.riskOff, r.event)
    && r.after.diverged == (before.diverged || r.event != Quiet)
  }

  lemma StepMovesFlags<S>(setting: Setting<S>, trace: seq<BarRecord<S>>, k: nat)
    requires RunOf(setting, trace) && k < |trace|
    ensures FlagsMove(setting.spec.executionMode, At(setting, trace, k), trace[k]) && At(setting, trace, k + 1) == trace[k].after
  {
    hide Trades, OrdersOf, Observed, Executable, PrefixSignals, PrefixMemory, RunOf;
    StepOf(setting, trace, k);
  }

  /** A run is settled by the bars it executes: a record is the only one that can follow. */
  lemma OnlyOneFollows<S>(setting: Setting<S>, before: Standing<S>, r: BarRecord<S>, q: BarRecord<S>)
    requires Follows(setting, before, r) && Follows(setting, before, q) && r.index == q.index
    ensures r == q
  {
    hide PracticalStep, FilteredStep, ActualExposure, Executable, Observed, HasAdjustment;
  }

  lemma {:induction false} RunIsDetermined<S>(setting: Setting<S>, one: seq<BarRecord<S>>, two: seq<BarRecord<S>>, k: nat)
    requires RunOf(setting, one) && RunOf(setting, two) && Indices(one) == Indices(two) && k <= |one|
    ensures |one| == |two| && one[..k] == two[..k]
  {
    hide Follows;
    assert |Indices(one)| == |Indices(two)|;
    if k > 0 {
      RunIsDetermined(setting, one, two, k - 1);
      assert one[..k - 1] == two[..k - 1];
      if k > 1 { assert one[k - 2] == one[..k - 1][k - 2] == two[k - 2]; }
      assert At(setting, one, k - 1) == At(setting, two, k - 1);
      StepOf(setting, one, k - 1);
      StepOf(setting, two, k - 1);
      assert Indices(one)[k - 1] == Indices(two)[k - 1];
      OnlyOneFollows(setting, At(setting, one, k - 1), one[k - 1], two[k - 1]);
      assert one[..k] == one[..k - 1] + [one[k - 1]];
      assert two[..k] == two[..k - 1] + [two[k - 1]];
    }
  }

  /** Both portfolios stay coupled through the whole run. */
  lemma {:induction false} RunKeepsCoupling<S>(setting: Setting<S>, trace: seq<BarRecord<S>>, k: nat)
    requires RunOf(setting, trace) && k <= |trace|
    ensures Coupled(setting.spec.simulator, At(setting, trace, k))
  {
    hide Follows;
    if k > 0 {
      RunKeepsCoupling(setting, trace, k - 1);
      StepOf(setting, trace, k - 1);
      StepKeepsCoupling(setting, At(setting, trace, k - 1), trace[k - 1]);
    }
  }

  lemma {:induction false} DivergedMeansEvent<S>(setting: Setting<S>, trace: seq<BarRecord<S>>, k: nat)
    requires RunOf(setting, trace) && k <= |trace|
    ensures At(setting, trace, k).diverged <==> exists i :: 0 <= i < k && trace[i].event != Quiet
  {
    hide Follows, RunOf, PrefixSignals, PrefixMemory;
    if k > 0 {
      DivergedMeansEvent(setting, trace, k - 1);
      StepMovesFlags(setting, trace, k - 1);
    }
  }

  /** Up to the first executed filter signal the filtered portfolio is the practical one. */
  lemma SameUntilFirstEvent<S>(setting: Setting<S>, trace: seq<BarRecord<S>>, k: nat)
    requires RunOf(setting, trace) && k <= |trace|
    requires forall i :: 0 <= i < k ==> trace[i].event == Quiet
    ensures At(setting, trace, k).filtered == At(setting, trace, k).practical
    ensures forall i :: 0 <= i < k ==> trace[i].filteredTrades == trace[i].practicalTrades
  {
    hide Follows;
    RunKeepsCoupling(setting, trace, k);
    DivergedMeansEvent(setting, trace, k);
    forall i | 0 <= i < k ensures trace[i].filteredTrades == trace[i].practicalTrades {
      RunKeepsCoupling(setting, trace, i);
      DivergedMeansEvent(setting, trace, i);
      StepOf(setting, trace, i);
      StepKeepsTogether(setting, At(setting, trace, i), trace[i]);
    }
  }

  /** From an executed entry to the next exit the filtered portfolio holds none of the three lots. */
  lemma {:induction false} EmptyWhileRiskOff<S>(setting: Setting<S>, trace: seq<BarRecord<S>>, enter: nat, k: nat)
    requires RunOf(setting, trace) && LowCosts(setting.spec.simulator)
    requires enter <= k < |trace| && trace[enter].event == Enter
    requires forall i :: enter < i <= k ==> trace[i].event != Exit
    ensures trace[k].after.riskOff && NoAsset(trace[k].after.filtered)
    decreases k
  {
    hide Follows, RunOf, PrefixSignals, PrefixMemory;
    if enter < k { EmptyWhileRiskOff(setting, trace, enter, k - 1); }
    StepMovesFlags(setting, trace, k);
    RunKeepsCoupling(setting, trace, k + 1);
  }

  // ----- signals and events of a run

  ghost function Signals<S>(trace: seq<BarRecord<S>>, k: nat): seq<Signal>
    requires k <= |trace|
  {
    if k == 0 then [] else Signals(trace, k - 1) + Noted(trace[k - 1].signal)
  }

  ghost function Events<S>(trace: seq<BarRecord<S>>, k: nat): seq<Signal>
    requires k <= |trace|
  {
    if k == 0 then [] else Events(trace, k - 1) + Noted(trace[k - 1].event)
  }

  lemma {:induction false} PrefixAlternates<S>(setting: Setting<S>, n: nat)
    requires n <= |setting.bars|
    ensures Alternates(PrefixSignals(setting, n))
    ensures PrefixMemory(setting, n).riskOff == (|PrefixSignals(setting, n)| % 2 == 1)
  {
    hide Observed;
    if n > 0 {
      PrefixAlternates(setting, n - 1);
      ChangeAlternates(PrefixSignals(setting, n - 1), PrefixMemory(setting, n - 1).riskOff, PrefixMemory(setting, n).riskOff);
    }
  }

  /** The observed signals of a run, from its history prefix on, alternate and begin with an entry. */
  lemma {:induction false} SignalsAlternate<S>(setting: Setting<S>, trace: seq<BarRecord<S>>, k: nat)
    requires RunOf(setting, trace) && k <= |trace|
    ensures var signals := PrefixSignals(setting, |setting.bars|) + Signals(trace, k);
            Alternates(signals) && At(setting, trace, k).filter.riskOff == (|signals| % 2 == 1)
  {
    hide Follows, RunOf, PrefixSignals, PrefixMemory;
    var prefix := PrefixSignals(setting, |setting.bars|);
    if k == 0 {
      PrefixAlternates(setting, |setting.bars|);
      assert prefix + Signals(trace, 0) == prefix;
    } else {
      SignalsAlternate(setting, trace, k - 1);
      StepMovesFlags(setting, trace, k - 1);
      ChangeAlternates(prefix + Signals(trace, k - 1), At(setting, trace, k - 1).filter.riskOff, trace[k - 1].after.filter.riskOff);
      assert prefix + Signals(trace, k) == prefix + Signals(trace, k - 1) + Noted(trace[k - 1].signal);
    }
  }

  /** What a signal still to be executed leads to is the filter's own flag. */
  lemma {:induction false} PendingSignalCatchesUp<S>(setting: Setting<S>, trace: seq<BarRecord<S>>, k: nat)
    requires RunOf(setting, trace) && k <= |trace| && setting.spec.executionMode == CloseNextOpen
    ensures NextRisk(At(setting, trace, k).riskOff, At(setting, trace, k).pendingSignal) == At(setting, trace, k).filter.riskOff
  {
    hide Follows, RunOf, PrefixSignals, PrefixMemory;
    if k == 0 {
      PrefixAlternates(setting, |setting.bars|);
    } else {
      PendingSignalCatchesUp(setting, trace, k - 1);
      StepMovesFlags(setting, trace, k - 1);
    }
  }

  /** One bar later, the overlay's flag is the filter's flag as it was before the bar was observed. */
  lemma RiskFlagLagsOneBar<S>(setting: Setting<S>, trace: seq<BarRecord<S>>, k: nat)
    requires RunOf(setting, trace) && k < |trace| && setting.spec.executionMode == CloseNextOpen
    ensures trace[k].after.riskOff == At(setting, trace, k).filter.riskOff
  {
    hide Follows, RunOf, PrefixSignals, PrefixMemory;
    PendingSignalCatchesUp(setting, trace, k);
    StepMovesFlags(setting, trace, k);
  }

  /**
    On the same bar the two flags agree after every bar, unless a history prefix left the filter in
    risk-off: then, and only then, they differ until the first event.
   */
  lemma {:induction false} RiskFlagSameBar<S>(setting: Setting<S>, trace: seq<BarRecord<S>>, k: nat)
    requires RunOf(setting, trace) && k <= |trace| && setting.spec.executionMode == CloseSameBar
    ensures At(setting, trace, k).riskOff == At(setting, trace, k).filter.riskOff
       <==> At(setting, trace, k).diverged || !PrefixMemory(setting, |setting.bars|).riskOff
    ensures !At(setting, trace, k).diverged ==> At(setting, trace, k).filter.riskOff == PrefixMemory(setting, |setting.bars|).riskOff
  {
    hide Follows, RunOf, PrefixSignals, PrefixMemory;
    RunKeepsCoupling(setting, trace, k);
    if k > 0 {
      RunKeepsCoupling(setting, trace, k - 1);
      RiskFlagSameBar(setting, trace, k - 1);
      StepMovesFlags(setting, trace, k - 1);
    }
  }

  /** Same-bar execution after a history prefix of two falling month closes, with a strategy that does nothing. */
  ghost predicate FallingPrefix(setting: Setting<int>) {
    && setting.spec == Spec(CloseSameBar, HistoryOnly, 0, 2, 2, 2, 100.0, 0.0, 0.0,
                            SimulatorConfig(ExecutionCostConfig(0.0, 0.0), 0.0, 0.0), LongTermFilterConfig(true, 1))
    && setting.bars == [Bar(0, 2.0, 2.0, 2.0, 2.0, 0.0), Bar(1, 1.0, 1.0, 1.0, 1.0, 0.0), Bar(2, 1.0, 1.0, 1.0, 1.0, 0.0)]
    && (forall t :: setting.monthOf(t) == t)
    && forall i: nat, p, s :: setting.strategy(i, p, s) == Decided(NO_OUTPUT, s)
  }

  lemma PrefixFalls(setting: Setting<int>)
    requires FallingPrefix(setting)
    ensures PrefixMemory(setting, 3).riskOff
    ensures Observed(PrefixMemory(setting, 3), setting.spec.filter, setting.monthOf, setting.bars, 2) == PrefixMemory(setting, 3)
  {
    var first, second := PrefixMemory(setting, 1), PrefixMemory(setting, 2);
    assert PrefixMemory(setting, 0) == BLANK_MEMORY;
    assert first.monthCloses == [2.0] && !first.riskOff;
    assert second.monthCloses == [2.0, 1.0];
    assert TrailingMean(second.monthCloses, 2, 1) == 1.0 && TrailingMean(second.monthCloses, 1, 1) == 2.0;
    assert PrefixMemory(setting, 3) == second;
  }

  /** There the overlay stays out of risk-off over the executed bar while the filter is in it. */
  lemma RiskFlagsDisagree(setting: Setting<int>) returns (trace: seq<BarRecord<int>>)
    requires FallingPrefix(setting)
    ensures RunOf(setting, trace) && |trace| == 1 && trace[0].index == 2
    ensures trace[0].after.filter.riskOff && !trace[0].after.riskOff
  {
    PrefixFalls(setting);
    hide Observed, PrefixMemory, PrefixSignals, Executed, ActualExposure;
    var before := StartStanding(setting, 3);
    var after := before.(state := setting.initial, lastTime := Some(2));
    var r := BarRecord(2, 0.0, 1.0, Quiet, Quiet, NO_TRADE, NO_TRADE, NO_OUTPUT, after);
    NothingExecuted(AddCash(before.practical, 0.0), setting.spec.simulator, 1.0);
    assert Follows(setting, before, r);
    trace := [r];
  }

  /** The signals of the prefix that no bar of the run will execute. */
  ghost function Unexecuted<S>(setting: Setting<S>): seq<Signal> {
    var prefix := PrefixSignals(setting, |setting.bars|);
    if setting.spec.executionMode == CloseNextOpen && |prefix| > 0 then prefix[..|prefix| - 1] else prefix
  }

  /** The signal that awaits the next bar's open. */
  ghost function Awaiting<S>(setting: Setting<S>, s: Standing<S>): seq<Signal> {
    if setting.spec.executionMode == CloseNextOpen then Noted(s.pendingSignal) else []
  }

  lemma NothingLost<S>(setting: Setting<S>)
    ensures Unexecuted(setting) + Awaiting(setting, StartStanding(setting, |setting.bars|)) == PrefixSignals(setting, |setting.bars|)
  {
    hide PrefixSignals, PrefixMemory;
    PrefixAlternates(setting, |setting.bars|);
  }

  lemma Regrouped(unexecuted: seq<Signal>, events: seq<Signal>, event: seq<Signal>, prefix: seq<Signal>, signals: seq<Signal>, next: seq<Signal>)
    requires unexecuted + events + event == prefix + signals
    ensures unexecuted + (events + event) + next == prefix + (signals + next)
  {
    assert unexecuted + (events + event) == unexecuted + events + event;
    assert prefix + signals + next == prefix + (signals + next);
  }

  /** Every signal is executed once and in order: what was executed and what awaits execution make up what was observed. */
  lemma {:induction false} EventsFollowSignals<S>(setting: Setting<S>, trace: seq<BarRecord<S>>, k: nat)
    requires RunOf(setting, trace) && k <= |trace|
    ensures Unexecuted(setting) + Events(trace, k) + Awaiting(setting, At(setting, trace, k))
         == PrefixSignals(setting, |setting.bars|) + Signals(trace, k)
  {
    hide Follows, RunOf, PrefixSignals, PrefixMemory, Unexecuted, Noted;
    var prefix, left := PrefixSignals(setting, |setting.bars|), Unexecuted(setting);
    if k == 0 {
      NothingLost(setting);
      assert left + [] == left && prefix + [] == prefix;
    } else {
      EventsFollowSignals(setting, trace, k - 1);
      StepMovesFlags(setting, trace, k - 1);
      var r := trace[k - 1];
      NotedOnce(setting, At(setting, trace, k - 1), r);
      if setting.spec.executionMode == CloseNextOpen {
        Regrouped(left, Events(trace, k - 1), Noted(r.event), prefix, Signals(trace, k - 1), Noted(r.signal));
      } else {
        assert left + Events(trace, k - 1) + [] == left + Events(trace, k - 1);
        assert left + (Events(trace, k - 1) + Noted(r.event)) + [] == left + Events(trace, k - 1) + Noted(r.event);
        assert prefix + (Signals(trace, k - 1) + Noted(r.signal)) == prefix + Signals(trace, k - 1) + Noted(r.signal);
      }
    }
  }

  lemma NotedOnce<S>(setting: Setting<S>, before: Standing<S>, r: BarRecord<S>)
    requires FlagsMove(setting.spec.executionMode, before, r)
    ensures setting.spec.executionMode == CloseNextOpen ==> Awaiting(setting, before) == Noted(r.event) && Awaiting(setting, r.after) == Noted(r.signal)
    ensures setting.spec.executionMode == CloseSameBar ==> Awaiting(setting, before) == [] == Awaiting(setting, r.after) && r.event == r.signal
  {
  }

  /**
    Executed events alternate too, continuing the unexecuted part of the prefix; without a history
    prefix the first one is an entry.
   */
  lemma EventsAlternate<S>(setting: Setting<S>, trace: seq<BarRecord<S>>, k: nat)
    requires RunOf(setting, trace) && k <= |trace|
    ensures Alternates(Unexecuted(setting) + Events(trace, k))
    ensures setting.spec.prefixMode == ExecutePrefix ==> Alternates(Events(trace, k))
  {
    hide Follows, RunOf, PrefixMemory;
    SignalsAlternate(setting, trace, k);
    EventsFollowSignals(setting, trace, k);
    var all := PrefixSignals(setting, |setting.bars|) + Signals(trace, k);
    var done := Unexecuted(setting) + Events(trace, k);
    forall i | 0 <= i < |done| ensures done[i] == all[i] {
    }
    if setting.spec.prefixMode == ExecutePrefix {
      NoPrefix(setting, |setting.bars|);
      assert done == Events(trace, k);
    }
  }

  lemma {:induction false} NoPrefix<S>(setting: Setting<S>, n: nat)
    requires n <= |setting.bars| && setting.spec.prefixMode == ExecutePrefix
    ensures PrefixSignals(setting, n) == [] && PrefixMemory(setting, n) == BLANK_MEMORY
  {
    if n > 0 { NoPrefix(setting, n - 1); }
  }

  // ----- the two ledgers over a run

  datatype Ledger = PracticalLedger | FilteredLedger

  ghost function Held<S>(s: Standing<S>, ledger: Ledger): Portfolio {
    if ledger == PracticalLedger then s.practical else s.filtered
  }

  ghost function TradesOf<S>(r: BarRecord<S>, ledger: Ledger): TradeSummary {
    if ledger == PracticalLedger then r.practicalTrades else r.filteredTrades
  }

  ghost function CloseOf<S>(setting: Setting<S>, r: BarRecord<S>): real
    requires r.index < |setting.bars|
  {
    setting.bars[r.index].close
  }

  ghost predicate Indexed<S>(setting: Setting<S>, trace: seq<BarRecord<S>>) {
    forall k :: 0 <= k < |trace| ==> trace[k].index < |setting.bars|
  }

  lemma RunIsIndexed<S>(setting: Setting<S>, trace: seq<BarRecord<S>>)
    requires RunOf(setting, trace)
    ensures Indexed(setting, trace)
  {
    hide Trades, OrdersOf, Observed;
    forall k | 0 <= k < |trace| ensures trace[k].index < |setting.bars| { StepOf(setting, trace, k); }
  }

  /** What price moves earn on a holding: before the trade from the last close, after it to the new close. */
  ghost function PriceGain(before: Portfolio, after: Portfolio, lastClose: real, tradePrice: real, close: real): real {
    TotalAsset(before) * (tradePrice - lastClose) + TotalAsset(after) * (close - tradePrice)
  }

  /** Contributions less costs plus price gains of the bars after `from` up to `to`. */
  ghost function NetGain<S>(setting: Setting<S>, trace: seq<BarRecord<S>>, ledger: Ledger, from: nat, upto: nat): real
    requires from <= upto < |trace| && Indexed(setting, trace)
    decreases upto
  {
    if from == upto then 0.0
    else
      var last, r := trace[upto - 1], trace[upto];
      NetGain(setting, trace, ledger, from, upto - 1) + r.contribution - TradesOf(r, ledger).costs.totalCost
      + PriceGain(Held(last.after, ledger), Held(r.after, ledger), CloseOf(setting, last), r.tradePrice, CloseOf(setting, r))
  }

  lemma GainBetween(before: Portfolio, after: Portfolio, lastClose: real, tradePrice: real, close: real, contribution: real, trades: TradeSummary)
    requires Balances(before, after, tradePrice, contribution, trades)
    ensures Equity(after, close) == Equity(before, lastClose) + contribution - trades.costs.totalCost + PriceGain(before, after, lastClose, tradePrice, close)
  {
    hide TotalAsset;
    var held, kept := TotalAsset(before), TotalAsset(after);
    assert held * (tradePrice - lastClose) == held * tradePrice - held * lastClose;
    assert kept * (close - tradePrice) == kept * close - kept * tradePrice;
  }

  /**
    Conservation over a run: between two executed bars either portfolio's value at the close moves
    by the contributions, less the reported costs, plus what price moves earn on the quantity held.
   */
  lemma {:induction false} RunConserves<S>(setting: Setting<S>, trace: seq<BarRecord<S>>, ledger: Ledger, from: nat, upto: nat)
    requires RunOf(setting, trace) && from <= upto < |trace|
    ensures Indexed(setting, trace)
    ensures Equity(Held(trace[upto].after, ledger), CloseOf(setting, trace[upto]))
         == Equity(Held(trace[from].after, ledger), CloseOf(setting, trace[from])) + NetGain(setting, trace, ledger, from, upto)
    decreases upto
  {
    hide Follows, Equity, PriceGain, Balances;
    RunIsIndexed(setting, trace);
    if from < upto {
      RunConserves(setting, trace, ledger, from, upto - 1);
      RunKeepsCoupling(setting, trace, upto);
      StepOf(setting, trace, upto);
      var last, r := trace[upto - 1], trace[upto];
      StepBalances(setting, last.after, r);
      GainBetween(Held(last.after, ledger), Held(r.after, ledger), CloseOf(setting, last), r.tradePrice, CloseOf(setting, r),
                  r.contribution, TradesOf(r, ledger));
    }
  }
}
