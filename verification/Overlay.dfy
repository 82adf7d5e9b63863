/**
  What the risk overlay does to the filtered portfolio over a run (internal/backtestcore/sigmoiddca.go):
  when risk-off begins it sells everything, when it ends, and whenever the practical portfolio is
  adjusted or money comes in afterwards, it moves towards the practical portfolio's share of assets,
  and otherwise it rests.
 */
module Overlay {
  import opened Wrappers
  import opened RealMath
  import opened Quant
  import opened Simulators
  import opened LongTermFilters
  import opened Backtest
  import opened Lots

  // ----- moving towards a target value

  /** What a portfolio's assets are worth. */
  ghost function Held(f: Portfolio, price: real): real {
    TotalAsset(f) * price
  }

  /** A sale that closes a surplus exactly, where it passes the minimums and the costs leave something. */
  ghost predicate SellsSurplus(f: Portfolio, c: SimulatorConfig, price: real, surplus: real, qty: real, g: Portfolio) {
    && qty * price == surplus
    && if surplus > c.minimumTradeUsd && qty >= c.minimumAssetQty && LowCosts(c) then
         Held(g, price) == Held(f, price) - surplus && g.usdt == f.usdt + qty * SoldAt(price, c) && TakenInOrder(f, g)
       else g == f
  }

  /**
    From holdings worth less than a target as much is bought, into the floating lot, as is missing and
    the cash allows; of holdings worth more the surplus is sold.
   */
  ghost predicate MovesTo(f: Portfolio, c: SimulatorConfig, price: real, target: real, g: Portfolio) {
    var held := Held(f, price);
    if held < target then BuysFor(f, c, price, Min(target - held, f.usdt), g)
    else if held > target then SellsFor(f, c, price, held - target, g)
    else g == f
  }

  ghost predicate BuysFor(f: Portfolio, c: SimulatorConfig, price: real, budget: real, g: Portfolio) {
    exists qty :: Purchases(f, c, price, budget, false, qty, g)
  }

  ghost predicate SellsFor(f: Portfolio, c: SimulatorConfig, price: real, surplus: real, g: Portfolio) {
    exists qty :: SellsSurplus(f, c, price, surplus, qty, g)
  }

  lemma EquityOfSolvent(f: Portfolio, price: real)
    requires Solvent(f) && price > 0.0
    ensures TotalAsset(f) * price >= 0.0 && Equity(f, price) >= TotalAsset(f) * price
    ensures Equity(f, price) <= 0.0 ==> f.usdt == 0.0 && TotalAsset(f) * price == 0.0
  {
    MulNonNegative(TotalAsset(f), price);
  }

  lemma BuysWhatIsMissing(f: Portfolio, c: SimulatorConfig, price: real, budget: real)
    requires Solvent(f) && NormalConfig(c) && price > 0.0 && budget <= f.usdt
    ensures BuysFor(f, c, price, budget, if budget > 0.0 then Executed(f, c, RebalanceBuy(budget), price).portfolio else f)
  {
    hide Executed, FillIntent, Purchases;
    var intent := TradeIntent(Buy, budget, 0.0, Floating);
    ExecutedSingle(f, c, intent, price);
    if budget > 0.0 {
      var qty := PurchaseMoves(f, c, price, intent);
    } else {
      TooLittleToSpend(f, c, price, budget);
    }
  }

  /** A rebalancing purchase without cash buys nothing. */
  lemma NoBudget(f: Portfolio, c: SimulatorConfig, price: real, budget: real)
    requires price > 0.0 && budget <= 0.0
    ensures Executed(f, c, RebalanceBuy(budget), price) == Outcome(f, NO_TRADE)
  {
    hide Executed;
    var intent := TradeIntent(Buy, budget, 0.0, Floating);
    ExecutedSingle(f, c, intent, price);
    OtherIntentsRest(f, c, price, intent);
  }

  lemma TooLittleToSpend(f: Portfolio, c: SimulatorConfig, price: real, budget: real)
    requires NormalConfig(c) && price > 0.0 && budget <= c.minimumTradeUsd
    ensures BuysFor(f, c, price, budget, f)
  {
    hide BoughtAt;
    BoughtPositive(price, c);
    QuotientTimes(budget, BoughtAt(price, c));
    assert Purchases(f, c, price, budget, false, budget / BoughtAt(price, c), f);
  }

  lemma SellsWhatIsOver(f: Portfolio, c: SimulatorConfig, price: real, surplus: real)
    requires Solvent(f) && NormalConfig(c) && price > 0.0 && surplus > c.minimumTradeUsd && surplus <= Held(f, price)
    ensures SellsFor(f, c, price, surplus, SoldAny(f, c, Min(Surplus(-surplus, price), TotalAsset(f)), price, true).portfolio)
  {
    hide SoldAny, Surplus, SoldAt, TotalAsset, TakenInOrder;
    SurplusWithin(f, -surplus, price);
    var qty := Surplus(-surplus, price);
    if qty <= 0.0 { MulNonPositive(qty, price); }
    SaleFromAllLots(f, c, qty, price, true);
    assert (TotalAsset(f) - qty) * price == TotalAsset(f) * price - qty * price;
    assert SellsSurplus(f, c, price, surplus, qty, SoldAny(f, c, qty, price, true).portfolio);
  }

  /** Without more than the minimum to sell nothing is sold. */
  lemma TooLittleOver(f: Portfolio, c: SimulatorConfig, price: real, surplus: real)
    requires price > 0.0 && surplus <= c.minimumTradeUsd
    ensures SellsFor(f, c, price, surplus, f)
  {
    hide TakenInOrder;
    QuotientTimes(surplus, price);
    assert SellsSurplus(f, c, price, surplus, surplus / price, f);
  }

  lemma BoughtPositive(price: real, c: SimulatorConfig)
    requires price > 0.0 && NormalConfig(c)
    ensures BoughtAt(price, c) > 0.0
  {
    MulPositive(price, 1.0 + c.costs.spreadRate);
    MulPositive(price * (1.0 + c.costs.spreadRate), 1.0 + c.costs.feeRate);
  }

  /** What a rebalancing does about a gap. */
  function Closed(f: Portfolio, c: SimulatorConfig, price: real, gap: real): Portfolio
    requires price > 0.0
  {
    if (if gap < 0.0 then -gap else gap) <= c.minimumTradeUsd then f
    else if gap > 0.0 then Executed(f, c, RebalanceBuy(Min(gap, f.usdt)), price).portfolio
    else SoldAny(f, c, Min(Surplus(gap, price), TotalAsset(f)), price, true).portfolio
  }

  lemma RebalancedCloses(f: Portfolio, c: SimulatorConfig, weight: real, price: real)
    requires price > 0.0 && Equity(f, price) > 0.0
    ensures Rebalanced(f, c, weight, price).portfolio == Closed(f, c, price, ExposureGap(f, weight, price))
  {
    hide Executed, SoldAny, Surplus, Equity, TotalAsset, RebalanceBuy, ExposureGap;
  }

  lemma ClosingMoves(f: Portfolio, c: SimulatorConfig, price: real, held: real, target: real)
    requires Solvent(f) && NormalConfig(c) && price > 0.0 && held == Held(f, price) && target >= 0.0
    ensures MovesTo(f, c, price, target, Closed(f, c, price, target - held))
  {
    hide Executed, SoldAny, Surplus, BuysFor, SellsFor, Held, RebalanceBuy;
    var gap := target - held;
    RebalanceCases(f, c, price, gap);
    NormalMinimums(c);
    assert held > target ==> held - target == -gap;
  }

  /** The worth of assets at a target weight. */
  ghost function TargetValue(f: Portfolio, weight: real, price: real): real {
    Equity(f, price) * Clip(weight, 0.0, 1.0)
  }

  lemma GapIs(f: Portfolio, weight: real, price: real)
    requires Solvent(f) && price > 0.0
    ensures ExposureGap(f, weight, price) == TargetValue(f, weight, price) - Held(f, price)
    ensures TargetValue(f, weight, price) >= 0.0
    ensures Equity(f, price) <= 0.0 ==> TargetValue(f, weight, price) == 0.0 == Held(f, price)
  {
    hide Equity;
    EquityOfSolvent(f, price);
    var share := Clip(weight, 0.0, 1.0);
    if Equity(f, price) <= 0.0 {
      NoShareOfNothing(Equity(f, price), share);
    } else {
      MulNonNegative(Equity(f, price), share);
    }
  }

  /** Rebalancing moves the holdings towards their target share of the equity. */
  lemma RebalanceMoves(f: Portfolio, c: SimulatorConfig, weight: real, price: real)
    requires Solvent(f) && NormalConfig(c) && price > 0.0
    ensures MovesTo(f, c, price, TargetValue(f, weight, price), Rebalanced(f, c, weight, price).portfolio)
  {
    hide Equity, TargetValue, Held, ExposureGap;
    GapIs(f, weight, price);
    if Equity(f, price) <= 0.0 {
      hide BuysFor, SellsFor;
      assert Rebalanced(f, c, weight, price).portfolio == f;
    } else {
      hide MovesTo, Closed, Rebalanced;
      RebalancedCloses(f, c, weight, price);
      ClosingMoves(f, c, price, Held(f, price), TargetValue(f, weight, price));
    }
  }

  lemma NormalMinimums(c: SimulatorConfig)
    requires NormalConfig(c)
    ensures c.minimumTradeUsd >= 0.0 && c.minimumAssetQty >= 0.0
  {
  }

  /** What each size of the gap to a target leads to. */
  lemma RebalanceCases(f: Portfolio, c: SimulatorConfig, price: real, gap: real)
    requires Solvent(f) && NormalConfig(c) && price > 0.0 && Held(f, price) + gap >= 0.0
    ensures 0.0 < gap <= c.minimumTradeUsd ==> BuysFor(f, c, price, Min(gap, f.usdt), f)
    ensures gap > 0.0 ==> BuysFor(f, c, price, Min(gap, f.usdt), Executed(f, c, RebalanceBuy(Min(gap, f.usdt)), price).portfolio)
    ensures 0.0 < -gap <= c.minimumTradeUsd ==> SellsFor(f, c, price, -gap, f)
    ensures -gap > c.minimumTradeUsd ==> SellsFor(f, c, price, -gap, SoldAny(f, c, Min(Surplus(gap, price), TotalAsset(f)), price, true).portfolio)
  {
    hide Executed, SoldAny, BuysFor, SellsFor, Held, RebalanceBuy, Surplus;
    if gap > 0.0 {
      var budget := Min(gap, f.usdt);
      BuysWhatIsMissing(f, c, price, budget);
      if budget <= 0.0 { NoBudget(f, c, price, budget); }
      if gap <= c.minimumTradeUsd { TooLittleToSpend(f, c, price, budget); }
    } else if -gap <= c.minimumTradeUsd {
      TooLittleOver(f, c, price, -gap);
    } else {
      SellsWhatIsOver(f, c, price, -gap);
    }
  }

  lemma NoShareOfNothing(equity: real, share: real)
    requires equity == 0.0
    ensures equity * share == 0.0
  {
  }

  // ----- the practical portfolio's share

  /** What the filtered portfolio would hold at the practical portfolio's share of assets. */
  ghost function MirroredValue(f: Portfolio, p: Portfolio, price: real): real {
    if Equity(p, price) <= 0.0 then 0.0 else Equity(f, price) * (Held(p, price) / Equity(p, price))
  }

  lemma ExposureIsShare(f: Portfolio, p: Portfolio, price: real)
    requires Solvent(p) && price > 0.0
    ensures TargetValue(f, ActualExposure(p, price), price) == MirroredValue(f, p, price)
  {
    hide Equity, Held, ActualExposure;
    ExposureIs(p, price);
    NoShareOfNothing(0.0, Equity(f, price));
  }

  lemma ExposureIs(p: Portfolio, price: real)
    requires Solvent(p) && price > 0.0
    ensures Clip(ActualExposure(p, price), 0.0, 1.0) == if Equity(p, price) <= 0.0 then 0.0 else Held(p, price) / Equity(p, price)
  {
    hide Equity, TotalAsset;
    EquityOfSolvent(p, price);
    if Equity(p, price) > 0.0 {
      if TotalAsset(p) <= 0.0 {
        NoLots(p);
        NoShareOfNothing(TotalAsset(p), price);
      }
      ShareWithin(Held(p, price), Equity(p, price));
    }
  }

  lemma NoLots(p: Portfolio)
    requires Solvent(p) && TotalAsset(p) <= 0.0
    ensures TotalAsset(p) == 0.0
  {
  }

  lemma ShareWithin(held: real, equity: real)
    requires 0.0 <= held <= equity && equity > 0.0
    ensures 0.0 <= held / equity <= 1.0
    ensures held == 0.0 ==> held / equity == 0.0
  {
    QuotientTimes(held, equity);
    var q := held / equity;
    SignOfFactor(q, equity);
    SignOfFactor(1.0 - q, equity);
  }

  // ----- the overlay over one bar

  /** Orders that ask for a trade or a transfer. */
  ghost predicate Asks(orders: Option<StrategyOutput>) {
    && orders.Some?
    && (|orders.value.lotTransfers| > 0
        || exists i :: 0 <= i < |orders.value.intents| && AsksFor(orders.value.intents[i]))
  }

  ghost predicate AsksFor(intent: TradeIntent) {
    || (intent.action == Buy && intent.amountUsdt > 0.0)
    || (intent.action == Sell && intent.qtyAsset > 0.0)
  }

  /** The orders that a bar executes. */
  ghost function OrdersAt<S>(setting: Setting<S>, before: Standing<S>, r: BarRecord<S>): Option<StrategyOutput> {
    if setting.spec.executionMode == CloseNextOpen then before.pendingOutput else Some(r.output)
  }

  /** The filtered portfolio over one bar, from what it holds with the contribution. */
  ghost predicate OverlayMoves<S>(setting: Setting<S>, before: Standing<S>, r: BarRecord<S>) {
    var c, price := setting.spec.simulator, r.tradePrice;
    var f := before.filtered.(usdt := before.filtered.usdt + r.contribution);
    var g := r.after.filtered;
    match r.event
    case Enter =>
      if LowCosts(c) then NoAsset(g) && g.usdt == f.usdt + TotalAsset(f) * SoldAt(price, c) else g == f
    case Exit => MovesTo(f, c, price, MirroredValue(f, r.after.practical, price), g)
    case Quiet =>
      if before.riskOff then g == f
      else if !before.diverged then g == r.after.practical
      else if Asks(OrdersAt(setting, before, r)) || r.contribution > 0.0 then MovesTo(f, c, price, MirroredValue(f, r.after.practical, price), g)
      else g == f
  }

  lemma AdjustsIsAsking(orders: Option<StrategyOutput>)
    ensures OrdersOf(orders).adjusts <==> Asks(orders)
    ensures OrdersOf(orders).present <==> orders.Some?
    ensures Asks(orders) ==> orders.Some?
  {
    if orders.Some? {
      forall i | 0 <= i < |orders.value.intents| ensures Adjusts(orders.value.intents[i]) <==> AsksFor(orders.value.intents[i]) {
      }
    }
  }

  lemma LiquidationPays(f: Portfolio, c: SimulatorConfig, price: real)
    requires Solvent(f) && NormalConfig(c) && price > 0.0
    ensures var g := Liquidated(f, c, price).portfolio;
            if LowCosts(c) then NoAsset(g) && g.usdt == f.usdt + TotalAsset(f) * SoldAt(price, c) else g == f
  {
    hide SoldAny, SoldAt;
    SaleFromAllLots(f, c, TotalAsset(f), price, false);
    if LowCosts(c) {
      LiquidationEmpties(f, c, price);
      if TotalAsset(f) <= 0.0 { NoShareOfNothing(TotalAsset(f), SoldAt(price, c)); }
    }
  }

  /** What trades on a bar has a price to trade at. */
  lemma TradesAtAPrice<S>(setting: Setting<S>, before: Standing<S>, r: BarRecord<S>)
    requires Follows(setting, before, r)
    requires r.event != Quiet || (before.diverged && !before.riskOff && (Asks(OrdersAt(setting, before, r)) || r.contribution > 0.0))
    ensures r.tradePrice > 0.0
  {
    hide Trades, Observed, AsksFor;
  }

  /** The trade of a bar, whichever orders it executes. */
  lemma TradeOfBar<S>(setting: Setting<S>, before: Standing<S>, r: BarRecord<S>)
    requires Follows(setting, before, r)
    ensures Trades(setting, before, r, OrdersOf(OrdersAt(setting, before, r)))
  {
    hide Trades, Observed, Executable, OrdersOf;
  }

  /** The two cases in which the overlay rebalances. */
  lemma Mirrors<S>(setting: Setting<S>, before: Standing<S>, r: BarRecord<S>)
    requires NormalSpec(setting.spec, setting.bars) && Follows(setting, before, r) && Coupled(setting.spec.simulator, before)
    requires r.event == Exit || (r.event == Quiet && before.diverged && !before.riskOff && (Asks(OrdersAt(setting, before, r)) || r.contribution > 0.0))
    ensures MovesTo(AddCash(before.filtered, r.contribution), setting.spec.simulator, r.tradePrice,
                    MirroredValue(AddCash(before.filtered, r.contribution), r.after.practical, r.tradePrice), r.after.filtered)
  {
    hide Follows, Executed, Liquidated, Rebalanced, ActualExposure, OrdersOf, Asks, MovesTo, MirroredValue, TargetValue, PracticalStep, Coupled, NormalSpec;
    var f, price := AddCash(before.filtered, r.contribution), r.tradePrice;
    TradeOfBar(setting, before, r);
    AdjustsIsAsking(OrdersAt(setting, before, r));
    SolventWithContribution(setting, before, r);
    TradesAtAPrice(setting, before, r);
    var weight := ActualExposure(r.after.practical, price);
    RebalanceMoves(f, setting.spec.simulator, weight, price);
    ExposureIsShare(f, r.after.practical, price);
  }

  lemma StepMoves<S>(setting: Setting<S>, before: Standing<S>, r: BarRecord<S>)
    requires NormalSpec(setting.spec, setting.bars) && Follows(setting, before, r) && Coupled(setting.spec.simulator, before)
    ensures OverlayMoves(setting, before, r)
  {
    hide Follows, Executed, Liquidated, Rebalanced, ActualExposure, OrdersOf, Asks, MovesTo, MirroredValue, SoldAt, PracticalStep, Coupled, NormalSpec;
    var f, orders := AddCash(before.filtered, r.contribution), OrdersAt(setting, before, r);
    TradeOfBar(setting, before, r);
    AdjustsIsAsking(orders);
    SolventWithContribution(setting, before, r);
    if r.event == Enter {
      TradesAtAPrice(setting, before, r);
      LiquidationPays(f, setting.spec.simulator, r.tradePrice);
    } else if r.event == Exit {
      Mirrors(setting, before, r);
    } else if !before.riskOff && !before.diverged {
      TogetherAfter(setting, before, r);
    } else if !before.riskOff && (Asks(orders) || r.contribution > 0.0) {
      Mirrors(setting, before, r);
    }
  }

  lemma SolventWithContribution<S>(setting: Setting<S>, before: Standing<S>, r: BarRecord<S>)
    requires NormalSpec(setting.spec, setting.bars) && Follows(setting, before, r) && Coupled(setting.spec.simulator, before)
    ensures NormalConfig(setting.spec.simulator) && Solvent(AddCash(before.filtered, r.contribution)) && Solvent(r.after.practical)
  {
    StepBalances(setting, before, r);
    hide Trades, Observed, Executable;
  }

  lemma TogetherAfter<S>(setting: Setting<S>, before: Standing<S>, r: BarRecord<S>)
    requires Follows(setting, before, r) && Coupled(setting.spec.simulator, before)
    requires !before.riskOff && !before.diverged && r.event == Quiet
    ensures r.after.filtered == r.after.practical
  {
    hide Follows;
    StepKeepsTogether(setting, before, r);
  }

  /** On every bar of every run the overlay does exactly that. */
  lemma OverlayFollows<S>(setting: Setting<S>, trace: seq<BarRecord<S>>, k: nat)
    requires RunOf(setting, trace) && k < |trace|
    ensures OverlayMoves(setting, At(setting, trace, k), trace[k])
  {
    hide Follows, OverlayMoves, Coupled;
    StepOf(setting, trace, k);
    RunKeepsCoupling(setting, trace, k);
    StepMoves(setting, At(setting, trace, k), trace[k]);
  }

  /**
    When risk-off ends and the sale passes the minimums, the filtered portfolio holds exactly the practical
    portfolio's share of assets.
   */
  lemma ExitSellsToShare<S>(setting: Setting<S>, trace: seq<BarRecord<S>>, k: nat)
    requires RunOf(setting, trace) && k < |trace| && trace[k].event == Exit && LowCosts(setting.spec.simulator)
    requires var f := AddCash(At(setting, trace, k).filtered, trace[k].contribution);
             var surplus := Held(f, trace[k].tradePrice) - MirroredValue(f, trace[k].after.practical, trace[k].tradePrice);
             && surplus > setting.spec.simulator.minimumTradeUsd
             && surplus >= setting.spec.simulator.minimumAssetQty * trace[k].tradePrice
    ensures var f := AddCash(At(setting, trace, k).filtered, trace[k].contribution);
            Held(trace[k].after.filtered, trace[k].tradePrice) == MirroredValue(f, trace[k].after.practical, trace[k].tradePrice)
  {
    hide MirroredValue, Held, SoldAt, SellsFor, BuysFor, Follows, RunOf;
    var before, r, c := At(setting, trace, k), trace[k], setting.spec.simulator;
    StepOf(setting, trace, k);
    TradesAtAPrice(setting, before, r);
    OverlayFollows(setting, trace, k);
    NormalMinimum(setting, trace);
    var f := AddCash(before.filtered, r.contribution);
    var surplus := Held(f, r.tradePrice) - MirroredValue(f, r.after.practical, r.tradePrice);
    SurplusSold(f, c, r.tradePrice, surplus, r.after.filtered);
  }

  lemma SurplusSold(f: Portfolio, c: SimulatorConfig, price: real, surplus: real, g: Portfolio)
    requires SellsFor(f, c, price, surplus, g) && price > 0.0 && LowCosts(c)
    requires surplus > c.minimumTradeUsd && surplus >= c.minimumAssetQty * price
    ensures Held(g, price) == Held(f, price) - surplus
  {
    hide Held, SoldAt, TakenInOrder;
    var qty :| SellsSurplus(f, c, price, surplus, qty, g);
    if qty < c.minimumAssetQty { MulStrict(price, qty, c.minimumAssetQty); }
  }

  lemma NormalMinimum<S>(setting: Setting<S>, trace: seq<BarRecord<S>>)
    requires RunOf(setting, trace)
    ensures setting.spec.simulator.minimumTradeUsd >= 0.0 && setting.spec.simulator.minimumAssetQty >= 0.0
  {
  }

  /** The practical portfolio begins with the capital in cash and the asset sealed, and never touches what is sealed. */
  lemma {:induction false} PracticalKeepsSealed<S>(setting: Setting<S>, trace: seq<BarRecord<S>>, k: nat)
    requires RunOf(setting, trace) && k <= |trace|
    ensures At(setting, trace, k).practical.coldSealed == setting.spec.initialAsset
    ensures k == 0 ==> At(setting, trace, k).practical == At(setting, trace, k).filtered
                       && At(setting, trace, k).practical.usdt == setting.spec.initialCapital
                       && At(setting, trace, k).practical.dead == 0.0 == At(setting, trace, k).practical.floating
  {
    hide Follows, Executed, PrefixMemory, PrefixSignals;
    if k > 0 {
      PracticalKeepsSealed(setting, trace, k - 1);
      StepOf(setting, trace, k - 1);
      RunKeepsCoupling(setting, trace, k - 1);
      StepKeepsSealed(setting, At(setting, trace, k - 1), trace[k - 1]);
    }
  }

  lemma StepKeepsSealed<S>(setting: Setting<S>, before: Standing<S>, r: BarRecord<S>)
    requires NormalSpec(setting.spec, setting.bars) && Follows(setting, before, r) && Coupled(setting.spec.simulator, before)
    ensures r.after.practical.coldSealed == before.practical.coldSealed
  {
    hide Follows, Executed, FilteredStep, ActualExposure;
    var orders := OrdersOf(OrdersAt(setting, before, r));
    TradeOfBar(setting, before, r);
    ContributionNotNegative(setting, before, r);
    ExecutionKeepsSealed(AddCash(before.practical, r.contribution), setting.spec.simulator, orders.output, r.tradePrice);
  }

  lemma ContributionNotNegative<S>(setting: Setting<S>, before: Standing<S>, r: BarRecord<S>)
    requires NormalSpec(setting.spec, setting.bars) && Follows(setting, before, r)
    ensures r.contribution >= 0.0
  {
    hide Trades, Observed, Executable;
  }
}
