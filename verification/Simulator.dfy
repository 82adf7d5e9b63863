/**
  The portfolio simulator (internal/backtestcore/simulator.go): lot transfers, trades, rebalancing
  and liquidation at a price, with the conservation of value through every operation.
 */
module Simulators {
  import opened RealMath
  import opened Quant
  import opened ExecutionCosts

  datatype Action = Buy | Sell | OtherAction

  datatype LotType = DeadStack | Floating | ColdSealed

  datatype TradeIntent = TradeIntent(action: Action, amountUsdt: real, qtyAsset: real, lotType: LotType)

  datatype LotTransfer = LotTransfer(fromLotType: LotType, toLotType: LotType, amount: real)

  datatype StrategyOutput = StrategyOutput(intents: seq<TradeIntent>, lotTransfers: seq<LotTransfer>)

  datatype Portfolio = Portfolio(usdt: real, dead: real, floating: real, coldSealed: real)

  datatype SimulatorConfig = SimulatorConfig(costs: ExecutionCostConfig, minimumTradeUsd: real, minimumAssetQty: real)

  datatype CostSummary = CostSummary(feeCost: real, slippageCost: real, totalCost: real)

  datatype TradeSummary = TradeSummary(tradeCount: nat, buyCount: nat, sellCount: nat, buyNotional: real, sellNotional: real, costs: CostSummary)

  const NO_COST := CostSummary(0.0, 0.0, 0.0)
  const NO_TRADE := TradeSummary(0, 0, 0, 0.0, 0.0, NO_COST)

  function AddCosts(a: CostSummary, b: CostSummary): CostSummary {
    CostSummary(a.feeCost + b.feeCost, a.slippageCost + b.slippageCost, a.totalCost + b.totalCost)
  }

  function AddTrades(a: TradeSummary, b: TradeSummary): TradeSummary {
    TradeSummary(a.tradeCount + b.tradeCount, a.buyCount + b.buyCount, a.sellCount + b.sellCount,
                 a.buyNotional + b.buyNotional, a.sellNotional + b.sellNotional, AddCosts(a.costs, b.costs))
  }

  function TotalAsset(p: Portfolio): real {
    p.dead + p.floating + p.coldSealed
  }

  function Equity(p: Portfolio, price: real): real {
    p.usdt + TotalAsset(p) * price
  }

  /** Cash and every lot are non-negative. */
  predicate Solvent(p: Portfolio) {
    p.usdt >= 0.0 && p.dead >= 0.0 && p.floating >= 0.0 && p.coldSealed >= 0.0
  }

  predicate NoAsset(p: Portfolio) {
    p.dead == 0.0 && p.floating == 0.0 && p.coldSealed == 0.0
  }

  predicate NormalConfig(c: SimulatorConfig) {
    c.costs.feeRate >= 0.0 && c.costs.spreadRate >= 0.0 && c.minimumTradeUsd >= 0.0 && c.minimumAssetQty >= 0.0
  }

  /** Costs below one: selling always brings in cash. */
  predicate LowCosts(c: SimulatorConfig) {
    c.costs.feeRate < 1.0 && c.costs.spreadRate < 1.0
  }

  // ----- what one operation does

  function MoveLot(p: Portfolio, t: LotTransfer): Portfolio {
    if t.fromLotType != DeadStack || t.toLotType != Floating || t.amount <= 0.0 then p
    else
      var amount := Min(t.amount, p.dead);
      p.(dead := p.dead - amount, floating := p.floating + amount)
  }

  function MoveLots(p: Portfolio, ts: seq<LotTransfer>, n: nat): Portfolio
    requires n <= |ts|
  {
    if n == 0 then p else MoveLot(MoveLots(p, ts, n - 1), ts[n - 1])
  }

  /** Fee and slippage of buying a quantity: what was paid above the quoted price. */
  function BuyCosts(qty: real, price: real, costs: ExecutionCostConfig): CostSummary {
    var fill := AskPrice(price, costs);
    var fee, slippage := qty * fill * costs.feeRate, qty * (fill - price);
    CostSummary(fee, slippage, fee + slippage)
  }

  function SellCosts(qty: real, price: real, costs: ExecutionCostConfig): CostSummary {
    var fill := BidPrice(price, costs);
    var fee, slippage := qty * fill * costs.feeRate, qty * (price - fill);
    CostSummary(fee, slippage, fee + slippage)
  }

  datatype Outcome = Outcome(portfolio: Portfolio, summary: TradeSummary)

  function BuyIntent(p: Portfolio, c: SimulatorConfig, price: real, intent: TradeIntent): Outcome {
    var requested := Min(intent.amountUsdt, p.usdt);
    if requested <= c.minimumTradeUsd then Outcome(p, NO_TRADE)
    else
      var (qty, spent) := BuyQuantityForCash(requested, price, c.costs);
      if qty <= 0.0 || spent <= 0.0 || qty < c.minimumAssetQty then Outcome(p, NO_TRADE)
      else
        var paid := p.(usdt := p.usdt - spent);
        var held := if intent.lotType == DeadStack then paid.(dead := paid.dead + qty) else paid.(floating := paid.floating + qty);
        Outcome(held, TradeSummary(1, 1, 0, qty * price, 0.0, BuyCosts(qty, price, c.costs)))
  }

  function SellIntent(p: Portfolio, c: SimulatorConfig, price: real, intent: TradeIntent): Outcome {
    var qty := Min(intent.qtyAsset, p.floating);
    if qty <= 0.0 || qty < c.minimumAssetQty || qty * price <= c.minimumTradeUsd then Outcome(p, NO_TRADE)
    else
      var proceeds := SellProceedsForQuantity(qty, price, c.costs);
      if proceeds <= 0.0 then Outcome(p, NO_TRADE)
      else
        Outcome(p.(floating := p.floating - qty, usdt := p.usdt + proceeds),
                TradeSummary(1, 0, 1, 0.0, qty * price, SellCosts(qty, price, c.costs)))
  }

  function FillIntent(p: Portfolio, c: SimulatorConfig, price: real, intent: TradeIntent): Outcome {
    if intent.action == Buy && intent.amountUsdt > 0.0 then BuyIntent(p, c, price, intent)
    else if intent.action == Sell && intent.qtyAsset > 0.0 then SellIntent(p, c, price, intent)
    else Outcome(p, NO_TRADE)
  }

  /** The first n intents, one after the other. */
  function FillIntents(p: Portfolio, c: SimulatorConfig, price: real, intents: seq<TradeIntent>, n: nat): Outcome
    requires n <= |intents|
  {
    if n == 0 then Outcome(p, NO_TRADE)
    else
      var before := FillIntents(p, c, price, intents, n - 1);
      var step := FillIntent(before.portfolio, c, price, intents[n - 1]);
      Outcome(step.portfolio, AddTrades(before.summary, step.summary))
  }

  function Executed(p: Portfolio, c: SimulatorConfig, output: StrategyOutput, price: real): Outcome {
    if price <= 0.0 then Outcome(p, NO_TRADE)
    else FillIntents(MoveLots(p, output.lotTransfers, |output.lotTransfers|), c, price, output.intents, |output.intents|)
  }

  /** Takes a quantity from the floating, then the dead, then the sealed lots. */
  function TakeAsset(p: Portfolio, qty: real): Portfolio {
    var fromFloating := Min(qty, p.floating);
    var fromDead := Min(qty - fromFloating, p.dead);
    var fromSealed := Min(qty - fromFloating - fromDead, p.coldSealed);
    p.(floating := p.floating - fromFloating, dead := p.dead - fromDead, coldSealed := p.coldSealed - fromSealed)
  }

  function SoldAny(p: Portfolio, c: SimulatorConfig, wanted: real, price: real, respectMinimum: bool): Outcome {
    if price <= 0.0 || wanted <= 0.0 then Outcome(p, NO_TRADE)
    else
      var qty := Min(wanted, TotalAsset(p));
      if respectMinimum && (qty < c.minimumAssetQty || qty * price <= c.minimumTradeUsd) then Outcome(p, NO_TRADE)
      else
        var proceeds := SellProceedsForQuantity(qty, price, c.costs);
        if proceeds <= 0.0 then Outcome(p, NO_TRADE)
        else
          var taken := TakeAsset(p, qty);
          Outcome(taken.(usdt := taken.usdt + proceeds), TradeSummary(1, 0, 1, 0.0, qty * price, SellCosts(qty, price, c.costs)))
  }

  function Liquidated(p: Portfolio, c: SimulatorConfig, price: real): Outcome {
    SoldAny(p, c, TotalAsset(p), price, false)
  }

  /** The single intent of a rebalancing purchase. */
  function RebalanceBuy(amount: real): StrategyOutput {
    StrategyOutput([TradeIntent(Buy, amount, 0.0, Floating)], [])
  }

  /** The value still missing from the target exposure; negative when there is too much. */
  function ExposureGap(p: Portfolio, targetWeight: real, price: real): real {
    Equity(p, price) * Clip(targetWeight, 0.0, 1.0) - TotalAsset(p) * price
  }

  /** The quantity whose sale closes a negative gap. */
  function Surplus(gap: real, price: real): real
    requires price > 0.0
  {
    -gap / price
  }

  function Rebalanced(p: Portfolio, c: SimulatorConfig, targetWeight: real, price: real): Outcome {
    if price <= 0.0 || Equity(p, price) <= 0.0 then Outcome(p, NO_TRADE)
    else
      var delta := ExposureGap(p, targetWeight, price);
      if (if delta < 0.0 then -delta else delta) <= c.minimumTradeUsd then Outcome(p, NO_TRADE)
      else if delta > 0.0 then Executed(p, c, RebalanceBuy(Min(delta, p.usdt)), price)
      else SoldAny(p, c, Min(Surplus(delta, price), TotalAsset(p)), price, true)
  }

  // ----- every operation conserves value and keeps the portfolio solvent

  /** Value at the price moves by exactly the reported cost, and nothing goes negative. */
  ghost predicate Conserves(p: Portfolio, price: real, o: Outcome) {
    && Solvent(o.portfolio)
    && Equity(o.portfolio, price) == Equity(p, price) - o.summary.costs.totalCost
    && o.summary.costs.totalCost == o.summary.costs.feeCost + o.summary.costs.slippageCost
    && o.summary.costs.feeCost >= 0.0 && o.summary.costs.slippageCost >= 0.0
    && o.summary.tradeCount == o.summary.buyCount + o.summary.sellCount
  }

  lemma NoTradeConserves(p: Portfolio, price: real)
    requires Solvent(p)
    ensures Conserves(p, price, Outcome(p, NO_TRADE))
  {
  }

  lemma MoveLotConserves(p: Portfolio, t: LotTransfer)
    requires Solvent(p)
    ensures Solvent(MoveLot(p, t)) && TotalAsset(MoveLot(p, t)) == TotalAsset(p) && MoveLot(p, t).usdt == p.usdt
  {
  }

  lemma {:induction false} MoveLotsConserve(p: Portfolio, ts: seq<LotTransfer>, n: nat)
    requires Solvent(p) && n <= |ts|
    ensures var q := MoveLots(p, ts, n); Solvent(q) && TotalAsset(q) == TotalAsset(p) && q.usdt == p.usdt
  {
    if n > 0 {
      MoveLotsConserve(p, ts, n - 1);
      MoveLotConserves(MoveLots(p, ts, n - 1), ts[n - 1]);
    }
  }

  lemma BuyCostIs(qty: real, price: real, costs: ExecutionCostConfig)
    requires qty > 0.0 && price > 0.0 && costs.feeRate >= 0.0 && costs.spreadRate >= 0.0
    ensures var b := BuyCosts(qty, price, costs);
            b.feeCost >= 0.0 && b.slippageCost >= 0.0 && b.totalCost == b.feeCost + b.slippageCost == qty * UnitCost(price, costs) - qty * price
  {
    hide AskPrice;
    UnitCostAbovePrice(price, costs);
    var fill := AskPrice(price, costs);
    MulNonNegative(qty, fill - price);
    MulNonNegative(qty, fill);
    MulNonNegative(qty * fill, costs.feeRate);
    BuyAlgebra(qty, price, fill, costs.feeRate);
  }

  lemma BuyAlgebra(qty: real, price: real, fill: real, fee: real)
    ensures qty * fill * fee + qty * (fill - price) == qty * (fill * (1.0 + fee)) - qty * price
  {
  }

  lemma SellCostIs(qty: real, price: real, costs: ExecutionCostConfig)
    requires qty > 0.0 && price > 0.0 && costs.feeRate >= 0.0 && 0.0 <= costs.spreadRate < 1.0
    ensures var s := SellCosts(qty, price, costs);
            s.feeCost >= 0.0 && s.slippageCost >= 0.0 && s.totalCost == s.feeCost + s.slippageCost == qty * price - qty * BidPrice(price, costs) * (1.0 - costs.feeRate)
  {
    BidSign(price, costs);
    BidBelowPrice(price, costs);
    hide BidPrice;
    var fill := BidPrice(price, costs);
    MulNonNegative(qty, price - fill);
    MulNonNegative(qty, fill);
    MulNonNegative(qty * fill, costs.feeRate);
    SellAlgebra(qty, price, fill, costs.feeRate);
  }

  lemma BidBelowPrice(price: real, costs: ExecutionCostConfig)
    requires price > 0.0 && costs.spreadRate >= 0.0
    ensures BidPrice(price, costs) <= price
  {
    MulMonotone(price, 1.0 - costs.spreadRate, 1.0);
  }

  lemma SellAlgebra(qty: real, price: real, fill: real, fee: real)
    ensures qty * fill * fee + qty * (price - fill) == qty * price - qty * fill * (1.0 - fee)
  {
  }

  /** Moving cash and quantity moves equity by the cash and the quantity's value. */
  lemma EquityMoves(p: Portfolio, q: Portfolio, cash: real, qty: real, price: real)
    requires q.usdt == p.usdt + cash && TotalAsset(q) == TotalAsset(p) + qty
    ensures Equity(q, price) == Equity(p, price) + cash + qty * price
  {
    hide TotalAsset;
    var a := TotalAsset(p);
    assert (a + qty) * price == a * price + qty * price;
  }

  lemma BuyConserves(p: Portfolio, c: SimulatorConfig, price: real, intent: TradeIntent)
    requires Solvent(p) && NormalConfig(c) && price > 0.0 && intent.amountUsdt > 0.0
    ensures Conserves(p, price, BuyIntent(p, c, price, intent))
  {
    hide BuyCosts, UnitCost, Equity;
    var requested := Min(intent.amountUsdt, p.usdt);
    var o := BuyIntent(p, c, price, intent);
    var (qty, spent) := BuyQuantityForCash(requested, price, c.costs);
    if o.summary != NO_TRADE {
      BuyCostIs(qty, price, c.costs);
      EquityMoves(p, o.portfolio, -spent, qty, price);
    }
  }

  lemma SellConserves(p: Portfolio, c: SimulatorConfig, price: real, intent: TradeIntent)
    requires Solvent(p) && NormalConfig(c) && price > 0.0
    ensures Conserves(p, price, SellIntent(p, c, price, intent))
  {
    hide SellCosts, SellProceedsForQuantity, Equity;
    var qty := Min(intent.qtyAsset, p.floating);
    var o := SellIntent(p, c, price, intent);
    if o.summary != NO_TRADE {
      SaleBalances(qty, price, c.costs);
      EquityMoves(p, o.portfolio, SellProceedsForQuantity(qty, price, c.costs), -qty, price);
    }
  }

  /** Proceeds fall short of the sold value by exactly the reported cost. */
  lemma SaleBalances(qty: real, price: real, costs: ExecutionCostConfig)
    requires costs.feeRate >= 0.0 && costs.spreadRate >= 0.0 && SellProceedsForQuantity(qty, price, costs) > 0.0
    ensures var s := SellCosts(qty, price, costs);
            && s.feeCost >= 0.0 && s.slippageCost >= 0.0 && s.totalCost == s.feeCost + s.slippageCost
            && SellProceedsForQuantity(qty, price, costs) == qty * price - s.totalCost
  {
    ProceedsPositive(qty, price, costs);
    SellCostIs(qty, price, costs);
  }

  lemma FillConserves(p: Portfolio, c: SimulatorConfig, price: real, intent: TradeIntent)
    requires Solvent(p) && NormalConfig(c) && price > 0.0
    ensures Conserves(p, price, FillIntent(p, c, price, intent))
  {
    hide BuyIntent, SellIntent, Conserves;
    NoTradeConserves(p, price);
    if intent.action == Buy && intent.amountUsdt > 0.0 {
      BuyConserves(p, c, price, intent);
    } else {
      SellConserves(p, c, price, intent);
    }
  }

  lemma {:induction false} FillsConserve(p: Portfolio, c: SimulatorConfig, price: real, intents: seq<TradeIntent>, n: nat)
    requires Solvent(p) && NormalConfig(c) && price > 0.0 && n <= |intents|
    ensures Conserves(p, price, FillIntents(p, c, price, intents, n))
  {
    hide FillIntent, Equity;
    if n == 0 {
      NoTradeConserves(p, price);
    } else {
      FillsConserve(p, c, price, intents, n - 1);
      FillConserves(FillIntents(p, c, price, intents, n - 1).portfolio, c, price, intents[n - 1]);
    }
  }

  /** Executing any strategy output conserves value. */
  lemma ExecuteConserves(p: Portfolio, c: SimulatorConfig, output: StrategyOutput, price: real)
    requires Solvent(p) && NormalConfig(c)
    ensures Conserves(p, price, Executed(p, c, output, price))
  {
    hide FillIntents, MoveLots;
    NoTradeConserves(p, price);
    if price > 0.0 {
      var moved := MoveLots(p, output.lotTransfers, |output.lotTransfers|);
      MoveLotsConserve(p, output.lotTransfers, |output.lotTransfers|);
      FillsConserve(moved, c, price, output.intents, |output.intents|);
    }
  }

  lemma TakeAssetTakes(p: Portfolio, qty: real)
    requires Solvent(p) && 0.0 <= qty <= TotalAsset(p)
    ensures Solvent(TakeAsset(p, qty)) && TotalAsset(TakeAsset(p, qty)) == TotalAsset(p) - qty
    ensures TakeAsset(p, qty).usdt == p.usdt
    ensures qty == TotalAsset(p) ==> NoAsset(TakeAsset(p, qty))
  {
  }

  lemma SoldAnyConserves(p: Portfolio, c: SimulatorConfig, wanted: real, price: real, respectMinimum: bool)
    requires Solvent(p) && NormalConfig(c)
    ensures Conserves(p, price, SoldAny(p, c, wanted, price, respectMinimum))
  {
    hide SellCosts, SellProceedsForQuantity, TakeAsset, Equity;
    var qty := Min(wanted, TotalAsset(p));
    var o := SoldAny(p, c, wanted, price, respectMinimum);
    if o.summary != NO_TRADE {
      SaleBalances(qty, price, c.costs);
      ProceedsPositive(qty, price, c.costs);
      TakeAssetTakes(p, qty);
      EquityMoves(p, o.portfolio, SellProceedsForQuantity(qty, price, c.costs), -qty, price);
    }
  }

  /** Liquidation with costs below one leaves no asset in any lot. */
  lemma LiquidationEmpties(p: Portfolio, c: SimulatorConfig, price: real)
    requires Solvent(p) && NormalConfig(c) && LowCosts(c) && price > 0.0
    ensures NoAsset(Liquidated(p, c, price).portfolio)
  {
    hide SellCosts, SellProceedsForQuantity, TakeAsset;
    ProceedsPositive(TotalAsset(p), price, c.costs);
    if TotalAsset(p) > 0.0 { TakeAssetTakes(p, TotalAsset(p)); }
  }

  /** With a fee or spread of one or more, liquidation sells nothing at all. */
  lemma LiquidationRefused(p: Portfolio, c: SimulatorConfig, price: real)
    requires Solvent(p) && NormalConfig(c) && !LowCosts(c)
    ensures Liquidated(p, c, price) == Outcome(p, NO_TRADE)
  {
    hide SellCosts, SellProceedsForQuantity, TakeAsset;
    ProceedsPositive(TotalAsset(p), price, c.costs);
  }

  lemma RebalanceConserves(p: Portfolio, c: SimulatorConfig, targetWeight: real, price: real)
    requires Solvent(p) && NormalConfig(c)
    ensures Conserves(p, price, Rebalanced(p, c, targetWeight, price))
  {
    hide Executed, SoldAny, Conserves, ExposureGap, Surplus, Equity;
    NoTradeConserves(p, price);
    if price > 0.0 {
      var delta := ExposureGap(p, targetWeight, price);
      ExecuteConserves(p, c, RebalanceBuy(Min(delta, p.usdt)), price);
      SoldAnyConserves(p, c, Min(Surplus(delta, price), TotalAsset(p)), price, true);
    }
  }

  /** A rebalance that trades moves the exposure towards the target value and never beyond it. */
  lemma RebalanceTowardsTarget(p: Portfolio, c: SimulatorConfig, targetWeight: real, price: real)
    requires Solvent(p) && NormalConfig(c) && price > 0.0
    requires Rebalanced(p, c, targetWeight, price).summary != NO_TRADE
    ensures var q, target := Rebalanced(p, c, targetWeight, price).portfolio, Equity(p, price) * Clip(targetWeight, 0.0, 1.0);
            var before, after := TotalAsset(p) * price, TotalAsset(q) * price;
            if ExposureGap(p, targetWeight, price) > 0.0 then before < after <= target else target == after < before
  {
    hide Executed, SoldAny, Equity, Surplus;
    var gap := ExposureGap(p, targetWeight, price);
    if gap > 0.0 {
      RebalancePurchase(p, c, gap, price);
    } else {
      RebalanceSale(p, c, gap, price);
    }
  }

  lemma RebalancePurchase(p: Portfolio, c: SimulatorConfig, gap: real, price: real)
    requires Solvent(p) && NormalConfig(c) && price > 0.0 && gap > 0.0
    requires Executed(p, c, RebalanceBuy(Min(gap, p.usdt)), price).summary != NO_TRADE
    ensures var q := Executed(p, c, RebalanceBuy(Min(gap, p.usdt)), price).portfolio;
            TotalAsset(p) * price < TotalAsset(q) * price <= TotalAsset(p) * price + gap
  {
    hide Executed, TotalAsset;
    var qty := PurchasedQuantity(p, c, Min(gap, p.usdt), price);
    MulPositive(qty, price);
    var a := TotalAsset(p);
    assert (a + qty) * price == a * price + qty * price;
  }

  /** A purchase that trades buys a quantity worth at most its budget. */
  lemma PurchasedQuantity(p: Portfolio, c: SimulatorConfig, amount: real, price: real) returns (qty: real)
    requires Solvent(p) && NormalConfig(c) && price > 0.0 && amount <= p.usdt
    requires Executed(p, c, RebalanceBuy(amount), price).summary != NO_TRADE
    ensures qty > 0.0 && qty * price <= amount
    ensures TotalAsset(Executed(p, c, RebalanceBuy(amount), price).portfolio) == TotalAsset(p) + qty
  {
    hide Executed, BuyIntent, TotalAsset, FillIntent;
    var intent := TradeIntent(Buy, amount, 0.0, Floating);
    ExecutedSingle(p, c, intent, price);
    PurchaseFill(p, c, intent, price);
    qty := BoughtQuantity(p, c, price, intent);
  }

  /** Executing an output with one intent and no transfer is filling that intent. */
  lemma ExecutedSingle(p: Portfolio, c: SimulatorConfig, intent: TradeIntent, price: real)
    requires price > 0.0
    ensures Executed(p, c, StrategyOutput([intent], []), price) == FillIntent(p, c, price, intent)
  {
    hide FillIntent;
    SingleFill(p, c, price, [intent]);
    NothingAdded(FillIntent(p, c, price, intent).summary);
  }

  lemma NothingAdded(a: TradeSummary)
    ensures AddTrades(NO_TRADE, a) == a
  {
  }

  lemma PurchaseFill(p: Portfolio, c: SimulatorConfig, intent: TradeIntent, price: real)
    requires intent.action == Buy
    ensures FillIntent(p, c, price, intent) == if intent.amountUsdt > 0.0 then BuyIntent(p, c, price, intent) else Outcome(p, NO_TRADE)
  {
    hide BuyIntent, SellIntent;
  }

  lemma BoughtQuantity(p: Portfolio, c: SimulatorConfig, price: real, intent: TradeIntent) returns (qty: real)
    requires Solvent(p) && NormalConfig(c) && price > 0.0 && intent.amountUsdt > 0.0
    requires BuyIntent(p, c, price, intent).summary != NO_TRADE
    ensures qty > 0.0 && qty * price <= intent.amountUsdt
    ensures TotalAsset(BuyIntent(p, c, price, intent).portfolio) == TotalAsset(p) + qty
  {
    hide BuyCosts, UnitCost;
    qty := BuyQuantityForCash(Min(intent.amountUsdt, p.usdt), price, c.costs).0;
    WorthAtMost(qty, Min(intent.amountUsdt, p.usdt), price, c.costs);
  }

  lemma WorthAtMost(qty: real, spent: real, price: real, costs: ExecutionCostConfig)
    requires qty > 0.0 && price > 0.0 && costs.feeRate >= 0.0 && costs.spreadRate >= 0.0 && qty * UnitCost(price, costs) == spent
    ensures qty * price <= spent
  {
    hide UnitCost;
    UnitCostAbovePrice(price, costs);
    MulMonotone(qty, price, UnitCost(price, costs));
  }

  lemma SingleFill(p: Portfolio, c: SimulatorConfig, price: real, intents: seq<TradeIntent>)
    requires |intents| == 1
    ensures FillIntents(p, c, price, intents, 1).portfolio == FillIntent(p, c, price, intents[0]).portfolio
    ensures FillIntents(p, c, price, intents, 1).summary == AddTrades(NO_TRADE, FillIntent(p, c, price, intents[0]).summary)
  {
    assert FillIntents(p, c, price, intents, 0) == Outcome(p, NO_TRADE);
  }

  lemma RebalanceSale(p: Portfolio, c: SimulatorConfig, gap: real, price: real)
    requires Solvent(p) && NormalConfig(c) && price > 0.0 && gap <= 0.0 && TotalAsset(p) * price + gap >= 0.0
    requires SoldAny(p, c, Min(Surplus(gap, price), TotalAsset(p)), price, true).summary != NO_TRADE
    ensures var q := SoldAny(p, c, Min(Surplus(gap, price), TotalAsset(p)), price, true).portfolio;
            TotalAsset(q) * price == TotalAsset(p) * price + gap && gap < 0.0
  {
    hide SellCosts, SellProceedsForQuantity, TakeAsset, TotalAsset, Surplus;
    SurplusWithin(p, gap, price);
    var qty := Surplus(gap, price);
    assert qty > 0.0;
    TakeAssetTakes(p, qty);
    var q := SoldAny(p, c, qty, price, true).portfolio;
    UsdtIsNotAsset(TakeAsset(p, qty), q);
    assert (TotalAsset(p) - qty) * price == TotalAsset(p) * price - qty * price;
  }

  lemma UsdtIsNotAsset(p: Portfolio, q: Portfolio)
    requires q == p.(usdt := q.usdt)
    ensures TotalAsset(q) == TotalAsset(p)
  {
  }

  lemma SurplusWithin(p: Portfolio, gap: real, price: real)
    requires price > 0.0 && gap <= 0.0 && TotalAsset(p) * price + gap >= 0.0
    ensures Surplus(gap, price) <= TotalAsset(p) && Surplus(gap, price) * price == -gap
  {
    hide TotalAsset;
    QuotientTimes(-gap, price);
    if Surplus(gap, price) > TotalAsset(p) { MulStrict(price, TotalAsset(p), Surplus(gap, price)); }
  }

  // ----- the simulator object

  function NormalizeConfig(c: SimulatorConfig): (r: SimulatorConfig)
    ensures NormalConfig(r)
    ensures NormalConfig(c) ==> r == c
  {
    SimulatorConfig(NormalizeExecutionCosts(c.costs),
                    if c.minimumTradeUsd < 0.0 then 0.0 else c.minimumTradeUsd,
                    if c.minimumAssetQty < 0.0 then 0.0 else c.minimumAssetQty)
  }

  class Simulator {
    var portfolio: Portfolio
    const config: SimulatorConfig

    constructor (initialCash: real, initialColdAsset: real, config: SimulatorConfig)
      ensures portfolio == Portfolio(initialCash, 0.0, 0.0, initialColdAsset)
      ensures this.config == NormalizeConfig(config)
      ensures initialCash >= 0.0 && initialColdAsset >= 0.0 ==> Solvent(portfolio)
    {
      portfolio := Portfolio(initialCash, 0.0, 0.0, initialColdAsset);
      this.config := NormalizeConfig(config);
    }

    method Contribute(amount: real)
      modifies this
      ensures portfolio == old(portfolio).(usdt := old(portfolio.usdt) + (if amount > 0.0 then amount else 0.0))
      ensures old(Solvent(portfolio)) ==> Solvent(portfolio)
    {
      if amount > 0.0 {
        portfolio := portfolio.(usdt := portfolio.usdt + amount);
      }
    }

    method Execute(output: StrategyOutput, price: real) returns (summary: TradeSummary)
      requires NormalConfig(config)
      modifies this
      ensures Outcome(portfolio, summary) == Executed(old(portfolio), config, output, price)
      ensures old(Solvent(portfolio)) ==> Conserves(old(portfolio), price, Outcome(portfolio, summary))
    {
      hide Conserves, MoveLots, FillIntents;
      ghost var start := portfolio;
      summary := NO_TRADE;
      if Solvent(start) { ExecuteConserves(start, config, output, price); }
      if price <= 0.0 {
        return;
      }
      TransferLots(output.lotTransfers);
      summary := FillAll(output.intents, price);
    }

    method TransferLots(transfers: seq<LotTransfer>)
      modifies this
      ensures portfolio == MoveLots(old(portfolio), transfers, |transfers|)
    {
      ghost var start := portfolio;
      for index := 0 to |transfers|
        invariant portfolio == MoveLots(start, transfers, index)
      {
        var transfer := transfers[index];
        if transfer.fromLotType != DeadStack || transfer.toLotType != Floating || transfer.amount <= 0.0 {
          continue;
        }
        var amount := Min(transfer.amount, portfolio.dead);
        portfolio := portfolio.(dead := portfolio.dead - amount);
        portfolio := portfolio.(floating := portfolio.floating + amount);
      }
    }

    method FillAll(intents: seq<TradeIntent>, price: real) returns (summary: TradeSummary)
      modifies this
      ensures Outcome(portfolio, summary) == FillIntents(old(portfolio), config, price, intents, |intents|)
    {
      hide FillIntent;
      ghost var start := portfolio;
      summary := NO_TRADE;
      for index := 0 to |intents|
        invariant Outcome(portfolio, summary) == FillIntents(start, config, price, intents, index)
      {
        var filled := FillOne(intents[index], price);
        summary := AddTrades(summary, filled);
      }
    }

    /** One intent: a purchase from cash, a sale from the floating lot, or nothing. */
    method FillOne(intent: TradeIntent, price: real) returns (summary: TradeSummary)
      modifies this
      ensures Outcome(portfolio, summary) == FillIntent(old(portfolio), config, price, intent)
    {
      hide BuyCosts, SellCosts, BuyQuantityForCash, SellProceedsForQuantity;
      summary := NO_TRADE;
      if intent.action == Buy && intent.amountUsdt > 0.0 {
        var requested := Min(intent.amountUsdt, portfolio.usdt);
        if requested <= config.minimumTradeUsd {
          return;
        }
        var (qty, spent) := BuyQuantityForCash(requested, price, config.costs);
        if qty <= 0.0 || spent <= 0.0 || qty < config.minimumAssetQty {
          return;
        }
        portfolio := portfolio.(usdt := portfolio.usdt - spent);
        if intent.lotType == DeadStack {
          portfolio := portfolio.(dead := portfolio.dead + qty);
        } else {
          portfolio := portfolio.(floating := portfolio.floating + qty);
        }
        summary := TradeSummary(1, 1, 0, qty * price, 0.0, BuyCosts(qty, price, config.costs));
      } else if intent.action == Sell && intent.qtyAsset > 0.0 {
        var qty := Min(intent.qtyAsset, portfolio.floating);
        if qty <= 0.0 || qty < config.minimumAssetQty || qty * price <= config.minimumTradeUsd {
          return;
        }
        var proceeds := SellProceedsForQuantity(qty, price, config.costs);
        if proceeds <= 0.0 {
          return;
        }
        portfolio := portfolio.(floating := portfolio.floating - qty);
        portfolio := portfolio.(usdt := portfolio.usdt + proceeds);
        summary := TradeSummary(1, 0, 1, 0.0, qty * price, SellCosts(qty, price, config.costs));
      }
    }

    method RebalanceToExposure(targetWeight: real, price: real) returns (summary: TradeSummary)
      requires NormalConfig(config)
      modifies this
      ensures Outcome(portfolio, summary) == Rebalanced(old(portfolio), config, targetWeight, price)
      ensures old(Solvent(portfolio)) ==> Conserves(old(portfolio), price, Outcome(portfolio, summary))
    {
      hide Conserves, Executed, SoldAny, ExposureGap, Equity, Surplus;
      summary := NO_TRADE;
      if Solvent(portfolio) { RebalanceConserves(portfolio, config, targetWeight, price); }
      if price <= 0.0 || Equity(portfolio, price) <= 0.0 {
        return;
      }
      var delta := ExposureGap(portfolio, targetWeight, price);
      if (if delta < 0.0 then -delta else delta) <= config.minimumTradeUsd {
        return;
      }
      if delta > 0.0 {
        summary := Execute(RebalanceBuy(Min(delta, portfolio.usdt)), price);
      } else {
        summary := SellAnyAsset(Min(Surplus(delta, price), TotalAsset(portfolio)), price, true);
      }
    }

    method LiquidateAll(price: real) returns (summary: TradeSummary)
      requires NormalConfig(config)
      modifies this
      ensures Outcome(portfolio, summary) == Liquidated(old(portfolio), config, price)
      ensures old(Solvent(portfolio)) ==> Conserves(old(portfolio), price, Outcome(portfolio, summary))
      ensures old(Solvent(portfolio)) && LowCosts(config) && price > 0.0 ==> NoAsset(portfolio)
    {
      hide Conserves, SoldAny;
      if Solvent(portfolio) && LowCosts(config) && price > 0.0 { LiquidationEmpties(portfolio, config, price); }
      summary := SellAnyAsset(TotalAsset(portfolio), price, false);
    }

    method SellAnyAsset(wanted: real, price: real, respectMinimum: bool) returns (summary: TradeSummary)
      requires NormalConfig(config)
      modifies this
      ensures Outcome(portfolio, summary) == SoldAny(old(portfolio), config, wanted, price, respectMinimum)
      ensures old(Solvent(portfolio)) ==> Conserves(old(portfolio), price, Outcome(portfolio, summary))
    {
      hide Conserves, SellCosts, SellProceedsForQuantity;
      summary := NO_TRADE;
      if Solvent(portfolio) { SoldAnyConserves(portfolio, config, wanted, price, respectMinimum); }
      if price <= 0.0 || wanted <= 0.0 {
        return;
      }
      var qty := Min(wanted, TotalAsset(portfolio));
      if respectMinimum && (qty < config.minimumAssetQty || qty * price <= config.minimumTradeUsd) {
        return;
      }
      var proceeds := SellProceedsForQuantity(qty, price, config.costs);
      if proceeds <= 0.0 {
        return;
      }
      var remaining := qty;
      var fromFloating := Min(remaining, portfolio.floating);
      portfolio := portfolio.(floating := portfolio.floating - fromFloating);
      remaining := remaining - fromFloating;
      var fromDead := Min(remaining, portfolio.dead);
      portfolio := portfolio.(dead := portfolio.dead - fromDead);
      remaining := remaining - fromDead;
      var fromSealed := Min(remaining, portfolio.coldSealed);
      portfolio := portfolio.(coldSealed := portfolio.coldSealed - fromSealed);
      portfolio := portfolio.(usdt := portfolio.usdt + proceeds);
      summary := TradeSummary(1, 0, 1, 0.0, qty * price, SellCosts(qty, price, config.costs));
    }
  }
}
