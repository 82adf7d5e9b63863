/**
  Which lots the operations of the portfolio simulator touch, and by how much
  (internal/backtestcore/simulator.go): the sealed lot is only ever touched by selling from all lots,
  the dead stack shrinks only by transfers, and every fill moves cash and one lot by stated amounts.
 */
module Lots {
  import opened RealMath
  import opened Quant
  import opened ExecutionCosts
  import opened Simulators

  // ----- prices with costs

  /** What one bought unit costs, and what one sold unit brings in. */
  function BoughtAt(price: real, c: SimulatorConfig): real {
    price * (1.0 + c.costs.spreadRate) * (1.0 + c.costs.feeRate)
  }

  function SoldAt(price: real, c: SimulatorConfig): real {
    price * (1.0 - c.costs.spreadRate) * (1.0 - c.costs.feeRate)
  }

  lemma ProceedsAre(qty: real, price: real, c: SimulatorConfig)
    requires NormalConfig(c) && LowCosts(c) && qty > 0.0 && price > 0.0
    ensures SellProceedsForQuantity(qty, price, c.costs) == qty * SoldAt(price, c)
  {
    BidSign(price, c.costs);
    var fill, kept := BidPrice(price, c.costs), 1.0 - c.costs.feeRate;
    assert qty * fill * kept == qty * (fill * kept);
  }

  // ----- one intent

  /**
    A purchase: the quantity its budget buys at the price with costs. It is made exactly when the budget
    exceeds the minimum and the quantity reaches its own, and then moves the budget out of the cash
    and the quantity into the lot it names, the dead stack or else the floating one.
   */
  ghost predicate Purchases(p: Portfolio, c: SimulatorConfig, price: real, budget: real, dead: bool, qty: real, q: Portfolio) {
    && qty * BoughtAt(price, c) == budget
    && if budget > c.minimumTradeUsd && qty >= c.minimumAssetQty then
         && q.usdt == p.usdt - budget && q.coldSealed == p.coldSealed
         && q.dead == p.dead + (if dead then qty else 0.0) && q.floating == p.floating + (if dead then 0.0 else qty)
       else q == p
  }

  lemma PurchaseMoves(p: Portfolio, c: SimulatorConfig, price: real, intent: TradeIntent) returns (qty: real)
    requires Solvent(p) && NormalConfig(c) && price > 0.0 && intent.action == Buy && intent.amountUsdt > 0.0
    ensures Purchases(p, c, price, Min(intent.amountUsdt, p.usdt), intent.lotType == DeadStack, qty, FillIntent(p, c, price, intent).portfolio)
    ensures FillIntent(p, c, price, intent) != Outcome(p, NO_TRADE) ==> PaidFor(FillIntent(p, c, price, intent).summary, qty, price, c)
  {
    hide UnitCost, BoughtAt;
    var budget := Min(intent.amountUsdt, p.usdt);
    NothingForNothing(price, c);
    UnitIsBoughtAt(price, c);
    qty := BuyQuantityForCash(budget, price, c.costs).0;
  }

  lemma NothingForNothing(price: real, c: SimulatorConfig)
    ensures 0.0 * BoughtAt(price, c) == 0.0
  {
  }

  lemma UnitIsBoughtAt(price: real, c: SimulatorConfig)
    requires NormalConfig(c)
    ensures UnitCost(price, NormalizeExecutionCosts(c.costs)) == BoughtAt(price, c)
  {
  }

  /** The report of a purchase: its quantity at the quoted price, and the fee and slippage paid on top. */
  ghost predicate PaidFor(s: TradeSummary, qty: real, price: real, c: SimulatorConfig) {
    && s.tradeCount == 1 && s.buyCount == 1 && s.sellCount == 0 && s.buyNotional == qty * price && s.sellNotional == 0.0
    && s.costs.feeCost == qty * (price * (1.0 + c.costs.spreadRate)) * c.costs.feeRate
    && s.costs.slippageCost == qty * (price * (1.0 + c.costs.spreadRate) - price)
  }

  /**
    A sale from the floating lot: of no more than it holds, made exactly when the quantity and its
    value exceed their minimums and the costs leave something; it touches nothing but that lot and the cash.
   */
  ghost predicate Sells(p: Portfolio, c: SimulatorConfig, price: real, qty: real, q: Portfolio) {
    if qty > 0.0 && qty >= c.minimumAssetQty && qty * price > c.minimumTradeUsd && LowCosts(c) then
      q == p.(usdt := p.usdt + qty * SoldAt(price, c), floating := p.floating - qty)
    else q == p
  }

  /** The report of a sale: its quantity at the quoted price, and the fee and slippage lost of it. */
  ghost predicate ReceivedFor(s: TradeSummary, qty: real, price: real, c: SimulatorConfig) {
    && s.tradeCount == 1 && s.buyCount == 0 && s.sellCount == 1 && s.buyNotional == 0.0 && s.sellNotional == qty * price
    && s.costs.feeCost == qty * (price * (1.0 - c.costs.spreadRate)) * c.costs.feeRate
    && s.costs.slippageCost == qty * (price - price * (1.0 - c.costs.spreadRate))
  }

  lemma SaleMoves(p: Portfolio, c: SimulatorConfig, price: real, intent: TradeIntent)
    requires Solvent(p) && NormalConfig(c) && price > 0.0 && intent.action == Sell && intent.qtyAsset > 0.0
    ensures Sells(p, c, price, Min(intent.qtyAsset, p.floating), FillIntent(p, c, price, intent).portfolio)
    ensures FillIntent(p, c, price, intent) != Outcome(p, NO_TRADE) ==>
              ReceivedFor(FillIntent(p, c, price, intent).summary, Min(intent.qtyAsset, p.floating), price, c)
  {
    hide SellProceedsForQuantity, SoldAt;
    var qty := Min(intent.qtyAsset, p.floating);
    ProceedsPositive(qty, price, c.costs);
    if qty > 0.0 && LowCosts(c) { ProceedsAre(qty, price, c); }
  }

  /** Any other intent does nothing. */
  lemma OtherIntentsRest(p: Portfolio, c: SimulatorConfig, price: real, intent: TradeIntent)
    requires !(intent.action == Buy && intent.amountUsdt > 0.0) && !(intent.action == Sell && intent.qtyAsset > 0.0)
    ensures FillIntent(p, c, price, intent) == Outcome(p, NO_TRADE)
  {
  }

  // ----- a whole output

  lemma FillTouches(p: Portfolio, c: SimulatorConfig, price: real, intent: TradeIntent)
    requires Solvent(p) && NormalConfig(c) && price > 0.0
    ensures var q := FillIntent(p, c, price, intent).portfolio;
            && q.coldSealed == p.coldSealed && q.dead >= p.dead
            && (intent.action != Sell ==> q.floating >= p.floating) && (intent.action != Buy ==> q.usdt >= p.usdt)
            && (intent.lotType != DeadStack ==> q.dead == p.dead)
  {
    hide BuyQuantityForCash, SellProceedsForQuantity, BuyCosts, SellCosts;
  }

  lemma {:induction false} FillsTouch(p: Portfolio, c: SimulatorConfig, price: real, intents: seq<TradeIntent>, n: nat)
    requires Solvent(p) && NormalConfig(c) && price > 0.0 && n <= |intents|
    ensures var q := FillIntents(p, c, price, intents, n).portfolio;
            && q.coldSealed == p.coldSealed && q.dead >= p.dead
            && ((forall i :: 0 <= i < n ==> intents[i].action != Sell) ==> q.floating >= p.floating)
            && ((forall i :: 0 <= i < n ==> intents[i].action != Buy) ==> q.usdt >= p.usdt)
            && ((forall i :: 0 <= i < n ==> intents[i].lotType != DeadStack) ==> q.dead == p.dead)
  {
    hide FillIntent;
    if n > 0 {
      FillsTouch(p, c, price, intents, n - 1);
      FillsConserve(p, c, price, intents, n - 1);
      FillTouches(FillIntents(p, c, price, intents, n - 1).portfolio, c, price, intents[n - 1]);
    }
  }

  /** The report of an output adds up the reports of its intents, figure by figure. */
  lemma ReportsAdd(p: Portfolio, c: SimulatorConfig, price: real, intents: seq<TradeIntent>, n: nat)
    requires n < |intents|
    ensures var before := FillIntents(p, c, price, intents, n);
            var step, after := FillIntent(before.portfolio, c, price, intents[n]).summary, FillIntents(p, c, price, intents, n + 1).summary;
            && after.tradeCount == before.summary.tradeCount + step.tradeCount
            && after.buyCount == before.summary.buyCount + step.buyCount && after.sellCount == before.summary.sellCount + step.sellCount
            && after.buyNotional == before.summary.buyNotional + step.buyNotional && after.sellNotional == before.summary.sellNotional + step.sellNotional
            && after.costs.feeCost == before.summary.costs.feeCost + step.costs.feeCost
            && after.costs.slippageCost == before.summary.costs.slippageCost + step.costs.slippageCost
  {
    hide FillIntent;
  }

  /** What the first n transfers ask to be moved from the dead stack to the floating lot. */
  ghost function Wanted(ts: seq<LotTransfer>, n: nat): (w: real)
    requires n <= |ts|
    ensures w >= 0.0
  {
    if n == 0 then 0.0
    else Wanted(ts, n - 1) + if ts[n - 1].fromLotType == DeadStack && ts[n - 1].toLotType == Floating && ts[n - 1].amount > 0.0 then ts[n - 1].amount else 0.0
  }

  /** Transfers move what they ask for out of the dead stack into the floating lot, as far as it goes. */
  lemma {:induction false} TransfersMove(p: Portfolio, ts: seq<LotTransfer>, n: nat)
    requires Solvent(p) && n <= |ts|
    ensures var moved := Min(Wanted(ts, n), p.dead);
            MoveLots(p, ts, n) == p.(dead := p.dead - moved, floating := p.floating + moved)
  {
    if n > 0 { TransfersMove(p, ts, n - 1); }
  }

  /**
    Executing an output never touches the sealed lot; the dead stack shrinks only by what the transfers
    take from it, and the floating lot, enlarged by that, only by sales.
   */
  lemma ExecutionTouches(p: Portfolio, c: SimulatorConfig, output: StrategyOutput, price: real)
    requires Solvent(p) && NormalConfig(c) && price > 0.0
    ensures var q, moved := Executed(p, c, output, price).portfolio, Min(Wanted(output.lotTransfers, |output.lotTransfers|), p.dead);
            && q.coldSealed == p.coldSealed && q.dead >= p.dead - moved
            && ((forall i :: 0 <= i < |output.intents| ==> output.intents[i].action != Sell) ==> q.floating >= p.floating + moved)
            && ((forall i :: 0 <= i < |output.intents| ==> output.intents[i].action != Buy) ==> q.usdt >= p.usdt)
            && ((forall i :: 0 <= i < |output.intents| ==> output.intents[i].lotType != DeadStack) ==> q.dead == p.dead - moved)
  {
    hide MoveLots, FillIntents;
    var ts := output.lotTransfers;
    TransfersMove(p, ts, |ts|);
    MoveLotsConserve(p, ts, |ts|);
    FillsTouch(MoveLots(p, ts, |ts|), c, price, output.intents, |output.intents|);
  }

  /** The sealed lot is the same after any output at any price. */
  lemma ExecutionKeepsSealed(p: Portfolio, c: SimulatorConfig, output: StrategyOutput, price: real)
    requires Solvent(p) && NormalConfig(c)
    ensures Executed(p, c, output, price).portfolio.coldSealed == p.coldSealed
  {
    hide MoveLots, FillIntents;
    if price > 0.0 { ExecutionTouches(p, c, output, price); }
  }

  // ----- selling from all lots

  /** Floating first, then dead, then sealed: no lot is touched while one before it still holds something. */
  ghost predicate TakenInOrder(p: Portfolio, q: Portfolio) {
    && q.floating <= p.floating && q.dead <= p.dead && q.coldSealed <= p.coldSealed
    && (q.dead < p.dead ==> q.floating == 0.0) && (q.coldSealed < p.coldSealed ==> q.floating == 0.0 && q.dead == 0.0)
  }

  /** A sale from all lots takes exactly its quantity, in order, and brings in its worth after costs. */
  lemma SaleFromAllLots(p: Portfolio, c: SimulatorConfig, wanted: real, price: real, respectMinimum: bool)
    requires Solvent(p) && NormalConfig(c) && price > 0.0
    ensures var q, qty := SoldAny(p, c, wanted, price, respectMinimum).portfolio, Min(wanted, TotalAsset(p));
            && TakenInOrder(p, q)
            && if qty > 0.0 && LowCosts(c) && (respectMinimum ==> qty >= c.minimumAssetQty && qty * price > c.minimumTradeUsd) then
                 TotalAsset(q) == TotalAsset(p) - qty && q.usdt == p.usdt + qty * SoldAt(price, c)
               else q == p
    ensures SoldAny(p, c, wanted, price, respectMinimum) != Outcome(p, NO_TRADE) ==>
              ReceivedFor(SoldAny(p, c, wanted, price, respectMinimum).summary, Min(wanted, TotalAsset(p)), price, c)
  {
    hide SellProceedsForQuantity, SoldAt;
    var qty := Min(wanted, TotalAsset(p));
    ProceedsPositive(qty, price, c.costs);
    if qty > 0.0 && LowCosts(c) {
      ProceedsAre(qty, price, c);
      TakenOrder(p, qty);
    }
  }

  lemma TakenOrder(p: Portfolio, qty: real)
    requires Solvent(p) && 0.0 < qty <= TotalAsset(p)
    ensures TakenInOrder(p, TakeAsset(p, qty)) && TotalAsset(TakeAsset(p, qty)) == TotalAsset(p) - qty && TakeAsset(p, qty).usdt == p.usdt
  {
  }
}
