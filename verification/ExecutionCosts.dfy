/** Fees and spread of a spot trade (internal/quant/execution_costs.go). */
module ExecutionCosts {
  import opened RealMath

  datatype ExecutionCostConfig = ExecutionCostConfig(feeRate: real, spreadRate: real)

  function NormalizeExecutionCosts(costs: ExecutionCostConfig): (r: ExecutionCostConfig)
    ensures r.feeRate >= 0.0 && r.spreadRate >= 0.0
    ensures costs.feeRate >= 0.0 && costs.spreadRate >= 0.0 ==> r == costs
  {
    ExecutionCostConfig(if costs.feeRate < 0.0 then 0.0 else costs.feeRate, if costs.spreadRate < 0.0 then 0.0 else costs.spreadRate)
  }

  /** The price a buyer pays before fees, and what one unit costs with fees. */
  function AskPrice(price: real, costs: ExecutionCostConfig): real {
    price * (1.0 + costs.spreadRate)
  }

  function UnitCost(price: real, costs: ExecutionCostConfig): real {
    AskPrice(price, costs) * (1.0 + costs.feeRate)
  }

  function BidPrice(price: real, costs: ExecutionCostConfig): real {
    price * (1.0 - costs.spreadRate)
  }

  lemma UnitCostAbovePrice(price: real, costs: ExecutionCostConfig)
    requires price > 0.0 && costs.feeRate >= 0.0 && costs.spreadRate >= 0.0
    ensures AskPrice(price, costs) >= price
    ensures UnitCost(price, costs) >= AskPrice(price, costs)
  {
    MulMonotone(price, 1.0, 1.0 + costs.spreadRate);
    MulMonotone(AskPrice(price, costs), 1.0, 1.0 + costs.feeRate);
  }

  /** Quantity bought for a cash budget, and the cash spent; nothing without budget or price. */
  function BuyQuantityForCash(cashBudget: real, price: real, config: ExecutionCostConfig): (r: (real, real))
    ensures cashBudget > 0.0 && price > 0.0 ==> r.0 > 0.0 && r.1 == cashBudget
    ensures cashBudget > 0.0 && price > 0.0 ==> r.0 * UnitCost(price, NormalizeExecutionCosts(config)) == r.1
    ensures !(cashBudget > 0.0 && price > 0.0) ==> r == (0.0, 0.0)
  {
    var costs := NormalizeExecutionCosts(config);
    if cashBudget <= 0.0 || price <= 0.0 then (0.0, 0.0)
    else
      UnitCostAbovePrice(price, costs);
      var denominator := UnitCost(price, costs);
      var qty := cashBudget / denominator;
      var spent := qty * denominator;
      QuotientTimes(cashBudget, denominator);
      QuotientPositive(cashBudget, denominator);
      (qty, if spent > cashBudget && spent - cashBudget < 0.000000001 then cashBudget else spent)
  }

  lemma QuotientPositive(a: real, b: real)
    requires a > 0.0 && b > 0.0
    ensures a / b > 0.0
  {
    QuotientTimes(a, b);
    if a / b <= 0.0 { MulMonotone(b, a / b, 0.0); }
  }

  /** Cash received for a quantity; nothing when the spread leaves no price. */
  function SellProceedsForQuantity(qty: real, price: real, config: ExecutionCostConfig): real {
    var costs := NormalizeExecutionCosts(config);
    var fillPrice := BidPrice(price, costs);
    if qty <= 0.0 || price <= 0.0 || fillPrice <= 0.0 then 0.0 else qty * fillPrice * (1.0 - costs.feeRate)
  }

  /** Selling brings in cash exactly when quantity and price are positive and both rates are below one. */
  lemma ProceedsPositive(qty: real, price: real, costs: ExecutionCostConfig)
    requires costs.feeRate >= 0.0 && costs.spreadRate >= 0.0
    ensures SellProceedsForQuantity(qty, price, costs) > 0.0 <==> qty > 0.0 && price > 0.0 && costs.feeRate < 1.0 && costs.spreadRate < 1.0
  {
    hide BidPrice;
    if qty > 0.0 && price > 0.0 {
      BidSign(price, costs);
      var gross := qty * BidPrice(price, costs);
      if BidPrice(price, costs) > 0.0 {
        MulPositive(qty, BidPrice(price, costs));
        KeptPositive(gross, costs.feeRate);
        assert SellProceedsForQuantity(qty, price, costs) == gross * (1.0 - costs.feeRate);
      }
    }
  }

  lemma BidSign(price: real, costs: ExecutionCostConfig)
    requires price > 0.0
    ensures BidPrice(price, costs) > 0.0 <==> costs.spreadRate < 1.0
  {
    if costs.spreadRate < 1.0 {
      MulPositive(price, 1.0 - costs.spreadRate);
    } else {
      MulNonPositive(1.0 - costs.spreadRate, price);
    }
  }

  lemma KeptPositive(gross: real, feeRate: real)
    requires gross > 0.0
    ensures gross * (1.0 - feeRate) > 0.0 <==> feeRate < 1.0
  {
    if feeRate < 1.0 {
      MulPositive(gross, 1.0 - feeRate);
    } else {
      MulNonPositive(1.0 - feeRate, gross);
    }
  }
}
