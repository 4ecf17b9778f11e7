/** Transaction costs, whole-share rounding and the budgeted order of the backtest. */
module Costs {
  import opened Prelude
  import opened RealFacts

  datatype CostModel = CostModel(
    commissionRate: real,
    spreadBps: real,
    slippageBps: real,
    fxConversionBps: real,
    minimumCommission: real,
    taxRate: real,
    fractionalShares: bool
  )

  /** The constructor of a cost model rejects negative numbers. */
  predicate ValidCostModel(m: CostModel) {
    m.commissionRate >= 0.0 && m.spreadBps >= 0.0 && m.slippageBps >= 0.0 && m.fxConversionBps >= 0.0
    && m.minimumCommission >= 0.0 && m.taxRate >= 0.0
  }

  datatype CostBreakdown = CostBreakdown(commission: real, spread: real, slippage: real, fxConversion: real, tax: real)
  {
    function Total(): real {
      commission + spread + slippage + fxConversion + tax
    }
  }

  const BPS := 10000.0
  const MICRO := 1000000.0

  /** Rounding to the nearest integer, ties to the even one. */
  function RoundHalfEven(x: real): int {
    var f := x.Floor;
    var d := x - f as real;
    if d < 0.5 || (d == 0.5 && f % 2 == 0) then f else f + 1
  }

  /** Rounding to six decimals, as every component of a cost breakdown is. */
  function Fmt(x: real): real {
    RoundHalfEven(x * MICRO) as real / MICRO
  }

  /** The part of an amount that a rate takes. */
  function Share(amount: real, rate: real): real {
    amount * rate
  }

  /** A rate on the notional with a floor. */
  function Commission(notional: real, m: CostModel): real {
    Fmt(Max(Share(notional, m.commissionRate), m.minimumCommission))
  }

  /** A cost quoted in hundredths of a percent of the notional. */
  function BpsCost(notional: real, rate: real): real {
    Fmt(Share(notional, rate) / BPS)
  }

  function TransactionCosts(notional: real, m: CostModel, requiresFx: bool, taxableGain: real): CostBreakdown {
    CostBreakdown(
      Commission(notional, m),
      BpsCost(notional, m.spreadBps),
      BpsCost(notional, m.slippageBps),
      if requiresFx then BpsCost(notional, m.fxConversionBps) else Fmt(0.0),
      Fmt(Share(Max(taxableGain, 0.0), m.taxRate)))
  }

  function AffordableQuantity(cash: real, price: real, m: CostModel): real {
    if cash <= 0.0 || price <= 0.0 then 0.0
    else if m.fractionalShares then cash / price
    else (cash / price).Floor as real
  }

  lemma RoundHalfEvenMonotone(x: real, y: real)
    requires x <= y
    ensures RoundHalfEven(x) <= RoundHalfEven(y)
  {
    assert x.Floor <= y.Floor;
  }

  lemma FmtMonotone(x: real, y: real)
    requires x <= y
    ensures Fmt(x) <= Fmt(y)
  {
    RoundHalfEvenMonotone(x * MICRO, y * MICRO);
    QuotientMonotone(RoundHalfEven(x * MICRO) as real, RoundHalfEven(y * MICRO) as real, MICRO);
  }

  /** A rounded cost is off by at most half a millionth, and rounding twice changes nothing more. */
  lemma FmtNearest(x: real)
    ensures -0.0000005 <= Fmt(x) - x <= 0.0000005
    ensures Fmt(Fmt(x)) == Fmt(x)
    ensures x >= 0.0 ==> Fmt(x) >= 0.0
  {
    var n := RoundHalfEven(x * MICRO);
    QuotientTimes(n as real, MICRO);
    assert Fmt(x) * MICRO == n as real;
    assert (n as real).Floor == n && RoundHalfEven(n as real) == n;
    if x >= 0.0 {
      RoundHalfEvenMonotone(0.0, x * MICRO);
      QuotientMonotone(0.0, n as real, MICRO);
    }
  }

  /** Of two integers that are equally near, the even one is taken. */
  lemma TiesGoToEven(x: real)
    ensures RoundHalfEven(x) as real - x == 0.5 || RoundHalfEven(x) as real - x == -0.5 ==> RoundHalfEven(x) % 2 == 0
    ensures -0.5 <= RoundHalfEven(x) as real - x <= 0.5
  {
  }

  /** A cost half-way between two millionths becomes an even number of millionths. */
  lemma FmtTiesGoToEven(x: real)
    requires Fmt(x) - x == 0.0000005 || Fmt(x) - x == -0.0000005
    ensures exists k: int :: Fmt(x) * MICRO == (2 * k) as real
  {
    var n := RoundHalfEven(x * MICRO);
    QuotientTimes(n as real, MICRO);
    TiesGoToEven(x * MICRO);
    assert n == 2 * (n / 2) && Fmt(x) * MICRO == (2 * (n / 2)) as real;
  }

  /** x is the exact amount up to the rounding of six decimals. */
  predicate RoundsTo(exact: real, x: real) {
    -0.0000005 <= x - exact <= 0.0000005 && Fmt(x) == x
  }

  lemma FmtRounds(x: real)
    ensures RoundsTo(x, Fmt(x))
  {
    FmtNearest(x);
  }

  /**
   Every component is its rate on the notional, to the millionth; the commission is never below its minimum,
   rounded.
   */
  lemma CostsToTheMillionth(notional: real, m: CostModel, requiresFx: bool, gain: real)
    ensures var c := TransactionCosts(notional, m, requiresFx, gain);
            && RoundsTo(Max(Share(notional, m.commissionRate), m.minimumCommission), c.commission)
            && Fmt(m.minimumCommission) <= c.commission
            && RoundsTo(Share(notional, m.spreadBps) / 10000.0, c.spread)
            && RoundsTo(Share(notional, m.slippageBps) / 10000.0, c.slippage)
            && RoundsTo(if requiresFx then Share(notional, m.fxConversionBps) / 10000.0 else 0.0, c.fxConversion)
            && RoundsTo(if gain > 0.0 then Share(gain, m.taxRate) else 0.0, c.tax)
  {
    assert gain <= 0.0 ==> Share(Max(gain, 0.0), m.taxRate) == 0.0;
    hide Fmt, RoundsTo, Share;
    var commission := Max(Share(notional, m.commissionRate), m.minimumCommission);
    FmtRounds(commission);
    FmtMonotone(m.minimumCommission, commission);
    FmtRounds(Share(notional, m.spreadBps) / BPS);
    FmtRounds(Share(notional, m.slippageBps) / BPS);
    FmtRounds(Share(notional, m.fxConversionBps) / BPS);
    FmtRounds(0.0);
    FmtRounds(Share(Max(gain, 0.0), m.taxRate));
  }

  /** Trading more never costs less, in any component, after rounding. */
  lemma CostsMonotone(a: real, b: real, m: CostModel, requiresFx: bool)
    requires ValidCostModel(m) && a <= b
    ensures TransactionCosts(a, m, requiresFx, 0.0).Total() <= TransactionCosts(b, m, requiresFx, 0.0).Total()
  {
    hide Fmt, Commission, BpsCost;
    CommissionMonotone(a, b, m);
    BpsMonotone(a, b, m.spreadBps);
    BpsMonotone(a, b, m.slippageBps);
    BpsMonotone(a, b, m.fxConversionBps);
  }

  lemma ShareMonotone(a: real, b: real, rate: real)
    requires a <= b && rate >= 0.0
    ensures Share(a, rate) <= Share(b, rate)
    ensures a >= 0.0 ==> Share(a, rate) >= 0.0
  {
    ProductMonotone(a, b, rate);
    if a >= 0.0 {
      ProductNonNegative(a, rate);
    }
  }

  lemma CommissionMonotone(a: real, b: real, m: CostModel)
    requires ValidCostModel(m) && a <= b
    ensures Commission(a, m) <= Commission(b, m)
  {
    hide Fmt, Share;
    ShareMonotone(a, b, m.commissionRate);
    FmtMonotone(Max(Share(a, m.commissionRate), m.minimumCommission),
                Max(Share(b, m.commissionRate), m.minimumCommission));
  }

  lemma BpsMonotone(a: real, b: real, rate: real)
    requires a <= b && rate >= 0.0
    ensures BpsCost(a, rate) <= BpsCost(b, rate)
  {
    hide Fmt, Share;
    ShareMonotone(a, b, rate);
    QuotientMonotone(Share(a, rate), Share(b, rate), BPS);
    FmtMonotone(Share(a, rate) / BPS, Share(b, rate) / BPS);
  }

  /** No trade is ever paid for making it. */
  lemma CostsNonNegative(notional: real, m: CostModel, requiresFx: bool, gain: real)
    requires ValidCostModel(m) && notional >= 0.0
    ensures TransactionCosts(notional, m, requiresFx, gain).Total() >= 0.0
  {
    hide Fmt, BpsCost, Share;
    BpsNonNegative(notional, m.spreadBps);
    BpsNonNegative(notional, m.slippageBps);
    BpsNonNegative(notional, m.fxConversionBps);
    ShareMonotone(Max(gain, 0.0), Max(gain, 0.0), m.taxRate);
    FmtNearest(Max(Share(notional, m.commissionRate), m.minimumCommission));
    FmtNearest(Share(Max(gain, 0.0), m.taxRate));
    FmtNearest(0.0);
  }

  lemma BpsNonNegative(notional: real, rate: real)
    requires notional >= 0.0 && rate >= 0.0
    ensures BpsCost(notional, rate) >= 0.0
  {
    hide Fmt, Share;
    ShareMonotone(notional, notional, rate);
    QuotientMonotone(0.0, Share(notional, rate), BPS);
    FmtNearest(Share(notional, rate) / BPS);
  }

  /** The quantity is the most that the cash pays for: all of it, or the largest whole number. */
  lemma AffordableIsLargest(cash: real, price: real, m: CostModel)
    requires price > 0.0
    ensures var q := AffordableQuantity(cash, price, m);
            && 0.0 <= q && q * price <= Max(cash, 0.0)
            && (m.fractionalShares && cash > 0.0 ==> q * price == cash)
            && (!m.fractionalShares ==> q == q.Floor as real && Max(cash, 0.0) < (q + 1.0) * price)
            && (q > 0.0 <==> cash > 0.0 && (m.fractionalShares || price <= cash))
  {
    if cash > 0.0 {
      QuotientTimes(cash, price);
      QuotientPositive(cash, price);
      if !m.fractionalShares {
        WholeShares((cash / price).Floor as real, cash / price, price, cash);
      }
    }
  }

  lemma QuotientPositive(a: real, b: real)
    requires a > 0.0 && b > 0.0
    ensures a / b > 0.0
  {
    QuotientTimes(a, b);
    if a / b <= 0.0 {
      ProductMonotone(a / b, 0.0, b);
    }
  }

  lemma WholeShares(q: real, raw: real, price: real, cash: real)
    requires price > 0.0 && 0.0 <= q <= raw < q + 1.0 && q == q.Floor as real && raw * price == cash
    ensures q * price <= cash < (q + 1.0) * price
    ensures q > 0.0 <==> price <= cash
  {
    ProductMonotone(q, raw, price);
    ProductPositive(q + 1.0 - raw, price);
    assert Product(q + 1.0 - raw, price) == (q + 1.0) * price - cash;
    if q > 0.0 {
      ProductMonotone(1.0, raw, price);
    } else {
      ProductPositive(1.0 - raw, price);
      assert Product(1.0 - raw, price) == price - cash;
    }
  }

  // ---------------------------------------------------------------------------------------------
  // The budgeted order
  // ---------------------------------------------------------------------------------------------

  datatype Order = Order(quantity: real, notional: real, entryCost: CostBreakdown)

  /** The value of a quantity at a price. */
  function Value(quantity: real, price: real): real {
    quantity * price
  }

  function OrderFor(cash: real, price: real, m: CostModel, requiresFx: bool): Order {
    var quantity := AffordableQuantity(cash, price, m);
    Order(quantity, Value(quantity, price), TransactionCosts(Value(quantity, price), m, requiresFx, 0.0))
  }

  predicate Fits(o: Order, allocation: real) {
    o.notional + o.entryCost.Total() <= allocation
  }

  /** The first attempt spends the allocation; if its costs do not fit, a second one leaves room for them. */
  function PlanOrder(allocation: real, price: real, m: CostModel, requiresFx: bool): Option<Order> {
    var first := OrderFor(allocation, price, m, requiresFx);
    if first.quantity <= 0.0 then None
    else
      var order := if Fits(first, allocation) then first
                   else OrderFor(Max(0.0, allocation - first.entryCost.Total()), price, m, requiresFx);
      if order.quantity <= 0.0 || !Fits(order, allocation) then None else Some(order)
  }

  /** The quantity is what a budget pays for: all of it in fractional shares, else no whole share more. */
  ghost predicate Spends(o: Order, budget: real, price: real, m: CostModel) {
    && o.quantity > 0.0 && o.notional == o.quantity * price && o.notional <= budget
    && if m.fractionalShares then o.notional == budget
       else o.quantity == o.quantity.Floor as real && budget < o.notional + price
  }

  ghost predicate ChargesCommission(notional: real, rate: real, minimum: real, cost: real) {
    RoundsTo(if notional * rate < minimum then minimum else notional * rate, cost)
  }

  ghost predicate ChargesBps(notional: real, bps: real, cost: real) {
    RoundsTo(notional * bps / 10000.0, cost)
  }

  /** The five entry costs are those of the notional, without tax. */
  ghost predicate ChargesEntry(o: Order, m: CostModel, requiresFx: bool) {
    && ChargesCommission(o.notional, m.commissionRate, m.minimumCommission, o.entryCost.commission)
    && ChargesBps(o.notional, m.spreadBps, o.entryCost.spread)
    && ChargesBps(o.notional, m.slippageBps, o.entryCost.slippage)
    && (if requiresFx then ChargesBps(o.notional, m.fxConversionBps, o.entryCost.fxConversion)
        else o.entryCost.fxConversion == 0.0)
    && o.entryCost.tax == 0.0
  }

  lemma OrderIs(budget: real, price: real, m: CostModel, requiresFx: bool)
    ensures var o := OrderFor(budget, price, m, requiresFx);
            && o.quantity == AffordableQuantity(budget, price, m) && o.notional == o.quantity * price
            && o.entryCost == TransactionCosts(o.notional, m, requiresFx, 0.0)
  {
    hide AffordableQuantity, TransactionCosts;
  }

  lemma NothingRoundsToNothing(cost: real)
    requires RoundsTo(0.0, cost)
    ensures cost == 0.0
  {
    FmtNearest(cost);
    var n := RoundHalfEven(cost * MICRO);
    QuotientTimes(n as real, MICRO);
    assert n == 0;
  }

  lemma BpsCharge(notional: real, bps: real, cost: real)
    requires RoundsTo(Share(notional, bps) / 10000.0, cost)
    ensures ChargesBps(notional, bps, cost)
  {
    hide RoundsTo;
  }

  lemma CommissionCharge(notional: real, rate: real, minimum: real, cost: real)
    requires RoundsTo(Max(Share(notional, rate), minimum), cost)
    ensures ChargesCommission(notional, rate, minimum, cost)
  {
    hide RoundsTo;
  }

  lemma EntryIsCharged(o: Order, m: CostModel, requiresFx: bool)
    requires o.entryCost == TransactionCosts(o.notional, m, requiresFx, 0.0)
    ensures ChargesEntry(o, m, requiresFx)
  {
    CostsToTheMillionth(o.notional, m, requiresFx, 0.0);
    hide Share, Fmt, RoundsTo, TransactionCosts, ChargesCommission, ChargesBps;
    CommissionCharge(o.notional, m.commissionRate, m.minimumCommission, o.entryCost.commission);
    BpsCharge(o.notional, m.spreadBps, o.entryCost.spread);
    BpsCharge(o.notional, m.slippageBps, o.entryCost.slippage);
    if requiresFx {
      BpsCharge(o.notional, m.fxConversionBps, o.entryCost.fxConversion);
    } else {
      NothingRoundsToNothing(o.entryCost.fxConversion);
    }
    NothingRoundsToNothing(o.entryCost.tax);
  }

  lemma OneMoreShare(o: Order, budget: real, price: real, m: CostModel)
    requires o.quantity > 0.0 && o.notional == o.quantity * price && o.notional <= Max(budget, 0.0) && budget > 0.0
    requires m.fractionalShares ==> o.quantity * price == budget
    requires !m.fractionalShares ==>
      o.quantity == o.quantity.Floor as real && Max(budget, 0.0) < (o.quantity + 1.0) * price
    ensures Spends(o, budget, price, m)
  {
    assert (o.quantity + 1.0) * price == o.quantity * price + price;
  }

  lemma OrderSpends(budget: real, price: real, m: CostModel, requiresFx: bool)
    requires price > 0.0
    ensures var o := OrderFor(budget, price, m, requiresFx);
            ChargesEntry(o, m, requiresFx) && (o.quantity > 0.0 ==> Spends(o, budget, price, m))
  {
    hide *;
    AffordableIsLargest(budget, price, m);
    OrderIs(budget, price, m, requiresFx);
    var o := OrderFor(budget, price, m, requiresFx);
    EntryIsCharged(o, m, requiresFx);
    if o.quantity > 0.0 {
      OneMoreShare(o, budget, price, m);
    }
  }

  /**
   What is bought: as much as the allocation pays for if that fits together with its costs, and otherwise as much
   as the allocation less those costs pays for.
   */
  lemma PlanSpends(allocation: real, price: real, m: CostModel, requiresFx: bool)
    requires ValidCostModel(m) && price > 0.0 && PlanOrder(allocation, price, m, requiresFx).Some?
    ensures var order := PlanOrder(allocation, price, m, requiresFx).value;
            && ChargesEntry(order, m, requiresFx)
            && order.notional + order.entryCost.commission + order.entryCost.spread + order.entryCost.slippage
               + order.entryCost.fxConversion + order.entryCost.tax <= allocation
            && exists first :: && Spends(first, allocation, price, m) && ChargesEntry(first, m, requiresFx)
                               && if first.notional + first.entryCost.Total() <= allocation then order == first
                                  else Spends(order, allocation - first.entryCost.Total(), price, m)
  {
    var first := OrderFor(allocation, price, m, requiresFx);
    var rest := allocation - first.entryCost.Total();
    OrderSpends(allocation, price, m, requiresFx);
    OrderSpends(Max(0.0, rest), price, m, requiresFx);
    AffordableIsLargest(Max(0.0, rest), price, m);
    assert Spends(first, allocation, price, m);
    hide Spends, ChargesEntry, TransactionCosts, AffordableQuantity;
  }

  /** A second attempt with a positive quantity always fits, so the guard against overspending never skips one. */
  lemma SecondAttemptFits(allocation: real, price: real, m: CostModel, requiresFx: bool)
    requires ValidCostModel(m) && price > 0.0
    ensures var first := OrderFor(allocation, price, m, requiresFx);
            var second := OrderFor(Max(0.0, allocation - first.entryCost.Total()), price, m, requiresFx);
            !Fits(first, allocation) && second.quantity > 0.0 ==>
                Fits(second, allocation) && second.notional < first.notional
  {
    hide AffordableQuantity, TransactionCosts;
    var first := OrderFor(allocation, price, m, requiresFx);
    var rest := allocation - first.entryCost.Total();
    var second := OrderFor(Max(0.0, rest), price, m, requiresFx);
    AffordableIsLargest(Max(0.0, rest), price, m);
    if !Fits(first, allocation) && second.quantity > 0.0 {
      CostsMonotone(second.notional, first.notional, m, requiresFx);
    }
  }

  /**
   When an order is placed: the first attempt is positive and fits, or what its costs leave of the
   allocation still buys something. Every order placed stays within the allocation.
   */
  lemma PlanOrderIff(allocation: real, price: real, m: CostModel, requiresFx: bool)
    requires ValidCostModel(m) && price > 0.0
    ensures var first := OrderFor(allocation, price, m, requiresFx);
            var rest := allocation - first.entryCost.Total();
            PlanOrder(allocation, price, m, requiresFx).Some? <==>
            && allocation > 0.0 && (m.fractionalShares || price <= allocation)
            && (Fits(first, allocation) || (rest > 0.0 && (m.fractionalShares || price <= rest)))
    ensures var order := PlanOrder(allocation, price, m, requiresFx);
            order.Some? ==>
              && order.value.quantity > 0.0 && order.value.notional == Value(order.value.quantity, price)
              && order.value.entryCost == TransactionCosts(order.value.notional, m, requiresFx, 0.0)
              && order.value.notional + order.value.entryCost.Total() <= allocation
              && (!m.fractionalShares ==> order.value.quantity == order.value.quantity.Floor as real)
  {
    hide AffordableQuantity, TransactionCosts;
    var first := OrderFor(allocation, price, m, requiresFx);
    var rest := allocation - first.entryCost.Total();
    AffordableIsLargest(allocation, price, m);
    AffordableIsLargest(Max(0.0, rest), price, m);
    SecondAttemptFits(allocation, price, m, requiresFx);
  }
}
