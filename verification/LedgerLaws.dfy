/** Laws of the paper account over whole series of accepted fills. */
module LedgerLaws {
  import opened Prelude
  import RealFacts
  import opened PaperLedger

  datatype Entry = Entry(fill: Fill, marks: map<string, real>)

  /** ss[i + 1] is the account after fill i; rejected fills leave no snapshot. */
  ghost predicate Ledger(ss: seq<Snapshot>, es: seq<Entry>) {
    && |ss| == |es| + 1
    && UniqueAssets(ss[0].positions)
    && forall i :: 0 <= i < |es| ==> ValidFill(es[i].fill) && Accepted(ss[i], es[i].fill, es[i].marks, ss[i + 1])
  }

  /** The first snapshot of a portfolio: cash only. */
  ghost predicate Opening(s: Snapshot, cash: real) {
    && s.cash == cash && s.nav == cash && s.peakNav == cash && s.positions == []
    && s.marketValue == 0.0 && s.realizedPnl == 0.0 && s.unrealizedPnl == 0.0
    && s.transactionCosts == 0.0 && s.fxCosts == 0.0 && s.drawdown == 0.0
  }

  function Last<T>(xs: seq<T>): T
    requires xs != []
  {
    xs[|xs| - 1]
  }

  lemma LedgerPrefix(ss: seq<Snapshot>, es: seq<Entry>, n: nat)
    requires Ledger(ss, es) && n <= |es|
    ensures Ledger(ss[..n + 1], es[..n])
    ensures Last(ss[..n + 1]) == ss[n]
    ensures n < |es| ==> ValidFill(es[n].fill) && Accepted(ss[n], es[n].fill, es[n].marks, ss[n + 1])
  {
  }

  function BuyCosts(es: seq<Entry>): real {
    if es == [] then 0.0
    else BuyCosts(es[..|es| - 1]) + if Last(es).fill.side.Buy? then Last(es).fill.Costs() else 0.0
  }

  function AllCosts(es: seq<Entry>): real {
    if es == [] then 0.0 else AllCosts(es[..|es| - 1]) + Last(es).fill.Costs()
  }

  function Fees(es: seq<Entry>): real {
    if es == [] then 0.0 else Fees(es[..|es| - 1]) + Last(es).fill.fees
  }

  /** Value of all sales minus value of all buys. */
  function NetSales(es: seq<Entry>): real {
    if es == [] then 0.0
    else NetSales(es[..|es| - 1]) + if Last(es).fill.side.Buy? then -Last(es).fill.Value() else Last(es).fill.Value()
  }

  /** Quantity of an asset bought minus quantity sold. */
  function NetQuantity(es: seq<Entry>, id: string): real {
    if es == [] then 0.0
    else NetQuantity(es[..|es| - 1], id) +
         if Last(es).fill.assetId != id then 0.0
         else if Last(es).fill.side.Buy? then Last(es).fill.quantity else -Last(es).fill.quantity
  }

  // ---------------------------------------------------------------------------------------------
  // Conservation
  // ---------------------------------------------------------------------------------------------

  /** Cash plus cost basis minus realised P&L is consumed by buy-side costs and by nothing else. */
  lemma {:induction false} CashPlusBasisConserved(ss: seq<Snapshot>, es: seq<Entry>)
    requires Ledger(ss, es)
    ensures var s, t := ss[0], Last(ss);
            t.cash + Book(t.positions) - t.realizedPnl == s.cash + Book(s.positions) - s.realizedPnl - BuyCosts(es)
    ensures UniqueAssets(Last(ss).positions)
  {
    if es != [] {
      var n := |es| - 1;
      LedgerPrefix(ss, es, n);
      CashPlusBasisConserved(ss[..n + 1], es[..n]);
      var f, marks := es[n].fill, es[n].marks;
      FillMovesBasis(ss[n], f, marks);
      FillMovesOneHolding(ss[n], f, marks, f.assetId);
      SaleRealizes(ss[n], f);
    }
  }

  lemma SaleRealizes(s: Snapshot, f: Fill)
    ensures f.side.SellExistingPosition? ==> RealizedBy(s, f) == f.Value() - f.Costs() + BasisChange(s, f)
  {
  }

  /** NAV is initial cash plus realised plus unrealised P&L minus the costs of all buys. */
  lemma NavIdentity(ss: seq<Snapshot>, es: seq<Entry>, cash: real)
    requires Ledger(ss, es) && Opening(ss[0], cash)
    ensures var t := Last(ss); t.nav == cash + t.realizedPnl + t.unrealizedPnl - BuyCosts(es)
  {
    CashPlusBasisConserved(ss, es);
    if es != [] {
      assert Accepted(ss[|es| - 1], Last(es).fill, Last(es).marks, Last(ss));
    }
  }

  /** Accumulated fees and FX costs are the costs of all fills; cash moves by sales, buys and costs. */
  lemma {:induction false} CostsAccumulate(ss: seq<Snapshot>, es: seq<Entry>)
    requires Ledger(ss, es)
    ensures var s, t := ss[0], Last(ss);
            && t.transactionCosts + t.fxCosts == s.transactionCosts + s.fxCosts + AllCosts(es)
            && t.transactionCosts == s.transactionCosts + Fees(es) && t.carried == s.carried
            && t.cash == s.cash + NetSales(es) - AllCosts(es)
  {
    if es != [] {
      var n := |es| - 1;
      LedgerPrefix(ss, es, n);
      CostsAccumulate(ss[..n + 1], es[..n]);
      assert Accepted(ss[n], es[n].fill, es[n].marks, ss[n + 1]);
    }
  }

  /** Every holding is what was bought minus what was sold of that asset. */
  lemma {:induction false} HoldingsAreNetPurchases(ss: seq<Snapshot>, es: seq<Entry>, id: string)
    requires Ledger(ss, es)
    ensures Holding(Last(ss).positions, id) == Holding(ss[0].positions, id) + NetQuantity(es, id)
    ensures UniqueAssets(Last(ss).positions)
  {
    if es != [] {
      var n := |es| - 1;
      LedgerPrefix(ss, es, n);
      HoldingsAreNetPurchases(ss[..n + 1], es[..n], id);
      FillMovesOneHolding(ss[n], es[n].fill, es[n].marks, id);
    }
  }

  /**
   A portfolio that has been opened and completely closed again has realised exactly the net value
   of its trades less the sell-side costs, in whatever order average costing attributed it.
   */
  lemma ClosedPortfolioRealizesItsTrades(ss: seq<Snapshot>, es: seq<Entry>, cash: real)
    requires Ledger(ss, es) && Opening(ss[0], cash) && Last(ss).positions == []
    ensures Last(ss).realizedPnl == NetSales(es) - (AllCosts(es) - BuyCosts(es))
    ensures Last(ss).cash == cash + Last(ss).realizedPnl - BuyCosts(es)
  {
    CashPlusBasisConserved(ss, es);
    CostsAccumulate(ss, es);
  }

  // ---------------------------------------------------------------------------------------------
  // Positions
  // ---------------------------------------------------------------------------------------------

  ghost predicate AllPositive(ps: seq<Position>) {
    forall p :: p in ps ==> p.quantity > 0.0
  }

  lemma HoldingNonNegative(ps: seq<Position>, id: string)
    requires AllPositive(ps)
    ensures Holding(ps, id) >= 0.0
    ensures Lookup(ps, id).Some? <==> Holding(ps, id) > 0.0
  {
  }

  /** From an account without empty positions, every account has unique assets, all held long. */
  lemma {:induction false} PositionsStayPositive(ss: seq<Snapshot>, es: seq<Entry>)
    requires Ledger(ss, es) && AllPositive(ss[0].positions)
    ensures UniqueAssets(Last(ss).positions) && AllPositive(Last(ss).positions)
  {
    if es != [] {
      var n := |es| - 1;
      var f := es[n].fill;
      LedgerPrefix(ss, es, n);
      PositionsStayPositive(ss[..n + 1], es[..n]);
      FillMovesOneHolding(ss[n], f, es[n].marks, f.assetId);
      HoldingNonNegative(ss[n].positions, f.assetId);
      assert ValidFill(f) && QuantityAfter(ss[n], f) >= 0.0;
    }
  }

  /** Every account passes the snapshot constructor's own checks. */
  lemma SnapshotsAreValid(ss: seq<Snapshot>, es: seq<Entry>)
    requires Ledger(ss, es) && AllPositive(ss[0].positions) && es != []
    ensures ValidSnapshot(Last(ss))
  {
    PositionsStayPositive(ss, es);
    assert Accepted(ss[|es| - 1], Last(es).fill, Last(es).marks, Last(ss));
  }

  /** The number of fills after which the asset was last not held. */
  ghost function LastFlat(ss: seq<Snapshot>, id: string): (k: nat)
    requires ss != []
    ensures k < |ss|
  {
    if |ss| == 1 || Holding(Last(ss).positions, id) == 0.0 then |ss| - 1 else LastFlat(ss[..|ss| - 1], id)
  }

  /** All buys of the asset since it was last flat were at prices between lo and hi. */
  ghost predicate BoughtBetween(es: seq<Entry>, from: nat, id: string, lo: real, hi: real) {
    forall i :: from <= i < |es| && es[i].fill.assetId == id && es[i].fill.side.Buy? ==> lo <= es[i].fill.price <= hi
  }

  lemma WeightedAverageBetween(a: real, b: real, q: real, r: real, lo: real, hi: real)
    requires lo <= a <= hi || q == 0.0
    requires lo <= b <= hi && 0.0 <= q && 0.0 <= r && 0.0 < q + r
    ensures lo <= (q * a + r * b) / (q + r) <= hi
  {
    var total, sum := q + r, q * a + r * b;
    assert lo * total <= sum && sum <= hi * total by {
      if q != 0.0 {
        RealFacts.ProductMonotone(lo, a, q);
        RealFacts.ProductMonotone(a, hi, q);
      }
      RealFacts.ProductMonotone(lo, b, r);
      RealFacts.ProductMonotone(b, hi, r);
      assert lo * total == q * lo + r * lo && hi * total == q * hi + r * hi;
      assert q == 0.0 ==> q * a == 0.0 && q * lo == 0.0 && q * hi == 0.0;
    }
    QuotientBetween(sum, total, lo, hi);
  }

  lemma QuotientBetween(sum: real, total: real, lo: real, hi: real)
    requires 0.0 < total && lo * total <= sum <= hi * total
    ensures lo <= sum / total <= hi
  {
    RealFacts.QuotientMonotone(lo * total, sum, total);
    RealFacts.QuotientMonotone(sum, hi * total, total);
    RealFacts.QuotientCancel(lo, total);
    RealFacts.QuotientCancel(hi, total);
  }

  lemma AverageStep(s: Snapshot, f: Fill, marks: map<string, real>, id: string, lo: real, hi: real)
    requires UniqueAssets(s.positions) && AllPositive(s.positions) && Rejection(s, f).None? && ValidFill(f)
    requires Lookup(s.positions, id).Some? ==> lo <= AverageCost(s.positions, id) <= hi
    requires f.assetId == id && f.side.Buy? ==> lo <= f.price <= hi
    requires Lookup(PositionsAfter(s, f, marks), id).Some?
    ensures lo <= AverageCost(PositionsAfter(s, f, marks), id) <= hi
  {
    FillMovesOneHolding(s, f, marks, id);
    NewHoldingKept(s, f, marks);
    if f.assetId == id && f.side.Buy? {
      BuyAverageBetween(s, f, lo, hi);
    } else if f.assetId == id {
      HoldingNonNegative(s.positions, id);
    }
  }

  lemma BuyAverageBetween(s: Snapshot, f: Fill, lo: real, hi: real)
    requires AllPositive(s.positions) && ValidFill(f) && f.side.Buy? && QuantityAfter(s, f) != 0.0
    requires Lookup(s.positions, f.assetId).Some? ==> lo <= AverageCost(s.positions, f.assetId) <= hi
    requires lo <= f.price <= hi
    ensures lo <= AverageAfter(s, f) <= hi
  {
    HoldingNonNegative(s.positions, f.assetId);
    var h, a := Holding(s.positions, f.assetId), AverageCost(s.positions, f.assetId);
    hide Holding, AverageCost, AllPositive, Lookup;
    WeightedAverageIs(s, f);
    assert 0.0 < h + f.quantity;
    hide AverageAfter;
    WeightedAverageBetween(a, f.price, h, f.quantity, lo, hi);
  }

  lemma WeightedAverageIs(s: Snapshot, f: Fill)
    requires f.side.Buy? && QuantityAfter(s, f) != 0.0
    ensures var h, a := Holding(s.positions, f.assetId), AverageCost(s.positions, f.assetId);
            h + f.quantity != 0.0 && AverageAfter(s, f) == (h * a + f.quantity * f.price) / (h + f.quantity)
  {
    hide Holding, AverageCost;
  }

  lemma NewHoldingKept(s: Snapshot, f: Fill, marks: map<string, real>)
    requires UniqueAssets(s.positions) && Rejection(s, f).None?
    ensures Lookup(PositionsAfter(s, f, marks), f.assetId).Some? ==> QuantityAfter(s, f) != 0.0
  {
    if QuantityAfter(s, f) == 0.0 {
      PopLookup(s.positions, f.assetId, f.assetId);
    }
  }

  /** An average cost lies between the lowest and the highest buy price since the last flat point. */
  lemma {:induction false} AverageCostWithinBuyPrices(ss: seq<Snapshot>, es: seq<Entry>, id: string, lo: real, hi: real)
    requires Ledger(ss, es) && ss[0].positions == []
    requires BoughtBetween(es, LastFlat(ss, id), id, lo, hi)
    requires Lookup(Last(ss).positions, id).Some?
    ensures lo <= AverageCost(Last(ss).positions, id) <= hi
  {
    PositionsStayPositive(ss, es);
    HoldingNonNegative(Last(ss).positions, id);
    var n := |es| - 1;
    LedgerPrefix(ss, es, n);
    assert ss[..|ss| - 1] == ss[..n + 1];
    PositionsStayPositive(ss[..n + 1], es[..n]);
    HoldingNonNegative(ss[n].positions, id);
    if Lookup(ss[n].positions, id).Some? {
      AverageCostWithinBuyPrices(ss[..n + 1], es[..n], id, lo, hi);
    }
    AverageStep(ss[n], es[n].fill, es[n].marks, id, lo, hi);
  }

  // ---------------------------------------------------------------------------------------------
  // Splitting and reordering buys
  // ---------------------------------------------------------------------------------------------

  ghost predicate NeverSold(es: seq<Entry>, id: string) {
    forall e :: e in es && e.fill.assetId == id ==> e.fill.side.Buy?
  }

  /** Total value of the buys of an asset. */
  function Spent(es: seq<Entry>, id: string): real {
    if es == [] then 0.0
    else Spent(es[..|es| - 1], id) + if Last(es).fill.assetId == id && Last(es).fill.side.Buy?
        then Last(es).fill.Value() else 0.0
  }

  /** While an asset is only bought, its basis grows by the money spent on it. */
  lemma {:induction false} BasisIsMoneySpent(ss: seq<Snapshot>, es: seq<Entry>, id: string)
    requires Ledger(ss, es) && NeverSold(es, id)
    ensures Basis(Last(ss).positions, id) == Basis(ss[0].positions, id) + Spent(es, id)
    ensures UniqueAssets(Last(ss).positions)
  {
    if es != [] {
      var n := |es| - 1;
      LedgerPrefix(ss, es, n);
      BasisIsMoneySpent(ss[..n + 1], es[..n], id);
      assert es[n] in es;
      BasisStep(ss[n], es[n].fill, es[n].marks, id);
    }
  }

  lemma BasisStep(s: Snapshot, f: Fill, marks: map<string, real>, id: string)
    requires UniqueAssets(s.positions) && Rejection(s, f).None? && (f.assetId == id ==> f.side.Buy?)
    ensures UniqueAssets(PositionsAfter(s, f, marks))
    ensures Basis(PositionsAfter(s, f, marks), id) == Basis(s.positions, id) + if f.assetId == id then f.Value()
            else 0.0
  {
    FillMovesOneHolding(s, f, marks, id);
    FillMovesBasis(s, f, marks);
    if f.assetId != id {
      SameLookupSameBasis(PositionsAfter(s, f, marks), s.positions, id);
    }
    hide PositionsAfter, Basis, Lookup, UniqueAssets, Rejection, Book;
  }

  lemma SameLookupSameBasis(ps: seq<Position>, qs: seq<Position>, id: string)
    requires Lookup(ps, id) == Lookup(qs, id)
    ensures Basis(ps, id) == Basis(qs, id)
  {
  }

  /**
   Two series of fills from the same account that never sell an asset and buy the same quantity of
   it for the same money, however split and in whatever order, end with the same average cost.
   */
  lemma AverageIgnoresSplitAndOrder(ss: seq<Snapshot>, es: seq<Entry>, ts: seq<Snapshot>, fs: seq<Entry>, id: string)
    requires Ledger(ss, es) && Ledger(ts, fs) && ss[0] == ts[0]
    requires NeverSold(es, id) && NeverSold(fs, id)
    requires NetQuantity(es, id) == NetQuantity(fs, id) && Spent(es, id) == Spent(fs, id)
    requires Holding(Last(ss).positions, id) != 0.0
    ensures Holding(Last(ss).positions, id) == Holding(Last(ts).positions, id)
    ensures AverageCost(Last(ss).positions, id) == AverageCost(Last(ts).positions, id)
  {
    var ps, qs := Last(ss).positions, Last(ts).positions;
    assert Holding(ps, id) == Holding(qs, id) by {
      HoldingsAreNetPurchases(ss, es, id);
      HoldingsAreNetPurchases(ts, fs, id);
    }
    assert Basis(ps, id) == Basis(qs, id) by {
      BasisIsMoneySpent(ss, es, id);
      BasisIsMoneySpent(ts, fs, id);
    }
    SameBasisSameAverage(ps, qs, id);
  }

  lemma SameBasisSameAverage(ps: seq<Position>, qs: seq<Position>, id: string)
    requires Basis(ps, id) == Basis(qs, id) && Holding(ps, id) == Holding(qs, id) != 0.0
    ensures AverageCost(ps, id) == AverageCost(qs, id)
  {
    RealFacts.QuotientCancel(AverageCost(ps, id), Holding(ps, id));
    RealFacts.QuotientCancel(AverageCost(qs, id), Holding(ps, id));
  }

  // ---------------------------------------------------------------------------------------------
  // Peak and drawdown
  // ---------------------------------------------------------------------------------------------

  /** The peak is the highest NAV so far and the drawdown is the fraction lost since, in [0, 1]. */
  lemma {:induction false} PeakIsRunningMaximum(ss: seq<Snapshot>, es: seq<Entry>)
    requires Ledger(ss, es) && ss[0].peakNav == ss[0].nav
    ensures forall i :: 0 <= i < |ss| ==> ss[i].nav <= Last(ss).peakNav
    ensures exists i :: 0 <= i < |ss| && ss[i].nav == Last(ss).peakNav
  {
    if es != [] {
      var n := |es| - 1;
      LedgerPrefix(ss, es, n);
      PeakIsRunningMaximum(ss[..n + 1], es[..n]);
      assert Accepted(ss[n], es[n].fill, es[n].marks, ss[n + 1]);
      assert forall i :: 0 <= i <= n ==> ss[i] == ss[..n + 1][i];
      var i :| 0 <= i < |ss[..n + 1]| && ss[..n + 1][i].nav == ss[n].peakNav;
      assert Last(ss) == ss[n + 1];
      if Last(ss).peakNav == ss[n].peakNav {
        assert ss[i].nav == Last(ss).peakNav;
      }
    }
  }

  lemma DrawdownIsAFraction(ss: seq<Snapshot>, es: seq<Entry>)
    requires Ledger(ss, es) && es != []
    ensures 0.0 <= Last(ss).drawdown <= 1.0
    ensures Last(ss).drawdown == 0.0 <==> Last(ss).nav == Last(ss).peakNav
    ensures 0.0 <= Last(ss).grossExposure <= 1.0
  {
    var s, t, f := ss[|es| - 1], Last(ss), Last(es).fill;
    assert Accepted(s, f, Last(es).marks, t);
    if t.peakNav > 0.0 {
      FractionOf(t.peakNav - t.nav, t.peakNav);
    }
    if t.nav > 0.0 {
      FractionOf(t.marketValue, t.nav);
    }
  }

  lemma FractionOf(a: real, b: real)
    requires 0.0 <= a <= b && 0.0 < b
    ensures 0.0 <= a / b <= 1.0
    ensures a / b == 0.0 <==> a == 0.0
  {
    RealFacts.QuotientMonotone(0.0, a, b);
    RealFacts.QuotientMonotone(a, b, b);
    assert a / b * b == a;
  }
}
