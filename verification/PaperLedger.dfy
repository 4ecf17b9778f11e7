/** The paper account: fills folded into cash, average cost, realised P&L, NAV, peak and drawdown. */
module PaperLedger {
  import opened Prelude

  datatype Side = Buy | SellExistingPosition

  datatype Fill = Fill(
    assetId: string,
    side: Side,
    quantity: real,
    price: real,
    fees: real,
    fxCosts: real,
    cashAfter: real,
    positionAfter: real
  ) {
    function Costs(): real { fees + fxCosts }
    function Value(): real { quantity * price }
  }

  datatype Position = Position(
    assetId: string,
    quantity: real,
    averageCost: real,
    markPrice: real,
    sector: string,
    currency: string
  )

  datatype KillState = Normal | EntryRestricted | Paused | Halted

  /** What a fill hands on from the snapshot before it. */
  datatype Carried = Carried(
    portfolioId: string,
    taxEstimate: real,
    sectorExposure: seq<(string, real)>,
    currencyExposure: seq<(string, real)>,
    benchmarkNav: Option<real>,
    killState: KillState
  )

  datatype Snapshot = Snapshot(
    timestamp: Time,
    cash: real,
    marketValue: real,
    nav: real,
    realizedPnl: real,
    unrealizedPnl: real,
    transactionCosts: real,
    fxCosts: real,
    grossExposure: real,
    drawdown: real,
    peakNav: real,
    positions: seq<Position>,
    carried: Carried
  )

  /** The constructor of a fill rejects negative numbers. */
  predicate ValidFill(f: Fill) {
    f.quantity >= 0.0 && f.price >= 0.0 && f.fees >= 0.0 && f.fxCosts >= 0.0 && f.cashAfter >= 0.0
        && f.positionAfter >= 0.0
  }

  /** The constructor of a snapshot. */
  predicate ValidSnapshot(s: Snapshot) {
    && s.cash >= 0.0 && s.marketValue >= 0.0 && s.nav == s.cash + s.marketValue
    && NoShorts(s.positions)
  }

  predicate NoShorts(ps: seq<Position>) {
    forall p :: p in ps ==> p.quantity >= 0.0
  }

  // ---------------------------------------------------------------------------------------------
  // The positions dictionary, in insertion order
  // ---------------------------------------------------------------------------------------------

  ghost predicate UniqueAssets(ps: seq<Position>) {
    forall i, j :: 0 <= i < j < |ps| ==> ps[i].assetId != ps[j].assetId
  }

  function Lookup(ps: seq<Position>, id: string): (r: Option<Position>)
    ensures r.Some? ==> r.value in ps && r.value.assetId == id
    ensures r.None? ==> forall p :: p in ps ==> p.assetId != id
  {
    if ps == [] then None
    else if ps[0].assetId == id then Some(ps[0])
    else Lookup(ps[1..], id)
  }

  /** Dictionary assignment: replaces in place, or appends a new key. */
  function Put(ps: seq<Position>, p: Position): seq<Position> {
    if ps == [] then [p]
    else if ps[0].assetId == p.assetId then [p] + ps[1..]
    else [ps[0]] + Put(ps[1..], p)
  }

  function Pop(ps: seq<Position>, id: string): seq<Position> {
    if ps == [] then []
    else if ps[0].assetId == id then ps[1..]
    else [ps[0]] + Pop(ps[1..], id)
  }

  function Mark(marks: map<string, real>, p: Position): real {
    if p.assetId in marks then marks[p.assetId] else p.markPrice
  }

  /** Market value of the positions. */
  function Marked(ps: seq<Position>, marks: map<string, real>): real {
    if ps == [] then 0.0 else ps[0].quantity * Mark(marks, ps[0]) + Marked(ps[1..], marks)
  }

  /** Cost basis of the positions. */
  function Book(ps: seq<Position>): real {
    if ps == [] then 0.0 else ps[0].quantity * ps[0].averageCost + Book(ps[1..])
  }

  function Holding(ps: seq<Position>, id: string): real {
    var p := Lookup(ps, id);
    if p.None? then 0.0 else p.value.quantity
  }

  function AverageCost(ps: seq<Position>, id: string): real {
    var p := Lookup(ps, id);
    if p.None? then 0.0 else p.value.averageCost
  }

  /** Money tied up in one asset. */
  function Basis(ps: seq<Position>, id: string): real {
    Holding(ps, id) * AverageCost(ps, id)
  }

  lemma {:induction false} PutUnique(ps: seq<Position>, p: Position)
    requires UniqueAssets(ps)
    ensures UniqueAssets(Put(ps, p))
    ensures forall q :: q in Put(ps, p) ==> q == p || q in ps
  {
    if ps != [] && ps[0].assetId != p.assetId {
      PutUnique(ps[1..], p);
      HeadUnique(ps[0], Put(ps[1..], p));
    }
  }

  lemma HeadUnique(p: Position, rest: seq<Position>)
    requires UniqueAssets(rest) && forall q :: q in rest ==> q.assetId != p.assetId
    ensures UniqueAssets([p] + rest)
  {
  }

  lemma {:induction false} PutLookup(ps: seq<Position>, p: Position, id: string)
    ensures Lookup(Put(ps, p), id) == if id == p.assetId then Some(p) else Lookup(ps, id)
  {
    if ps != [] && ps[0].assetId != p.assetId {
      PutLookup(ps[1..], p, id);
      assert Put(ps, p)[1..] == Put(ps[1..], p);
    } else if ps != [] {
      assert Put(ps, p)[1..] == ps[1..];
    }
  }

  lemma {:induction false} PutBook(ps: seq<Position>, p: Position)
    ensures Book(Put(ps, p)) == Book(ps) - Basis(ps, p.assetId) + p.quantity * p.averageCost
  {
    hide Basis;
    if ps == [] {
      BasisOfHead(ps, p.assetId);
      assert Put(ps, p)[1..] == [];
    } else if ps[0].assetId != p.assetId {
      PutBook(ps[1..], p);
      BasisOfTail(ps, p.assetId);
      assert Put(ps, p)[1..] == Put(ps[1..], p);
    } else {
      BasisOfHead(ps, p.assetId);
      assert Put(ps, p)[1..] == ps[1..];
    }
  }

  lemma {:induction false} PopUnique(ps: seq<Position>, gone: string)
    requires UniqueAssets(ps)
    ensures UniqueAssets(Pop(ps, gone))
    ensures forall q :: q in Pop(ps, gone) ==> q in ps && q.assetId != gone
  {
    if ps != [] && ps[0].assetId != gone {
      PopUnique(ps[1..], gone);
      HeadUnique(ps[0], Pop(ps[1..], gone));
    }
  }

  lemma {:induction false} PopLookup(ps: seq<Position>, gone: string, id: string)
    requires UniqueAssets(ps)
    ensures Lookup(Pop(ps, gone), id) == if id == gone then None else Lookup(ps, id)
  {
    if ps != [] && ps[0].assetId != gone {
      PopLookup(ps[1..], gone, id);
      assert Pop(ps, gone)[1..] == Pop(ps[1..], gone);
    } else if id == gone {
      PopUnique(ps, gone);
    }
  }

  lemma {:induction false} PopBook(ps: seq<Position>, gone: string)
    ensures Book(Pop(ps, gone)) == Book(ps) - Basis(ps, gone)
  {
    if ps == [] || ps[0].assetId == gone {
      BasisOfHead(ps, gone);
    } else {
      PopBook(ps[1..], gone);
      BasisOfTail(ps, gone);
      assert Pop(ps, gone)[1..] == Pop(ps[1..], gone);
    }
  }

  lemma BasisOfHead(ps: seq<Position>, id: string)
    requires ps == [] || ps[0].assetId == id
    ensures Basis(ps, id) == if ps == [] then 0.0 else ps[0].quantity * ps[0].averageCost
  {
  }

  lemma BasisOfTail(ps: seq<Position>, id: string)
    requires ps != [] && ps[0].assetId != id
    ensures Basis(ps, id) == Basis(ps[1..], id)
  {
  }

  // ---------------------------------------------------------------------------------------------
  // One fill
  // ---------------------------------------------------------------------------------------------

  /** Cash after the fill, before any check. */
  function CashAfter(s: Snapshot, f: Fill): real {
    if f.side.Buy? then s.cash - (f.Value() + f.Costs()) else s.cash + (f.Value() - f.Costs())
  }

  function QuantityAfter(s: Snapshot, f: Fill): real {
    if f.side.Buy? then Holding(s.positions, f.assetId) + f.quantity else Holding(s.positions, f.assetId) - f.quantity
  }

  /** Weighted average of the held and the bought quantity; a sale leaves it alone. */
  function AverageAfter(s: Snapshot, f: Fill): real
    requires f.side.Buy? ==> QuantityAfter(s, f) != 0.0
  {
    if f.side.Buy? then (Basis(s.positions, f.assetId) + f.Value()) / QuantityAfter(s, f)
    else AverageCost(s.positions, f.assetId)
  }

  function RealizedBy(s: Snapshot, f: Fill): real {
    if f.side.Buy? then 0.0 else f.quantity * (f.price - AverageCost(s.positions, f.assetId)) - f.Costs()
  }

  /** The reasons to reject a fill, in the order in which they are raised. */
  function Rejection(s: Snapshot, f: Fill): Option<Violation> {
    if f.side.SellExistingPosition? && f.quantity > Holding(s.positions, f.assetId) then Some(IntegrityViolation)
    else if CashAfter(s, f) != f.cashAfter then Some(IntegrityViolation)
    else if f.side.Buy? && QuantityAfter(s, f) == 0.0 then Some(DivisionByZero)
    else if QuantityAfter(s, f) != f.positionAfter || CashAfter(s, f) < 0.0 then Some(IntegrityViolation)
    else None
  }

  function NewPosition(s: Snapshot, f: Fill, marks: map<string, real>): Position
    requires f.side.Buy? ==> QuantityAfter(s, f) != 0.0
  {
    var held := Lookup(s.positions, f.assetId);
    Position(
      f.assetId, QuantityAfter(s, f), AverageAfter(s, f),
      if f.assetId in marks then marks[f.assetId] else f.price,
      if held.None? then "unknown" else held.value.sector,
      if held.None? then "unknown" else held.value.currency)
  }

  function PositionsAfter(s: Snapshot, f: Fill, marks: map<string, real>): seq<Position>
    requires f.side.Buy? ==> QuantityAfter(s, f) != 0.0
  {
    if QuantityAfter(s, f) == 0.0 then Pop(s.positions, f.assetId) else Put(s.positions, NewPosition(s, f, marks))
  }

  /** t is the account after the accepted fill f. */
  ghost predicate Accepted(s: Snapshot, f: Fill, marks: map<string, real>, t: Snapshot) {
    && Rejection(s, f).None?
    && t.positions == PositionsAfter(s, f, marks)
    && t.cash == CashAfter(s, f)
    && t.realizedPnl == s.realizedPnl + RealizedBy(s, f)
    && t.marketValue == Marked(t.positions, marks)
    && t.nav == t.cash + t.marketValue
    && t.unrealizedPnl == t.marketValue - Book(t.positions)
    && t.transactionCosts == s.transactionCosts + f.fees
    && t.fxCosts == s.fxCosts + f.fxCosts
    && t.peakNav == Max(s.peakNav, t.nav)
    && t.drawdown == (if t.peakNav == 0.0 then 0.0 else (t.peakNav - t.nav) / t.peakNav)
    && t.grossExposure == (if t.nav == 0.0 then 0.0 else t.marketValue / t.nav)
    && t.marketValue >= 0.0 && NoShorts(t.positions)
    && t.carried == s.carried
  }

  lemma BuySettles(s: Snapshot, f: Fill)
    requires f.side.Buy? && QuantityAfter(s, f) != 0.0
    ensures var h, a := Holding(s.positions, f.assetId), AverageCost(s.positions, f.assetId);
            h + f.quantity != 0.0 && AverageAfter(s, f) == (h * a + f.quantity * f.price) / (h + f.quantity)
    ensures RealizedBy(s, f) == 0.0 && CashAfter(s, f) == s.cash - (f.quantity * f.price + (f.fees + f.fxCosts))
  {
    hide Holding, AverageCost;
  }

  lemma SaleSettles(s: Snapshot, f: Fill)
    requires f.side.SellExistingPosition?
    ensures var a := AverageCost(s.positions, f.assetId);
            AverageAfter(s, f) == a && RealizedBy(s, f) == f.quantity * (f.price - a) - (f.fees + f.fxCosts)
    ensures CashAfter(s, f) == s.cash + (f.quantity * f.price - (f.fees + f.fxCosts))
  {
    hide AverageCost;
  }

  /** The first half of `apply_fill`: cash, quantity, average and realized P&L after the fill. */
  method SettleFill(s: Snapshot, f: Fill) returns (r: Result<(real, real, real, real), Violation>)
    ensures r.Ok? <==> Rejection(s, f).None?
    ensures r.Err? ==> Rejection(s, f) == Some(r.error)
    ensures r.Ok? ==> r.value == (CashAfter(s, f), QuantityAfter(s, f), AverageAfter(s, f),
                                  s.realizedPnl + RealizedBy(s, f))
  {
    var held := Lookup(s.positions, f.assetId);
    hide Lookup;
    var oldQty := if held.None? then 0.0 else held.value.quantity;
    var costs := f.fees + f.fxCosts;
    var cash := s.cash;
    var realized := s.realizedPnl;
    var newQty, average: real;
    if f.side.Buy? {
      newQty := oldQty + f.quantity;
      var debit := f.quantity * f.price + costs;
      cash := cash - debit;
      if cash != f.cashAfter {
        return Err(IntegrityViolation);
      }
      if newQty == 0.0 {
        return Err(DivisionByZero);
      }
      average := (oldQty * (if held.None? then 0.0 else held.value.averageCost) + f.quantity * f.price) / newQty;
      BuySettles(s, f);
    } else {
      if f.quantity > oldQty {
        return Err(IntegrityViolation);
      }
      newQty := oldQty - f.quantity;
      var credit := f.quantity * f.price - costs;
      cash := cash + credit;
      if cash != f.cashAfter {
        return Err(IntegrityViolation);
      }
      average := if held.None? then 0.0 else held.value.averageCost;
      assert average == AverageCost(s.positions, f.assetId);
      realized := realized + (f.quantity * (f.price - average) - costs);
      SaleSettles(s, f);
    }
    assert realized == s.realizedPnl + RealizedBy(s, f) && average == AverageAfter(s, f);
    if newQty != f.positionAfter || cash < 0.0 {
      return Err(IntegrityViolation);
    }
    return Ok((cash, newQty, average, realized));
  }

  /** What a position is worth: its quantity times the given mark, or times its stored one for want of it. */
  function Worth(p: Position, marks: map<string, real>): real {
    p.quantity * (if p.assetId in marks then marks[p.assetId] else p.markPrice)
  }

  /** The worth of the positions, added up from the last one on. */
  function Valuation(ps: seq<Position>, marks: map<string, real>): real {
    if ps == [] then 0.0 else Worth(ps[|ps| - 1], marks) + Valuation(ps[..|ps| - 1], marks)
  }

  lemma {:induction false} ValuationOfHead(ps: seq<Position>, marks: map<string, real>)
    requires ps != []
    ensures Valuation(ps, marks) == Worth(ps[0], marks) + Valuation(ps[1..], marks)
  {
    hide Worth;
    var n := |ps| - 1;
    if n > 0 {
      ValuationOfHead(ps[..n], marks);
      assert ps[..n][1..] == ps[1..][..n - 1];
    }
  }

  lemma MarkIsWorth(p: Position, marks: map<string, real>)
    ensures p.quantity * Mark(marks, p) == Worth(p, marks)
  {
  }

  lemma {:induction false} MarkedIsValuation(ps: seq<Position>, marks: map<string, real>)
    ensures Marked(ps, marks) == Valuation(ps, marks)
  {
    hide Worth, Mark, Valuation;
    if ps == [] {
      NothingIsWorthNothing(marks);
    } else {
      MarkedIsValuation(ps[1..], marks);
      ValuationOfHead(ps, marks);
      MarkIsWorth(ps[0], marks);
    }
  }

  lemma NothingIsWorthNothing(marks: map<string, real>)
    ensures Valuation([], marks) == 0.0
  {
  }

  /** `apply_fill`. */
  method ApplyFill(s: Snapshot, f: Fill, at: Time, marks: map<string, real>) returns (r: Result<Snapshot, Violation>)
    requires UniqueAssets(s.positions)
    ensures r.Ok? <==> && Rejection(s, f).None? && Marked(PositionsAfter(s, f, marks), marks) >= 0.0
                       && NoShorts(PositionsAfter(s, f, marks))
    ensures r.Ok? ==> Accepted(s, f, marks, r.value) && r.value.timestamp == at
    ensures r.Ok? ==> r.value.marketValue == Valuation(r.value.positions, marks)
    ensures r.Err? ==> r.error == if Rejection(s, f).Some? then Rejection(s, f).value else ValidationError
  {
    var settled := SettleFill(s, f);
    if settled.Err? {
      return Err(settled.error);
    }
    var (cash, newQty, average, realized) := settled.value;
    var positions := s.positions;
    var held := Lookup(positions, f.assetId);
    if newQty == 0.0 {
      positions := Pop(positions, f.assetId);
    } else {
      positions := Put(positions, Position(
        f.assetId, newQty, average,
        if f.assetId in marks then marks[f.assetId] else f.price,
        if held.None? then "unknown" else held.value.sector,
        if held.None? then "unknown" else held.value.currency));
    }
    assert positions == PositionsAfter(s, f, marks);
    hide PositionsAfter, Marked, Valuation, Book, NoShorts, CashAfter, QuantityAfter, AverageAfter, RealizedBy,
        Rejection, Lookup, Put, Pop, Max;
    var marked := Marked(positions, marks);
    MarkedIsValuation(positions, marks);
    var nav := cash + marked;
    var peak := Max(s.peakNav, nav);
    var drawdown := if peak == 0.0 then 0.0 else (peak - nav) / peak;
    if marked < 0.0 || !NoShorts(positions) {
      return Err(ValidationError);
    }
    r := Ok(Snapshot(
      at, cash, marked, nav, realized, nav - cash - Book(positions),
      s.transactionCosts + f.fees, s.fxCosts + f.fxCosts,
      if nav == 0.0 then 0.0 else marked / nav, drawdown, peak, positions, s.carried));
  }

  /**
   From a snapshot without shorts no valid fill leads to a short: the constructor can then only object to the
   marks.
   */
  lemma NoFillGoesShort(s: Snapshot, f: Fill, marks: map<string, real>)
    requires UniqueAssets(s.positions) && NoShorts(s.positions) && ValidFill(f) && Rejection(s, f).None?
    ensures NoShorts(PositionsAfter(s, f, marks))
  {
    FillMovesOneHolding(s, f, marks, f.assetId);
    hide PositionsAfter, AverageAfter, Lookup;
    assert Holding(s.positions, f.assetId) >= 0.0 by {
      var held := Lookup(s.positions, f.assetId);
      assert held.Some? ==> held.value in s.positions;
    }
  }

  /** An accepted fill moves one holding and leaves every other position as it is. */
  lemma FillMovesOneHolding(s: Snapshot, f: Fill, marks: map<string, real>, id: string)
    requires UniqueAssets(s.positions) && Rejection(s, f).None?
    ensures var ps := PositionsAfter(s, f, marks);
            && UniqueAssets(ps)
            && (id != f.assetId ==> Lookup(ps, id) == Lookup(s.positions, id))
            && Holding(ps, f.assetId) == QuantityAfter(s, f)
            && (QuantityAfter(s, f) != 0.0 ==> AverageCost(ps, f.assetId) == AverageAfter(s, f))
            && forall p :: p in ps ==>
                 p in s.positions || (p.assetId == f.assetId && p.quantity == QuantityAfter(s, f) != 0.0)
  {
    if QuantityAfter(s, f) == 0.0 {
      PopUnique(s.positions, f.assetId);
      PopLookup(s.positions, f.assetId, id);
      PopLookup(s.positions, f.assetId, f.assetId);
    } else {
      var p := NewPosition(s, f, marks);
      PutUnique(s.positions, p);
      PutLookup(s.positions, p, id);
      PutLookup(s.positions, p, f.assetId);
    }
  }

  /** A buy adds its value to the cost basis; a sale takes out average cost. */
  lemma FillMovesBasis(s: Snapshot, f: Fill, marks: map<string, real>)
    requires UniqueAssets(s.positions) && Rejection(s, f).None?
    ensures Basis(PositionsAfter(s, f, marks), f.assetId) == Basis(s.positions, f.assetId) + BasisChange(s, f)
    ensures Book(PositionsAfter(s, f, marks)) == Book(s.positions) + BasisChange(s, f)
  {
    BasisAfterFill(s, f);
    BasisOfNewHolding(s, f, marks);
    BookOfNewPositions(s, f, marks);
  }

  lemma BasisOfNewHolding(s: Snapshot, f: Fill, marks: map<string, real>)
    requires UniqueAssets(s.positions) && Rejection(s, f).None?
    ensures Basis(PositionsAfter(s, f, marks), f.assetId) == QuantityAfter(s, f) * AverageAfter(s, f)
  {
    var ps := PositionsAfter(s, f, marks);
    FillMovesOneHolding(s, f, marks, f.assetId);
    SameProduct(Holding(ps, f.assetId), AverageCost(ps, f.assetId), QuantityAfter(s, f), AverageAfter(s, f));
    hide PositionsAfter, Holding, AverageCost, QuantityAfter, AverageAfter, Rejection, UniqueAssets, Lookup;
  }

  lemma SameProduct(a: real, b: real, c: real, d: real)
    requires a == c && (a != 0.0 ==> b == d)
    ensures a * b == c * d
  {
  }

  lemma BookOfNewPositions(s: Snapshot, f: Fill, marks: map<string, real>)
    requires Rejection(s, f).None?
    ensures Book(PositionsAfter(s, f, marks)) ==
            Book(s.positions) - Basis(s.positions, f.assetId) + QuantityAfter(s, f) * AverageAfter(s, f)
  {
    hide Book, Basis, QuantityAfter, AverageAfter, Lookup, Put, Pop;
    if QuantityAfter(s, f) == 0.0 {
      PopBook(s.positions, f.assetId);
      SameProduct(QuantityAfter(s, f), AverageAfter(s, f), 0.0, 0.0);
    } else {
      var p := NewPosition(s, f, marks);
      PutBook(s.positions, p);
      SameProduct(p.quantity, p.averageCost, QuantityAfter(s, f), AverageAfter(s, f));
    }
  }

  function BasisChange(s: Snapshot, f: Fill): real {
    if f.side.Buy? then f.Value() else -(f.quantity * AverageCost(s.positions, f.assetId))
  }

  /** Average cost times the remaining quantity, for a sale; the weighted average undone, for a buy. */
  lemma BasisAfterFill(s: Snapshot, f: Fill)
    requires f.side.Buy? ==> QuantityAfter(s, f) != 0.0
    ensures QuantityAfter(s, f) * AverageAfter(s, f) == Basis(s.positions, f.assetId) + BasisChange(s, f)
  {
    var h, a := Holding(s.positions, f.assetId), AverageCost(s.positions, f.assetId);
    if f.side.SellExistingPosition? {
      assert (h - f.quantity) * a == h * a - f.quantity * a;
    }
  }
}
