/** What an accepted fill leaves behind, in terms of the account, the fill and the marks. */
module FillLaws {
  import opened Prelude
  import opened RealFacts
  import opened PaperLedger

  // ---------------------------------------------------------------------------------------------
  // Which fills are accepted
  // ---------------------------------------------------------------------------------------------

  /** What is held of an asset is the quantity of its position, and nothing if it has none. */
  ghost predicate Holds(ps: seq<Position>, id: string, quantity: real, averageCost: real) {
    if exists p :: p in ps && p.assetId == id
    then exists p :: p in ps && p.assetId == id && p.quantity == quantity && p.averageCost == averageCost
    else quantity == 0.0 && averageCost == 0.0
  }

  lemma HoldsIff(ps: seq<Position>, id: string, quantity: real, averageCost: real)
    requires UniqueAssets(ps)
    ensures Holds(ps, id, quantity, averageCost) <==> Holding(ps, id) == quantity && AverageCost(ps, id) == averageCost
  {
    var p := Lookup(ps, id);
    if p.Some? {
      forall q | q in ps && q.assetId == id ensures q == p.value {
        var i :| 0 <= i < |ps| && ps[i] == q;
        var j :| 0 <= j < |ps| && ps[j] == p.value;
      }
    }
  }

  /** The money that the fill moves, costs included. */
  function CashMoved(f: Fill): real {
    if f.side == Buy then -(f.quantity * f.price) - f.fees - f.fxCosts else f.quantity * f.price - f.fees - f.fxCosts
  }

  function QuantityMoved(f: Fill): real {
    if f.side == Buy then f.quantity else -f.quantity
  }

  /**
   A fill is accepted if and only if it sells no more than is held, its own report of cash and position agrees with
   the account, the cash does not go below zero, and a buy leaves something held.
   */
  lemma AcceptedIff(s: Snapshot, f: Fill, held: real, averageCost: real)
    requires UniqueAssets(s.positions) && Holds(s.positions, f.assetId, held, averageCost)
    ensures Rejection(s, f).None? <==>
            && (f.side == SellExistingPosition ==> f.quantity <= held)
            && (f.side == Buy ==> held + f.quantity != 0.0)
            && f.cashAfter == s.cash + CashMoved(f) && f.positionAfter == held + QuantityMoved(f) && f.cashAfter >= 0.0
    ensures Rejection(s, f) == Some(DivisionByZero) <==>
            f.side == Buy && held + f.quantity == 0.0 && f.cashAfter == s.cash + CashMoved(f)
    ensures Rejection(s, f).Some? ==>
              Rejection(s, f).value == DivisionByZero || Rejection(s, f).value == IntegrityViolation
  {
    HoldsIff(s.positions, f.assetId, held, averageCost);
    hide Holding, AverageCost, Holds, UniqueAssets;
  }

  // ---------------------------------------------------------------------------------------------
  // What becomes of the position
  // ---------------------------------------------------------------------------------------------

  /** The position that the fill leaves: reported quantity, averaged cost, given mark or fill price, old labels. */
  ghost predicate LeavesPosition(s: Snapshot, f: Fill, marks: map<string, real>, held: real, averageCost: real,
                                 p: Position) {
    && p.assetId == f.assetId && p.quantity == f.positionAfter
    && (if f.side == Buy then p.averageCost * p.quantity == held * averageCost + f.quantity * f.price
        else p.averageCost == averageCost)
    && p.markPrice == (if f.assetId in marks then marks[f.assetId] else f.price)
    && ((forall q :: q in s.positions ==> q.assetId != f.assetId) ==> p.sector == "unknown" && p.currency == "unknown")
    && (forall q :: q in s.positions && q.assetId == f.assetId ==> p.sector == q.sector && p.currency == q.currency)
  }

  /** The position took the place of the one of its asset, or came behind all others if there was none. */
  ghost predicate TakesPlace(ps: seq<Position>, qs: seq<Position>, p: Position) {
    || (exists k :: 0 <= k < |ps| && ps[k].assetId == p.assetId && qs == ps[k := p])
    || ((forall q :: q in ps ==> q.assetId != p.assetId) && qs == ps + [p])
  }

  /** The position of the asset was taken out, if there was one. */
  ghost predicate TakenOut(ps: seq<Position>, qs: seq<Position>, id: string) {
    || (exists k :: 0 <= k < |ps| && ps[k].assetId == id && qs == ps[..k] + ps[k + 1..])
    || ((forall q :: q in ps ==> q.assetId != id) && qs == ps)
  }

  lemma ReplacedInTail(ps: seq<Position>, p: Position, k: nat)
    requires ps != [] && k < |ps[1..]|
    ensures [ps[0]] + ps[1..][k := p] == ps[k + 1 := p]
  {
  }

  lemma RemovedFromTail(ps: seq<Position>, k: nat)
    requires ps != [] && k < |ps[1..]|
    ensures [ps[0]] + (ps[1..][..k] + ps[1..][k + 1..]) == ps[..k + 1] + ps[k + 1 + 1..]
  {
  }

  lemma {:induction false} PutTakesPlace(ps: seq<Position>, p: Position)
    ensures TakesPlace(ps, Put(ps, p), p)
  {
    if ps != [] {
      if ps[0].assetId == p.assetId {
        assert Put(ps, p) == ps[0 := p];
      } else {
        PutTakesPlace(ps[1..], p);
        hide Put;
        TailTakesPlace(ps, Put(ps[1..], p), p);
      }
    }
  }

  lemma TailTakesPlace(ps: seq<Position>, after: seq<Position>, p: Position)
    requires ps != [] && ps[0].assetId != p.assetId && TakesPlace(ps[1..], after, p)
    ensures TakesPlace(ps, [ps[0]] + after, p)
  {
    var rest := ps[1..];
    if k :| 0 <= k < |rest| && rest[k].assetId == p.assetId && after == rest[k := p] {
      ReplacedInTail(ps, p, k);
      assert ps[k + 1].assetId == p.assetId;
    } else {
      assert ps == [ps[0]] + rest && [ps[0]] + (rest + [p]) == ps + [p];
    }
  }

  lemma {:induction false} PopTakesOut(ps: seq<Position>, gone: string)
    ensures TakenOut(ps, Pop(ps, gone), gone)
  {
    if ps != [] {
      if ps[0].assetId == gone {
        assert Pop(ps, gone) == ps[..0] + ps[0 + 1..];
      } else {
        PopTakesOut(ps[1..], gone);
        hide Pop;
        TailTakenOut(ps, Pop(ps[1..], gone), gone);
      }
    }
  }

  lemma TailTakenOut(ps: seq<Position>, after: seq<Position>, gone: string)
    requires ps != [] && ps[0].assetId != gone && TakenOut(ps[1..], after, gone)
    ensures TakenOut(ps, [ps[0]] + after, gone)
  {
    var rest := ps[1..];
    if k :| 0 <= k < |rest| && rest[k].assetId == gone && after == rest[..k] + rest[k + 1..] {
      RemovedFromTail(ps, k);
      assert ps[k + 1].assetId == gone;
    } else {
      assert ps == [ps[0]] + rest;
    }
  }

  lemma NewPositionIsLeft(s: Snapshot, f: Fill, marks: map<string, real>, held: real, averageCost: real)
    requires UniqueAssets(s.positions) && Holds(s.positions, f.assetId, held, averageCost)
    requires Rejection(s, f).None? && QuantityAfter(s, f) != 0.0
    ensures LeavesPosition(s, f, marks, held, averageCost, NewPosition(s, f, marks))
  {
    HoldsIff(s.positions, f.assetId, held, averageCost);
    BasisAfterFill(s, f);
    var known := Lookup(s.positions, f.assetId);
    if known.Some? {
      forall q | q in s.positions && q.assetId == f.assetId ensures q == known.value {
        var i :| 0 <= i < |s.positions| && s.positions[i] == q;
        var j :| 0 <= j < |s.positions| && s.positions[j] == known.value;
      }
    }
    hide Lookup, UniqueAssets, Holds;
  }

  /** After an accepted fill the position is the one described, in its old place, or it is gone. */
  lemma FillLeavesPosition(s: Snapshot, f: Fill, marks: map<string, real>, t: Snapshot, held: real, averageCost: real)
    requires UniqueAssets(s.positions) && Holds(s.positions, f.assetId, held, averageCost) && Accepted(s, f, marks, t)
    ensures if f.positionAfter == 0.0 then TakenOut(s.positions, t.positions, f.assetId)
            else exists p :: && LeavesPosition(s, f, marks, held, averageCost, p)
                             && TakesPlace(s.positions, t.positions, p)
  {
    assert t.positions == PositionsAfter(s, f, marks) && Rejection(s, f).None?;
    assert QuantityAfter(s, f) == f.positionAfter;
    hide Accepted, Rejection, LeavesPosition, TakesPlace, TakenOut, Holds, QuantityAfter, NewPosition;
    if f.positionAfter == 0.0 {
      PopTakesOut(s.positions, f.assetId);
    } else {
      NewPositionIsLeft(s, f, marks, held, averageCost);
      PutTakesPlace(s.positions, NewPosition(s, f, marks));
    }
  }

  /** A sale realises the distance of its price from the average cost, less its costs; a buy realises nothing. */
  function RealizedOn(f: Fill, averageCost: real): real {
    if f.side == Buy then 0.0 else f.quantity * f.price - f.quantity * averageCost - f.fees - f.fxCosts
  }

  /** The figures of the account after an accepted fill. */
  ghost predicate Figures(s: Snapshot, f: Fill, marks: map<string, real>, t: Snapshot, averageCost: real) {
    && t.cash == s.cash + CashMoved(f) && t.cash == f.cashAfter
    && t.realizedPnl == s.realizedPnl + RealizedOn(f, averageCost)
    && t.transactionCosts == s.transactionCosts + f.fees && t.fxCosts == s.fxCosts + f.fxCosts
    && t.marketValue == Valuation(t.positions, marks) && t.nav == t.cash + Valuation(t.positions, marks)
    && t.peakNav >= s.peakNav && t.peakNav >= t.nav && (t.peakNav == s.peakNav || t.peakNav == t.nav)
    && (if t.peakNav == 0.0 then t.drawdown == 0.0 else t.drawdown * t.peakNav == t.peakNav - t.nav)
    && (if t.nav == 0.0 then t.grossExposure == 0.0 else t.grossExposure * t.nav == t.marketValue)
    && t.carried.portfolioId == s.carried.portfolioId && t.carried == s.carried
  }

  lemma RatesOfAccount(t: Snapshot)
    requires t.drawdown == (if t.peakNav == 0.0 then 0.0 else (t.peakNav - t.nav) / t.peakNav)
    requires t.grossExposure == (if t.nav == 0.0 then 0.0 else t.marketValue / t.nav)
    ensures if t.peakNav == 0.0 then t.drawdown == 0.0 else t.drawdown * t.peakNav == t.peakNav - t.nav
    ensures if t.nav == 0.0 then t.grossExposure == 0.0 else t.grossExposure * t.nav == t.marketValue
  {
    if t.peakNav != 0.0 {
      QuotientTimes(t.peakNav - t.nav, t.peakNav);
    }
    if t.nav != 0.0 {
      QuotientTimes(t.marketValue, t.nav);
    }
  }

  lemma CashOfFill(s: Snapshot, f: Fill, averageCost: real)
    requires AverageCost(s.positions, f.assetId) == averageCost
    ensures CashAfter(s, f) == s.cash + CashMoved(f) && RealizedBy(s, f) == RealizedOn(f, averageCost)
  {
    hide AverageCost;
  }

  lemma AccountOfFill(s: Snapshot, f: Fill, marks: map<string, real>, t: Snapshot)
    requires Accepted(s, f, marks, t)
    ensures t.cash == CashAfter(s, f) == f.cashAfter && t.realizedPnl == s.realizedPnl + RealizedBy(s, f)
    ensures t.transactionCosts == s.transactionCosts + f.fees && t.fxCosts == s.fxCosts + f.fxCosts
    ensures t.marketValue == Marked(t.positions, marks) && t.nav == t.cash + t.marketValue
    ensures t.peakNav >= s.peakNav && t.peakNav >= t.nav && (t.peakNav == s.peakNav || t.peakNav == t.nav)
    ensures t.drawdown == (if t.peakNav == 0.0 then 0.0 else (t.peakNav - t.nav) / t.peakNav)
    ensures t.grossExposure == (if t.nav == 0.0 then 0.0 else t.marketValue / t.nav) && t.carried == s.carried
  {
    hide PositionsAfter, Marked, Book, CashAfter, RealizedBy, QuantityAfter;
  }

  lemma FillMovesFigures(s: Snapshot, f: Fill, marks: map<string, real>, t: Snapshot, held: real, averageCost: real)
    requires UniqueAssets(s.positions) && Holds(s.positions, f.assetId, held, averageCost) && Accepted(s, f, marks, t)
    ensures Figures(s, f, marks, t, averageCost)
  {
    hide Holds, UniqueAssets, Marked, Valuation, AverageCost, Accepted, CashAfter, RealizedBy, CashMoved, RealizedOn;
    AccountOfFill(s, f, marks, t);
    RatesOfAccount(t);
    HoldsIff(s.positions, f.assetId, held, averageCost);
    CashOfFill(s, f, averageCost);
    MarkedIsValuation(t.positions, marks);
  }

  // ---------------------------------------------------------------------------------------------
  // Marks
  // ---------------------------------------------------------------------------------------------

  lemma MarkMovesWorth(p: Position, marks: map<string, real>, id: string, d: real)
    requires id in marks
    ensures Worth(p, marks[id := marks[id] + d])
            == Worth(p, marks) + if p.assetId == id then Product(p.quantity, d) else 0.0
  {
    assert p.quantity * (marks[id] + d) == p.quantity * marks[id] + p.quantity * d;
  }

  lemma HoldingOfHead(ps: seq<Position>, id: string)
    requires UniqueAssets(ps) && ps != []
    ensures UniqueAssets(ps[1..])
    ensures if ps[0].assetId == id then Holding(ps, id) == ps[0].quantity && Holding(ps[1..], id) == 0.0
            else Holding(ps, id) == Holding(ps[1..], id)
  {
  }

  lemma ZeroProduct(d: real)
    ensures Product(0.0, d) == 0.0
  {
  }

  lemma {:induction false} OneMarkMoves(ps: seq<Position>, marks: map<string, real>, id: string, d: real)
    requires UniqueAssets(ps) && id in marks
    ensures Valuation(ps, marks[id := marks[id] + d]) == Valuation(ps, marks) + Product(Holding(ps, id), d)
  {
    hide *;
    ZeroProduct(d);
    if ps == [] {
      NothingIsWorthNothing(marks);
      NothingIsWorthNothing(marks[id := marks[id] + d]);
      NothingIsHeld(id);
    } else {
      HoldingOfHead(ps, id);
      OneMarkMoves(ps[1..], marks, id, d);
      ValuationOfHead(ps, marks);
      ValuationOfHead(ps, marks[id := marks[id] + d]);
      MarkMovesWorth(ps[0], marks, id, d);
    }
  }

  lemma NothingIsHeld(id: string)
    ensures Holding([], id) == 0.0
  {
  }

  lemma SameWorth(p: Position, q: Position, marks: map<string, real>)
    requires p.assetId == q.assetId && p.quantity == q.quantity && p.assetId in marks
    ensures Worth(p, marks) == Worth(q, marks)
  {
  }

  lemma PutIs(ps: seq<Position>, p: Position)
    ensures var after := Put(ps, p);
            && after != []
            && if ps == [] then after[0] == p && after[1..] == []
               else if ps[0].assetId == p.assetId then after[0] == p && after[1..] == ps[1..]
               else after[0] == ps[0] && after[1..] == Put(ps[1..], p)
  {
  }

  /** A position with another stored mark price is worth the same once its asset is marked. */
  lemma {:induction false} StoredMarkIsOutdone(ps: seq<Position>, p: Position, q: Position, marks: map<string, real>)
    requires p.assetId == q.assetId && p.quantity == q.quantity && p.assetId in marks
    ensures Valuation(Put(ps, p), marks) == Valuation(Put(ps, q), marks)
  {
    hide *;
    PutIs(ps, p);
    PutIs(ps, q);
    SameWorth(p, q, marks);
    ValuationOfHead(Put(ps, p), marks);
    ValuationOfHead(Put(ps, q), marks);
    if ps != [] && ps[0].assetId != p.assetId {
      StoredMarkIsOutdone(ps[1..], p, q, marks);
    }
  }

  lemma SamePositionsButMarks(s: Snapshot, f: Fill, marks: map<string, real>, moved: map<string, real>, id: string)
    requires UniqueAssets(s.positions) && Rejection(s, f).None? && id in marks
    requires moved.Keys == marks.Keys && forall other :: other in marks && other != id ==> moved[other] == marks[other]
    ensures Valuation(PositionsAfter(s, f, moved), moved) == Valuation(PositionsAfter(s, f, marks), moved)
  {
    hide Valuation, Put, Pop, AverageAfter, QuantityAfter;
    if QuantityAfter(s, f) != 0.0 && f.assetId in marks {
      StoredMarkIsOutdone(s.positions, NewPosition(s, f, marks), NewPosition(s, f, moved), moved);
    }
  }

  lemma BookIgnoresMarks(s: Snapshot, f: Fill, marks: map<string, real>, moved: map<string, real>)
    requires Rejection(s, f).None?
    ensures Book(PositionsAfter(s, f, moved)) == Book(PositionsAfter(s, f, marks))
  {
    hide Book, PositionsAfter;
    BookOfNewPositions(s, f, marks);
    BookOfNewPositions(s, f, moved);
  }

  lemma NavOfFill(s: Snapshot, f: Fill, marks: map<string, real>, t: Snapshot)
    requires UniqueAssets(s.positions) && Accepted(s, f, marks, t)
    ensures Rejection(s, f).None? && t.positions == PositionsAfter(s, f, marks) && UniqueAssets(t.positions)
    ensures t.cash == CashAfter(s, f) && t.nav == t.cash + Valuation(t.positions, marks)
    ensures t.unrealizedPnl == Valuation(t.positions, marks) - Book(t.positions)
  {
    MarkedIsValuation(t.positions, marks);
    FillMovesOneHolding(s, f, marks, f.assetId);
    hide PositionsAfter, Marked, Valuation, Book, CashAfter, RealizedBy, QuantityAfter, AverageAfter, UniqueAssets;
  }

  /** Had one asset been marked d higher, NAV after the same fill would be higher by d times what is held of it. */
  lemma NavFollowsMarks(s: Snapshot, f: Fill, marks: map<string, real>, t: Snapshot, id: string, d: real, u: Snapshot)
    requires UniqueAssets(s.positions) && id in marks && Accepted(s, f, marks, t)
    requires Accepted(s, f, marks[id := marks[id] + d], u)
    ensures u.nav == t.nav + Product(Holding(t.positions, id), d) && u.cash == t.cash
    ensures u.unrealizedPnl == t.unrealizedPnl + Product(Holding(t.positions, id), d)
  {
    hide *;
    var moved := marks[id := marks[id] + d];
    NavOfFill(s, f, marks, t);
    NavOfFill(s, f, moved, u);
    SamePositionsButMarks(s, f, marks, moved, id);
    BookIgnoresMarks(s, f, marks, moved);
    OneMarkMoves(t.positions, marks, id, d);
  }
}
