/** A run that sizes an early entry with the result of a late exit. */
module ProcessingOrder {
  import opened Prelude
  import opened Ordering
  import opened Execution
  import opened Backtest
  import opened BacktestRun
  import opened TimeOrder

  // Two assets, both bought in the one session of day 0. The first is sold at instant 10 for half its price,
  // and only then is the second bought, at instant 1, with what that loss has left.

  const ONE_SESSION := Session(Some(1), Some(3), true, 0)

  function TwoAssets(): Experiment {
    Experiment(true, ["A", "B"], "I", 10, NextOpen, ExitPlan(EndOfWindow, 1, None, None), FREE_OF_COSTS)
  }

  function Falling(): Asset {
    Asset("I", false, [Bar(2, Some(1.0), Some(1.0), 1.0, "a2"), Bar(10, Some(0.5), Some(0.5), 0.5, "a10")])
  }

  function Steady(): Asset {
    Asset("I", false, [Bar(2, Some(1.0), Some(1.0), 1.0, "b2")])
  }

  function OneSession(digest: string): Market {
    Market(map["A" := Falling(), "B" := Steady()], [1.0, 1.0], [ONE_SESSION], map[],
           map["a2" := digest, "a10" := digest, "b2" := digest], {digest})
  }

  function Fired(id: string): Signal {
    Signal(id, 0, true)
  }

  lemma OnlySessionInOrder(s: Session, signal: Time)
    requires KnownSession(signal)(s)
    ensures KnownInOrder([s], signal) == [s]
  {
    FilterAll([s], KnownSession(signal));
    assert [s][1..] == [];
    hide Filter, KnownSession, OpenOr;
  }

  lemma FirstOfOne(s: Session, signal: Time, bars: seq<Bar>)
    requires ValidSession(s) && s.isTradingDay && Ahead(NextOpen, s, signal)
    ensures FirstExecution(NextOpen, [s], signal, bars) == ExecuteIn(NextOpen, s, bars)
  {
    hide ExecuteIn, Ahead;
  }

  /** A known session that lies ahead is the one to enter in. */
  lemma EntryInOnlySession(s: Session, signal: Time, bars: seq<Bar>)
    requires ValidSession(s) && KnownSession(signal)(s) && Ahead(NextOpen, s, signal)
    ensures ValidCalendar([s]) && EntryFor(NextOpen, [s], signal, bars) == ExecuteIn(NextOpen, s, bars)
  {
    hide ExecuteIn, Ahead, KnownInOrder, FirstExecution;
    OnlySessionInOrder(s, signal);
    FirstOfOne(s, signal, bars);
  }

  lemma EntryInOneSession(bars: seq<Bar>, price: real)
    requires bars != [] && Date(bars[0].timestamp) == 0 && bars[0].open == Some(price)
    ensures ValidCalendar([ONE_SESSION])
    ensures EntryFor(NextOpen, [ONE_SESSION], 0, bars) == Ok(ExecutionPoint(1, price, bars[0].observationId))
  {
    hide EntryFor;
    EntryInOnlySession(ONE_SESSION, 0, bars);
  }

  /** In this session a position that is held to the end is opened at 1 and closed at the last bar. */
  lemma WindowInOneSession(x: Experiment, m: Market, id: string, asset: Asset, signal: Signal, price: real)
    requires ValidExperiment(x) && m.sessions == [ONE_SESSION] && ValidCalendar(m.sessions) && signal.observedAt == 0
    requires x.entryRule == NextOpen && x.exit.rule == EndOfWindow
    requires asset.bars != [] && Date(asset.bars[0].timestamp) == 0 && asset.bars[0].open == Some(price) && price > 0.0
    requires forall bar :: bar in asset.bars ==> bar.timestamp > 1 && bar.effectiveClose > 0.0
    ensures var last := asset.bars[|asset.bars| - 1];
            WindowFor(x, m, id, asset, signal) == Ok(Some(Window(1, last.timestamp, price, last.effectiveClose)))
  {
    EntryInOneSession(asset.bars, price);
    FilterAll(asset.bars, AfterEntry(1));
    hide EntryFor, Filter;
  }

  function Late(): Window {
    Window(1, 10, 1.0, 0.5)
  }

  function Early(): Window {
    Window(1, 2, 1.0, 1.0)
  }

  /** The signals of one asset among two signals for two assets. */
  lemma OwnWindow(u: Setup, id: string, asset: Asset, first: Signal, second: Signal)
    requires ValidCalendar(u.m.sessions) && ValidExperiment(u.x) && first.assetId != second.assetId
    ensures id == first.assetId ==> SignalWindows(u, id, asset, [first, second], 2) == Asked(u, id, asset, first)
    ensures id == second.assetId ==> SignalWindows(u, id, asset, [first, second], 2) == Asked(u, id, asset, second)
  {
    hide WindowFor;
    assert SignalWindows(u, id, asset, [first, second], 0) == [];
    assert SignalWindows(u, id, asset, [first, second], 1) == Asked(u, id, asset, first);
  }

  // ---------------------------------------------------------------------------------------------
  // The run
  // ---------------------------------------------------------------------------------------------

  lemma BarsOfTwo(digest: string, id: string, i: int)
    requires IsBar(OneSession(digest), id, i)
    ensures var bar := OneSession(digest).assets[id].bars[i];
            && bar.timestamp <= 10 && bar.observationId in OneSession(digest).partitionOf.Keys
            && ((id == "A" && i == 0 && bar.observationId == "a2")
                || (id == "A" && i == 1 && bar.observationId == "a10")
                || (id == "B" && i == 0 && bar.observationId == "b2"))
  {
  }

  lemma InputsAreValid(digest: string)
    ensures ValidExperiment(TwoAssets()) && ValidMarket(OneSession(digest))
            && ValidCalendar(OneSession(digest).sessions)
    ensures FullyStored(OneSession(digest)) && OneSession(digest).sessions == [ONE_SESSION] && TwoAssets().testEnd == 10
    ensures OneSession(digest).partitions == {digest}
  {
  }

  lemma NamesOfBars()
    ensures "a2" != "a10" && "a2" != "b2" && "a10" != "b2"
  {
    assert "a2"[0] != "b2"[0] && |"a2"| != |"a10"|;
  }

  lemma InputsAreReceivable(digest: string)
    requires |digest| == 64
    ensures Receivable(TwoAssets(), OneSession(digest), 10)
  {
    InputsAreValid(digest);
    NamesOfBars();
    var m := OneSession(digest);
    hide OneSession, TwoAssets;
    forall id, bar | id in m.assets && bar in m.assets[id].bars ensures bar.timestamp <= 10 {
      var i :| 0 <= i < |m.assets[id].bars| && m.assets[id].bars[i] == bar;
      BarsOfTwo(digest, id, i);
    }
    forall id, i, other, j | IsBar(m, id, i) && IsBar(m, other, j) && (id != other || i != j)
      ensures m.assets[id].bars[i].observationId != m.assets[other].bars[j].observationId
    {
      BarsOfTwo(digest, id, i);
      BarsOfTwo(digest, other, j);
    }
  }

  lemma SetupOfTwo(digest: string)
    ensures var s := SetupFor(TwoAssets(), OneSession(digest), 10);
            && s.Ok? && s.value.x == TwoAssets() && s.value.m == OneSession(digest) && s.value.cutoff == 10
            && AssetFor(s.value, "A") == Ok(Falling()) && AssetFor(s.value, "B") == Ok(Steady())
  {
  }

  lemma WindowsOfTwo(digest: string)
    requires ValidExperiment(TwoAssets()) && ValidCalendar(OneSession(digest).sessions)
    ensures WindowFor(TwoAssets(), OneSession(digest), "A", Falling(), Fired("A")) == Ok(Some(Late()))
    ensures WindowFor(TwoAssets(), OneSession(digest), "B", Steady(), Fired("B")) == Ok(Some(Early()))
  {
    hide WindowFor;
    WindowInOneSession(TwoAssets(), OneSession(digest), "A", Falling(), Fired("A"), 1.0);
    WindowInOneSession(TwoAssets(), OneSession(digest), "B", Steady(), Fired("B"), 1.0);
  }

  /** Two calm signals for the two assets of a universe, processed in its order. */
  lemma TwoWindows(u: Setup, a: Signal, b: Signal, v: Window, w: Window)
    requires ValidCalendar(u.m.sessions) && ValidExperiment(u.x) && u.x.universe == [a.assetId, b.assetId]
    requires a.assetId != b.assetId && a.fires && b.fires && a.observedAt <= u.cutoff && b.observedAt <= u.cutoff
    requires AssetFor(u, a.assetId).Ok? && AssetFor(u, b.assetId).Ok?
    requires WindowFor(u.x, u.m, a.assetId, AssetFor(u, a.assetId).value, a) == Ok(Some(v))
    requires WindowFor(u.x, u.m, b.assetId, AssetFor(u, b.assetId).value, b) == Ok(Some(w))
    ensures NothingRaises(u, [a, b], 2) && Windows(u, [a, b]) == [v, w]
  {
    hide WindowFor, AssetFor;
    OwnWindow(u, a.assetId, AssetFor(u, a.assetId).value, a, b);
    OwnWindow(u, b.assetId, AssetFor(u, b.assetId).value, a, b);
    hide SignalWindows;
    assert AssetWindows(u, [a, b], 0) == [];
    assert AssetWindows(u, [a, b], 1) == [v];
  }

  lemma LateIsOpen()
    ensures var ws := [Late(), Early()];
            !EndInOrder(ws) && OneSided(TwoAssets(), ws, 1) && !AloneAtStart(ws, 1)
  {
    var ws := [Late(), Early()];
    assert !EndsBeforeEnd()(ws[0], ws[1]);
    assert ws[0].exitAt > ws[1].entryAt;
  }

  /**
   The second trade is entered at 1, when nothing has been closed, and is not sized with the initial cash: its
   size depends on what the first trade loses at 10. The recorded history runs backwards in time. The inputs
   of the run are ones that the market data store can hand to it.
   */
  lemma LateResultSizesEarlyEntry(digest: string)
    requires |digest| == 64
    ensures ValidExperiment(TwoAssets()) && ValidMarket(OneSession(digest))
            && Receivable(TwoAssets(), OneSession(digest), 10)
    ensures var o := Outcome(TwoAssets(), OneSession(digest), [Fired("A"), Fired("B")], 10, 2.0);
            && o.Ok? && WindowsOf(o.value.paths) == [Late(), Early()] && |o.value.nav| == 2
            && !SizedWithClosedResults(2.0, o.value.paths, o.value.nav, 1) && !InTimeOrder(o.value.nav)
  {
    hide *;
    InputsAreValid(digest);
    InputsAreReceivable(digest);
    SetupOfTwo(digest);
    WindowsOfTwo(digest);
    LateIsOpen();
    NamesDiffer();
    var u := SetupFor(TwoAssets(), OneSession(digest), 10).value;
    TwoWindows(u, Fired("A"), Fired("B"), Late(), Early());
    FreeRunsAreDecidedByWindows(TwoAssets(), OneSession(digest), [Fired("A"), Fired("B")], 10, 2.0);
  }

  lemma NamesDiffer()
    ensures TwoAssets().universe == [Fired("A").assetId, Fired("B").assetId] && Fired("A").assetId != Fired("B").assetId
    ensures Fired("A").fires && Fired("B").fires && Fired("A").observedAt == 0 && Fired("B").observedAt == 0
    ensures Fired("A").assetId == "A" && Fired("B").assetId == "B" && TwoAssets().costModel == FREE_OF_COSTS
    ensures |TwoAssets().universe| == 2
  {
    assert "A"[0] != "B"[0];
  }
}
