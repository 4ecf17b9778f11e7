/**
 A run processes assets, then signals, and not instants: when its sizing and its history are in time order all the
 same.
 */
module TimeOrder {
  import opened Prelude
  import opened RealFacts
  import opened Costs
  import opened Execution
  import opened Backtest
  import opened NavHistory
  import opened BacktestRun

  // ---------------------------------------------------------------------------------------------
  // Windows: what is known of the positions before the run
  // ---------------------------------------------------------------------------------------------

  /** When and at which prices a position is opened and closed; none of it depends on the cash. */
  datatype Window = Window(entryAt: Time, exitAt: Time, entryPrice: real, exitPrice: real)

  function WindowFor(x: Experiment, m: Market, id: string, asset: Asset, signal: Signal): Result<Option<Window>,
      Violation>
    requires ValidCalendar(m.sessions) && ValidExperiment(x)
  {
    var point := EntryFor(x.entryRule, m.sessions, signal.observedAt, asset.bars);
    if point.Err? then Err(point.error) else
    var later := Filter(asset.bars, AfterEntry(point.value.timestamp));
    var held := HoldingFor(x.exit, point.value, later, if id in m.invalidations then m.invalidations[id] else []);
    if held.Err? then Err(held.error)
    else if held.value.None? then Ok(None)
    else
      var exitBar := later[held.value.value - 1];
      if point.value.price <= 0.0 || exitBar.effectiveClose <= 0.0 then Err(IntegrityViolation)
      else Ok(Some(Window(point.value.timestamp, exitBar.timestamp, point.value.price, exitBar.effectiveClose)))
  }

  function WindowOf(p: PositionPath): Window {
    Window(p.entryAt, p.exitAt, p.entryPrice, p.exitPrice)
  }

  function WindowsOf(paths: seq<PositionPath>): (ws: seq<Window>)
    ensures |ws| == |paths| && forall i :: 0 <= i < |ws| ==> ws[i] == WindowOf(paths[i])
  {
    seq(|paths|, i requires 0 <= i < |paths| => WindowOf(paths[i]))
  }

  /**
   A fired signal fails, has no window or has one, whatever the cash; the cash decides only whether the window is
   filled.
   */
  lemma TradesFillWindows(x: Experiment, m: Market, benchmarkReturn: real, id: string, asset: Asset, signal: Signal,
                          cash: real)
    requires ValidExperiment(x) && ValidMarket(m)
    ensures var t, w := TradeFor(x, m, benchmarkReturn, id, asset, signal, cash), WindowFor(x, m, id, asset, signal);
            && (t.Err? <==> w.Err?) && (t.Err? ==> t.error == w.error)
            && (t.Ok? && t.value.Some? ==> w.value == Some(WindowOf(t.value.value)))
            && (w.Ok? && w.value.Some? ==>
                  (t.value.Some? <==> PlannedQuantity(x, asset, cash, w.value.value.entryPrice).Some?))
  {
    hide EntryFor, HoldingFor, PlanOrder, TransactionCosts, Return, Returns, Highest, Lowest;
  }

  /** The window, if any, of a signal that the loop over one asset takes up. */
  function Asked(u: Setup, id: string, asset: Asset, signal: Signal): (ws: seq<Window>)
    requires ValidCalendar(u.m.sessions) && ValidExperiment(u.x)
    ensures |ws| <= 1
  {
    if signal.assetId != id || !signal.fires then []
    else
      var w := WindowFor(u.x, u.m, id, asset, signal);
      if w.Ok? && w.value.Some? then [w.value.value] else []
  }

  function SignalWindows(u: Setup, id: string, asset: Asset, signals: seq<Signal>, n: nat): seq<Window>
    requires ValidCalendar(u.m.sessions) && ValidExperiment(u.x) && n <= |signals|
  {
    if n == 0 then [] else SignalWindows(u, id, asset, signals, n - 1) + Asked(u, id, asset, signals[n - 1])
  }

  /** The windows of the first n assets of the universe, in processing order. */
  function AssetWindows(u: Setup, signals: seq<Signal>, n: nat): seq<Window>
    requires ValidCalendar(u.m.sessions) && ValidExperiment(u.x) && n <= |u.x.universe|
  {
    if n == 0 then []
    else
      var id := u.x.universe[n - 1];
      AssetWindows(u, signals, n - 1)
      + if AssetFor(u, id).Ok? then SignalWindows(u, id, AssetFor(u, id).value, signals, |signals|) else []
  }

  /** All windows of a run; they are a function of the experiment, the market and the signals. */
  function Windows(u: Setup, signals: seq<Signal>): seq<Window>
    requires ValidCalendar(u.m.sessions) && ValidExperiment(u.x)
  {
    AssetWindows(u, signals, |u.x.universe|)
  }

  // ---------------------------------------------------------------------------------------------
  // Subsequences
  // ---------------------------------------------------------------------------------------------

  /** xs is what is left of ys when some elements are dropped. */
  predicate Sub(xs: seq<Window>, ys: seq<Window>)
    decreases |ys|
  {
    || xs == []
    || (ys != [] && (Sub(xs, ys[..|ys| - 1])
                     || (xs[|xs| - 1] == ys[|ys| - 1] && Sub(xs[..|xs| - 1], ys[..|ys| - 1]))))
  }

  lemma SubDrops(xs: seq<Window>, ys: seq<Window>, z: Window)
    requires Sub(xs, ys)
    ensures Sub(xs, ys + [z])
  {
    assert (ys + [z])[..|ys|] == ys;
  }

  lemma SubKeeps(xs: seq<Window>, ys: seq<Window>, z: Window)
    requires Sub(xs, ys)
    ensures Sub(xs + [z], ys + [z])
  {
    assert (ys + [z])[..|ys|] == ys && (xs + [z])[..|xs|] == xs;
  }

  lemma {:induction false} SubOfEqualLength(xs: seq<Window>, ys: seq<Window>)
    requires Sub(xs, ys)
    ensures |xs| <= |ys| && (|xs| == |ys| ==> xs == ys)
    decreases |ys|
  {
    if xs != [] {
      var init := ys[..|ys| - 1];
      if Sub(xs, init) {
        SubOfEqualLength(xs, init);
      } else {
        SubOfEqualLength(xs[..|xs| - 1], init);
        assert xs == xs[..|xs| - 1] + [xs[|xs| - 1]] && ys == init + [ys[|ys| - 1]];
      }
    }
  }

  lemma {:induction false} SubMembers(xs: seq<Window>, ys: seq<Window>)
    requires Sub(xs, ys)
    ensures forall w :: w in xs ==> w in ys
    decreases |ys|
  {
    if xs != [] {
      var init := ys[..|ys| - 1];
      if Sub(xs, init) {
        SubMembers(xs, init);
      } else {
        SubMembers(xs[..|xs| - 1], init);
        assert xs == xs[..|xs| - 1] + [xs[|xs| - 1]] && ys == init + [ys[|ys| - 1]];
      }
    }
  }

  /** What holds of any two elements in their order holds of those that are left. */
  ghost predicate Pairwise(xs: seq<Window>, r: (Window, Window) -> bool) {
    forall i, j :: 0 <= i < j < |xs| ==> r(xs[i], xs[j])
  }

  lemma {:induction false} SubPairwise(xs: seq<Window>, ys: seq<Window>, r: (Window, Window) -> bool)
    requires Sub(xs, ys) && Pairwise(ys, r)
    ensures Pairwise(xs, r)
    decreases |ys|
  {
    if xs != [] {
      var init := ys[..|ys| - 1];
      assert Pairwise(init, r);
      if Sub(xs, init) {
        SubPairwise(xs, init, r);
      } else {
        var rest := xs[..|xs| - 1];
        SubPairwise(rest, init, r);
        SubMembers(rest, init);
        forall i, j | 0 <= i < j < |xs| ensures r(xs[i], xs[j]) {
          if j == |xs| - 1 {
            assert rest[i] in rest && rest[i] in init;
          } else {
            assert r(rest[i], rest[j]);
          }
        }
      }
    }
  }

  // ---------------------------------------------------------------------------------------------
  // A run fills some of its windows, in their order
  // ---------------------------------------------------------------------------------------------

  lemma SignalFollowsWindows(u: Setup, id: string, asset: Asset, signal: Signal, j: Journal, ws: seq<Window>)
    requires ValidSetup(u) && signal.assetId == id && Sub(WindowsOf(j.paths), ws)
    ensures var r := TakeSignal(u, id, asset, signal, j);
            r.Ok? ==> Sub(WindowsOf(r.value.paths), ws + Asked(u, id, asset, signal))
  {
    hide TakeSignal, WindowFor, TradeFor, PlannedQuantity, Sub;
    hide ValidSetup, ValidExperiment, ValidMarket, ObservationsUsed;
    SetupIsValid(u);
    TradesFillWindows(u.x, u.m, u.benchmarkReturn, id, asset, signal, j.cash);
    var r := TakeSignal(u, id, asset, signal, j);
    if r.Ok? {
      var taken := TakenOrSkipped(u, id, asset, signal, j);
      if taken.Some? {
        var w := WindowOf(taken.value);
        assert WindowsOf(j.paths + [taken.value]) == WindowsOf(j.paths) + [w];
        assert Asked(u, id, asset, signal) == [w];
        SubKeeps(WindowsOf(j.paths), ws, w);
      } else if Asked(u, id, asset, signal) == [] {
        assert ws + [] == ws;
      } else {
        var w := Asked(u, id, asset, signal)[0];
        assert Asked(u, id, asset, signal) == [w];
        SubDrops(WindowsOf(j.paths), ws, w);
      }
    }
  }

  lemma {:induction false} SignalsFollowWindows(u: Setup, id: string, asset: Asset, signals: seq<Signal>, n: nat,
                                                j: Journal,
                                                ws: seq<Window>)
    requires ValidSetup(u) && n <= |signals| && Sub(WindowsOf(j.paths), ws)
    ensures var r := TakeSignals(u, id, asset, signals, n, j);
            r.Ok? ==> Sub(WindowsOf(r.value.paths), ws + SignalWindows(u, id, asset, signals, n))
  {
    hide TakeSignal, WindowFor, Sub;
    SetupIsValid(u);
    if n == 0 {
      assert ws + [] == ws;
    } else {
      var before := TakeSignals(u, id, asset, signals, n - 1, j);
      SignalsFollowWindows(u, id, asset, signals, n - 1, j, ws);
      var so, asked := SignalWindows(u, id, asset, signals, n - 1), Asked(u, id, asset, signals[n - 1]);
      assert ws + (so + asked) == ws + so + asked;
      if before.Ok? {
        if signals[n - 1].assetId == id {
          SignalFollowsWindows(u, id, asset, signals[n - 1], before.value, ws + so);
        } else {
          assert ws + so + [] == ws + so;
        }
      }
    }
  }

  lemma {:induction false} AssetsFollowWindows(u: Setup, signals: seq<Signal>, n: nat, initial: real)
    requires ValidSetup(u) && n <= |u.x.universe|
    ensures var r := TakeAssets(u, signals, n, Start(initial));
            r.Ok? ==> Sub(WindowsOf(r.value.paths), AssetWindows(u, signals, n))
  {
    hide TakeSignals, SignalWindows, AssetFor;
    SetupIsValid(u);
    if n > 0 {
      hide Sub;
      AssetsFollowWindows(u, signals, n - 1, initial);
      var before := TakeAssets(u, signals, n - 1, Start(initial));
      var id := u.x.universe[n - 1];
      if before.Ok? && AssetFor(u, id).Ok? {
        SignalsFollowWindows(u, id, AssetFor(u, id).value, signals, |signals|, before.value,
                             AssetWindows(u, signals, n - 1));
      }
    }
  }

  /** The trades of a report fill windows of the run, in processing order. */
  lemma ReportFollowsWindows(x: Experiment, m: Market, signals: seq<Signal>, cutoff: Time, initial: real)
    requires ValidExperiment(x) && ValidMarket(m) && Outcome(x, m, signals, cutoff, initial).Ok?
    ensures SetupFor(x, m, cutoff).Ok?
    ensures var r, ws := Outcome(x, m, signals, cutoff, initial).value, Windows(SetupFor(x, m, cutoff).value, signals);
            Sub(WindowsOf(r.paths), ws) && (|r.paths| == |ws| ==> WindowsOf(r.paths) == ws)
  {
    ReportShowsJournal(x, m, signals, cutoff, initial);
    var u := SetupFor(x, m, cutoff).value;
    hide TakeAssets, Outcome, AssetWindows, Sub;
    AssetsFollowWindows(u, signals, |x.universe|, initial);
    SubOfEqualLength(WindowsOf(Completed(x, m, signals, cutoff, initial).paths), Windows(u, signals));
  }

  // ---------------------------------------------------------------------------------------------
  // Time order of the windows, of the sizing and of the history
  // ---------------------------------------------------------------------------------------------

  function EndsBeforeStart(): (Window, Window) -> bool {
    (a: Window, b: Window) => a.exitAt <= b.entryAt
  }

  function EndsBeforeEnd(): (Window, Window) -> bool {
    (a: Window, b: Window) => a.exitAt <= b.exitAt
  }

  /** Every window ends by the start of every later one. */
  ghost predicate Sequential(ws: seq<Window>) {
    Pairwise(ws, EndsBeforeStart())
  }

  /** Windows end in the order in which they are processed. */
  ghost predicate EndInOrder(ws: seq<Window>) {
    Pairwise(ws, EndsBeforeEnd())
  }

  predicate InTimeOrder(nav: seq<(Time, real)>) {
    forall i, k :: 0 <= i < k < |nav| ==> nav[i].0 <= nav[k].0
  }

  /** What a trade earns after costs. */
  function Net(p: PositionPath): real {
    p.Gain() - p.costs.Total()
  }

  /** What the trades recorded before trade i and closed by an instant have earned. */
  function ClosedGains(paths: seq<PositionPath>, i: nat, at: Time): real
    requires i <= |paths|
  {
    if i == 0 then 0.0
    else ClosedGains(paths, i - 1, at) + if paths[i - 1].exitAt <= at then Net(paths[i - 1]) else 0.0
  }

  /** What those still open at the instant will have earned. */
  function OpenGains(paths: seq<PositionPath>, i: nat, at: Time): real
    requires i <= |paths|
  {
    if i == 0 then 0.0
    else OpenGains(paths, i - 1, at) + if paths[i - 1].exitAt <= at then 0.0 else Net(paths[i - 1])
  }

  /** Trade i is sized with the initial cash and the results that are closed by its entry. */
  ghost predicate SizedWithClosedResults(initial: real, paths: seq<PositionPath>, nav: seq<(Time, real)>, i: nat)
    requires i < |paths| == |nav|
  {
    History(initial, Balances(nav))[i] == initial + ClosedGains(paths, i, paths[i].entryAt)
  }

  /** No window processed before window i is open when it starts. */
  ghost predicate AloneAtStart(ws: seq<Window>, i: nat)
    requires i < |ws|
  {
    forall k :: 0 <= k < i ==> ws[k].exitAt <= ws[i].entryAt
  }

  lemma {:induction false} GainsSplit(paths: seq<PositionPath>, i: nat, at: Time)
    requires i <= |paths|
    ensures GainsUpTo(paths, i) == ClosedGains(paths, i, at) + OpenGains(paths, i, at)
  {
    if i == 0 {
      assert paths[..0] == [];
    } else {
      GainsSplit(paths, i - 1, at);
      assert paths[..i][..i - 1] == paths[..i - 1];
    }
  }

  lemma {:induction false} NothingOpen(paths: seq<PositionPath>, i: nat, at: Time)
    requires i <= |paths| && forall k :: 0 <= k < i ==> paths[k].exitAt <= at
    ensures OpenGains(paths, i, at) == 0.0
  {
    if i > 0 {
      NothingOpen(paths, i - 1, at);
    }
  }

  /** Open trades that all lose add up to a loss. */
  lemma {:induction false} OpenLosses(paths: seq<PositionPath>, i: nat, at: Time)
    requires i <= |paths| && forall k :: 0 <= k < i && paths[k].exitAt > at ==> Net(paths[k]) < 0.0
    ensures OpenGains(paths, i, at) <= 0.0
    ensures OpenGains(paths, i, at) == 0.0 <==> forall k :: 0 <= k < i ==> paths[k].exitAt <= at
  {
    if i > 0 {
      OpenLosses(paths, i - 1, at);
    }
  }

  /** Open trades that all gain add up to a gain. */
  lemma {:induction false} OpenProfits(paths: seq<PositionPath>, i: nat, at: Time)
    requires i <= |paths| && forall k :: 0 <= k < i && paths[k].exitAt > at ==> Net(paths[k]) > 0.0
    ensures OpenGains(paths, i, at) >= 0.0
    ensures OpenGains(paths, i, at) == 0.0 <==> forall k :: 0 <= k < i ==> paths[k].exitAt <= at
  {
    if i > 0 {
      OpenProfits(paths, i - 1, at);
    }
  }

  /** The cash at trade i is the initial cash and what the earlier trades earn, closed or not. */
  lemma CashAtTrade(initial: real, cash: real, paths: seq<PositionPath>, nav: seq<(Time, real)>, i: nat)
    requires NavFollowsCash(initial, cash, paths, nav) && i < |paths|
    ensures var at := paths[i].entryAt;
            History(initial, Balances(nav))[i] == initial + ClosedGains(paths, i, at) + OpenGains(paths, i, at)
  {
    hide GainsUpTo;
    GainsSplit(paths, i, paths[i].entryAt);
    NoGains(paths);
    assert History(initial, Balances(nav))[i] == CashBefore(initial, nav, i);
  }

  lemma NoGains(paths: seq<PositionPath>)
    ensures GainsUpTo(paths, 0) == 0.0
  {
    assert paths[..0] == [];
  }

  lemma SetupOfRun(x: Experiment, m: Market, cutoff: Time)
    requires ValidExperiment(x) && ValidMarket(m) && SetupFor(x, m, cutoff).Ok?
    ensures var u := SetupFor(x, m, cutoff).value;
            ValidSetup(u) && ValidCalendar(m.sessions) && u.x == x && u.m == m && u.cutoff == cutoff
  {
  }

  /** The history of a reported run and the cash behind it. */
  lemma ReportedHistory(x: Experiment, m: Market, signals: seq<Signal>, cutoff: Time, initial: real)
      returns (cash: real)
    requires ValidExperiment(x) && ValidMarket(m) && Outcome(x, m, signals, cutoff, initial).Ok?
    ensures initial > 0.0 && SetupFor(x, m, cutoff).Ok?
    ensures var r := Outcome(x, m, signals, cutoff, initial).value;
            NavFollowsCash(initial, cash, r.paths, r.nav)
            && TradesHaveSignals(SetupFor(x, m, cutoff).value, signals, initial, r.paths, r.nav)
  {
    hide TradesHaveSignals, NavFollowsCash, NavReturns, Worst;
    var u, j := ReportedJournal(x, m, signals, cutoff, initial);
    cash := j.cash;
  }

  lemma NavTimes(initial: real, cash: real, paths: seq<PositionPath>, nav: seq<(Time, real)>)
    requires NavFollowsCash(initial, cash, paths, nav)
    ensures |nav| == |paths| && (InTimeOrder(nav) <==> EndInOrder(WindowsOf(paths)))
  {
    var ws := WindowsOf(paths);
    assert forall i :: 0 <= i < |nav| ==> nav[i].0 == ws[i].exitAt;
    if EndInOrder(ws) {
      forall i, k | 0 <= i < k < |nav| ensures nav[i].0 <= nav[k].0 {
        assert EndsBeforeEnd()(ws[i], ws[k]);
      }
    }
  }

  /**
   Trades are sized in processing order: the cash of trade i is the initial cash, what the earlier recorded
   trades have earned by its entry, and what they earn after it.
   */
  lemma SizingUsesOpenTrades(x: Experiment, m: Market, signals: seq<Signal>, cutoff: Time, initial: real)
    requires ValidExperiment(x) && ValidMarket(m) && Outcome(x, m, signals, cutoff, initial).Ok?
    ensures var r := Outcome(x, m, signals, cutoff, initial).value;
            && |r.nav| == |r.paths|
            && forall i :: 0 <= i < |r.paths| ==>
                 var cash, at := History(initial, Balances(r.nav))[i], r.paths[i].entryAt;
                 cash == initial + ClosedGains(r.paths, i, at) + OpenGains(r.paths, i, at)
  {
    hide *;
    var cash := ReportedHistory(x, m, signals, cutoff, initial);
    var r := Outcome(x, m, signals, cutoff, initial).value;
    NavTimes(initial, cash, r.paths, r.nav);
    forall i | 0 <= i < |r.paths|
      ensures History(initial, Balances(r.nav))[i]
              == initial + ClosedGains(r.paths, i, r.paths[i].entryAt) + OpenGains(r.paths, i, r.paths[i].entryAt)
    {
      CashAtTrade(initial, cash, r.paths, r.nav, i);
    }
  }

  /** Without open windows at its start a trade is sized with closed results only. */
  lemma AloneIsSizedWithClosed(initial: real, cash: real, paths: seq<PositionPath>, nav: seq<(Time, real)>, i: nat)
    requires NavFollowsCash(initial, cash, paths, nav) && i < |paths| && AloneAtStart(WindowsOf(paths), i)
    ensures SizedWithClosedResults(initial, paths, nav, i)
  {
    CashAtTrade(initial, cash, paths, nav, i);
    var ws := WindowsOf(paths);
    forall k | 0 <= k < i ensures paths[k].exitAt <= paths[i].entryAt {
      assert ws[k].exitAt <= ws[i].entryAt;
    }
    hide ClosedGains, OpenGains, History, NavFollowsCash;
    NothingOpen(paths, i, paths[i].entryAt);
  }

  /**
   What the inputs promise: if every window ends by the start of every later one, every trade of a report
   is sized with closed results only; if the windows end in processing order, the history is in time
   order. Neither condition refers to the run.
   */
  lemma OrderedWindowsOrderTheRun(x: Experiment, m: Market, signals: seq<Signal>, cutoff: Time, initial: real)
    requires ValidExperiment(x) && ValidMarket(m) && Outcome(x, m, signals, cutoff, initial).Ok?
    ensures SetupFor(x, m, cutoff).Ok?
    ensures var r, ws := Outcome(x, m, signals, cutoff, initial).value, Windows(SetupFor(x, m, cutoff).value, signals);
            && |r.nav| == |r.paths|
            && (Sequential(ws) ==> forall i :: 0 <= i < |r.paths| ==>
                SizedWithClosedResults(initial, r.paths, r.nav, i))
            && (EndInOrder(ws) ==> InTimeOrder(r.nav))
  {
    hide *;
    ReportFollowsWindows(x, m, signals, cutoff, initial);
    var cash := ReportedHistory(x, m, signals, cutoff, initial);
    SetupOfRun(x, m, cutoff);
    var r, ws := Outcome(x, m, signals, cutoff, initial).value, Windows(SetupFor(x, m, cutoff).value, signals);
    NavTimes(initial, cash, r.paths, r.nav);
    if Sequential(ws) {
      forall i | 0 <= i < |r.paths| ensures SizedWithClosedResults(initial, r.paths, r.nav, i) {
        SequentialMeansAlone(r.paths, ws, i);
        AloneIsSizedWithClosed(initial, cash, r.paths, r.nav, i);
      }
    }
    if EndInOrder(ws) {
      OrderPassesToTrades(r.paths, ws);
    }
  }

  lemma SequentialMeansAlone(paths: seq<PositionPath>, ws: seq<Window>, i: nat)
    requires Sub(WindowsOf(paths), ws) && Sequential(ws) && i < |paths|
    ensures AloneAtStart(WindowsOf(paths), i)
  {
    SubPairwise(WindowsOf(paths), ws, EndsBeforeStart());
    var own := WindowsOf(paths);
    forall k | 0 <= k < i ensures own[k].exitAt <= own[i].entryAt {
      assert EndsBeforeStart()(own[k], own[i]);
    }
  }

  lemma OrderPassesToTrades(paths: seq<PositionPath>, ws: seq<Window>)
    requires Sub(WindowsOf(paths), ws) && EndInOrder(ws)
    ensures EndInOrder(WindowsOf(paths))
  {
    SubPairwise(WindowsOf(paths), ws, EndsBeforeEnd());
  }

  /** A window that closes below its entry price. */
  predicate Losing(w: Window) {
    w.exitPrice < w.entryPrice
  }

  /** A window that closes above it. */
  predicate Gaining(w: Window) {
    w.exitPrice > w.entryPrice
  }

  const FREE_OF_COSTS := CostModel(0.0, 0.0, 0.0, 0.0, 0.0, 0.0, true)

  lemma NoCosts(notional: real, requiresFx: bool, gain: real)
    ensures TransactionCosts(notional, FREE_OF_COSTS, requiresFx, gain) == CostBreakdown(0.0, 0.0, 0.0, 0.0, 0.0)
  {
    assert Share(notional, 0.0) == 0.0 && Share(Max(gain, 0.0), 0.0) == 0.0 && 0.0 / BPS == 0.0;
    assert Fmt(0.0) == 0.0;
    hide Fmt, Share;
  }

  lemma CostsNothing(x: Experiment, asset: Asset, cash: real, p: PositionPath)
    requires SoundCosts(x, asset, cash, p) && x.costModel == FREE_OF_COSTS
    ensures p.costs.Total() == 0.0 && p.EntryValue() <= cash / |x.universe| as real
  {
    hide TransactionCosts, Value, PlannedQuantity;
    NoCosts(p.EntryValue(), asset.requiresFx, 0.0);
    NoCosts(p.ExitValue(), asset.requiresFx, p.Gain());
  }

  /** A trade in a losing window loses, whatever its size and costs. */
  lemma LosingTradesLose(u: Setup, signals: seq<Signal>, cash: real, p: PositionPath)
    requires ValidSetup(u) && HasSignal(u, signals, cash, p) && Losing(WindowOf(p))
    ensures Net(p) < 0.0
  {
    var signal :| TradedFor(u, signals, signal, cash, p);
    var asset := u.m.assets[p.assetId];
    assert SoundCosts(u.x, asset, cash, p) && p.quantity > 0.0 && p.entryPrice > 0.0 && p.exitPrice > 0.0;
    hide TradedFor, SoundTrade, TransactionCosts, Value;
    CostsOfBothSides(u.x, asset, cash, p);
    GainOfLoss(p);
  }

  /** A trade in a gaining window gains, if it costs nothing. */
  lemma GainingTradesGain(u: Setup, signals: seq<Signal>, cash: real, p: PositionPath)
    requires HasSignal(u, signals, cash, p) && Gaining(WindowOf(p)) && u.x.costModel == FREE_OF_COSTS
    ensures Net(p) > 0.0
  {
    var signal :| TradedFor(u, signals, signal, cash, p);
    var asset := u.m.assets[p.assetId];
    assert SoundCosts(u.x, asset, cash, p) && p.quantity > 0.0;
    hide TradedFor, SoundTrade, SoundCosts, Value;
    CostsNothing(u.x, asset, cash, p);
    GainOfGain(p);
  }

  /** The gain on a quantity is the quantity times the move of the price. */
  lemma GainIsProduct(quantity: real, entry: real, exit: real)
    ensures Value(quantity, exit) - Value(quantity, entry) == Product(quantity, exit - entry)
  {
  }

  lemma GainOfGain(p: PositionPath)
    requires p.quantity > 0.0 && p.exitPrice > p.entryPrice
    ensures p.Gain() > 0.0
  {
    hide Value, Product;
    GainIsProduct(p.quantity, p.entryPrice, p.exitPrice);
    ProductPositive(p.quantity, p.exitPrice - p.entryPrice);
  }

  lemma ValueNonNegative(quantity: real, price: real)
    requires quantity > 0.0 && price > 0.0
    ensures Value(quantity, price) >= 0.0
  {
    ProductNonNegative(quantity, price);
  }

  lemma CostsOfBothSides(x: Experiment, asset: Asset, cash: real, p: PositionPath)
    requires ValidExperiment(x) && SoundCosts(x, asset, cash, p)
    requires p.quantity > 0.0 && p.entryPrice > 0.0 && p.exitPrice > 0.0
    ensures p.costs.Total() >= 0.0
  {
    hide TransactionCosts, Value, PlannedQuantity;
    ValueNonNegative(p.quantity, p.entryPrice);
    ValueNonNegative(p.quantity, p.exitPrice);
    CostsNonNegative(p.EntryValue(), x.costModel, asset.requiresFx, 0.0);
    CostsNonNegative(p.ExitValue(), x.costModel, asset.requiresFx, p.Gain());
  }

  lemma GainOfLoss(p: PositionPath)
    requires p.quantity > 0.0 && p.exitPrice < p.entryPrice
    ensures p.Gain() < 0.0
  {
    hide Value, Product;
    GainIsProduct(p.quantity, p.exitPrice, p.entryPrice);
    ProductPositive(p.quantity, p.entryPrice - p.exitPrice);
  }

  /**
   The converse, for a report whose windows are all filled: the history is in time order if and only if the
   windows end in processing order; and a trade is sized with closed results only if and only if no earlier
   window is open when it starts, provided that those which are open are one-sided, so that what is open
   cannot come to nothing by cancelling out.
   */
  lemma FilledWindowsDecide(x: Experiment, m: Market, signals: seq<Signal>, cutoff: Time, initial: real)
    requires ValidExperiment(x) && ValidMarket(m) && Outcome(x, m, signals, cutoff, initial).Ok?
    ensures SetupFor(x, m, cutoff).Ok?
    ensures var r, ws := Outcome(x, m, signals, cutoff, initial).value, Windows(SetupFor(x, m, cutoff).value, signals);
            |r.paths| == |ws| ==>
              && |r.nav| == |r.paths| && WindowsOf(r.paths) == ws
              && (InTimeOrder(r.nav) <==> EndInOrder(ws))
              && forall i :: 0 <= i < |ws| && OneSided(x, ws, i) ==>
                   (SizedWithClosedResults(initial, r.paths, r.nav, i) <==> AloneAtStart(ws, i))
  {
    hide *;
    ReportFollowsWindows(x, m, signals, cutoff, initial);
    var cash := ReportedHistory(x, m, signals, cutoff, initial);
    SetupOfRun(x, m, cutoff);
    var u, r := SetupFor(x, m, cutoff).value, Outcome(x, m, signals, cutoff, initial).value;
    var ws := Windows(u, signals);
    NavTimes(initial, cash, r.paths, r.nav);
    if |r.paths| == |ws| {
      forall i | 0 <= i < |ws| && OneSided(x, ws, i)
        ensures SizedWithClosedResults(initial, r.paths, r.nav, i) <==> AloneAtStart(ws, i)
      {
        OpenTradesHaveOneSign(u, signals, initial, r.paths, r.nav, i);
        OneSignShows(initial, cash, r.paths, r.nav, i);
      }
    }
  }

  /** The earlier windows that are open when window i starts all lose or, where nothing costs anything, all gain. */
  ghost predicate OneSided(x: Experiment, ws: seq<Window>, i: nat)
    requires i < |ws|
  {
    || (forall k :: 0 <= k < i && ws[k].exitAt > ws[i].entryAt ==> Losing(ws[k]))
    || (x.costModel == FREE_OF_COSTS && forall k :: 0 <= k < i && ws[k].exitAt > ws[i].entryAt ==> Gaining(ws[k]))
  }

  /** What is open at trade i has one sign. */
  ghost predicate OneSignOpen(paths: seq<PositionPath>, i: nat)
    requires i < |paths|
  {
    || (forall k :: 0 <= k < i && paths[k].exitAt > paths[i].entryAt ==> Net(paths[k]) < 0.0)
    || (forall k :: 0 <= k < i && paths[k].exitAt > paths[i].entryAt ==> Net(paths[k]) > 0.0)
  }

  lemma OpenTradesHaveOneSign(u: Setup, signals: seq<Signal>, initial: real, paths: seq<PositionPath>,
                              nav: seq<(Time, real)>, i: nat)
    requires ValidSetup(u) && TradesHaveSignals(u, signals, initial, paths, nav)
    requires i < |paths| && OneSided(u.x, WindowsOf(paths), i)
    ensures OneSignOpen(paths, i)
  {
    var ws := WindowsOf(paths);
    hide HasSignal, Net, ValidSetup;
    if forall k :: 0 <= k < i && ws[k].exitAt > ws[i].entryAt ==> Losing(ws[k]) {
      forall k | 0 <= k < i && paths[k].exitAt > paths[i].entryAt ensures Net(paths[k]) < 0.0 {
        assert ws[k].exitAt > ws[i].entryAt;
        LosingTradesLose(u, signals, CashBefore(initial, nav, k), paths[k]);
      }
    } else {
      forall k | 0 <= k < i && paths[k].exitAt > paths[i].entryAt ensures Net(paths[k]) > 0.0 {
        assert ws[k].exitAt > ws[i].entryAt;
        GainingTradesGain(u, signals, CashBefore(initial, nav, k), paths[k]);
      }
    }
  }

  lemma {:induction false} NothingOpenIffAlone(paths: seq<PositionPath>, i: nat)
    requires i < |paths| && OneSignOpen(paths, i)
    ensures OpenGains(paths, i, paths[i].entryAt) == 0.0 <==> AloneAtStart(WindowsOf(paths), i)
  {
    hide OpenGains, Net;
    var at, ws := paths[i].entryAt, WindowsOf(paths);
    if forall k :: 0 <= k < i && paths[k].exitAt > at ==> Net(paths[k]) < 0.0 {
      OpenLosses(paths, i, at);
    } else {
      OpenProfits(paths, i, at);
    }
    assert forall k :: 0 <= k < i ==> (ws[k].exitAt <= ws[i].entryAt <==> paths[k].exitAt <= at);
  }

  lemma {:induction false} OneSignShows(
    initial: real, cash: real, paths: seq<PositionPath>, nav: seq<(Time, real)>, i: nat
  )
    requires NavFollowsCash(initial, cash, paths, nav) && i < |paths| && |nav| == |paths| && OneSignOpen(paths, i)
    ensures SizedWithClosedResults(initial, paths, nav, i) <==> AloneAtStart(WindowsOf(paths), i)
  {
    hide ClosedGains, OpenGains, History, Net, GainsUpTo, NavFollowsCash, OneSignOpen, AloneAtStart;
    CashAtTrade(initial, cash, paths, nav, i);
    NothingOpenIffAlone(paths, i);
  }

  // ---------------------------------------------------------------------------------------------
  // Without costs and with fractional shares every window is filled
  // ---------------------------------------------------------------------------------------------

  lemma ValueOfAll(allocation: real, price: real)
    requires allocation > 0.0 && price > 0.0
    ensures Value(AffordableQuantity(allocation, price, FREE_OF_COSTS), price) == allocation
  {
    QuotientTimes(allocation, price);
  }

  lemma FreeOrderFits(allocation: real, price: real, requiresFx: bool)
    requires allocation > 0.0 && price > 0.0
    ensures Fits(OrderFor(allocation, price, FREE_OF_COSTS, requiresFx), allocation)
  {
    hide TransactionCosts, Value, AffordableQuantity;
    ValueOfAll(allocation, price);
    NoCosts(allocation, requiresFx, 0.0);
  }

  lemma FreePlan(x: Experiment, asset: Asset, cash: real, price: real)
    requires ValidExperiment(x) && x.costModel == FREE_OF_COSTS && cash > 0.0 && price > 0.0
    ensures PlannedQuantity(x, asset, cash, price).Some?
  {
    var allocation := cash / |x.universe| as real;
    QuotientPositive(cash, |x.universe| as real);
    FreeOrderFits(allocation, price, asset.requiresFx);
    PlanOrderIff(allocation, price, x.costModel, asset.requiresFx);
    hide PlanOrder, OrderFor, Fits;
  }

  /** A share of the cash is at most the cash. */
  lemma ShareOfCash(cash: real, n: real)
    requires cash > 0.0 && n >= 1.0
    ensures cash / n <= cash
  {
    ProductMonotone(1.0, n, cash / n);
    QuotientPositive(cash, n);
    QuotientTimes(cash, n);
  }

  lemma SellsForSomething(p: PositionPath)
    requires p.quantity > 0.0 && p.exitPrice > 0.0
    ensures p.ExitValue() > 0.0
  {
    ProductPositive(p.quantity, p.exitPrice);
  }

  /** A trade without costs leaves cash: it sells for something and did not spend more than its share. */
  lemma CashIsLeft(x: Experiment, m: Market, id: string, asset: Asset, signal: Signal, cash: real, p: PositionPath)
    requires ValidExperiment(x) && x.costModel == FREE_OF_COSTS && cash > 0.0
    requires SoundTrade(x, m, id, asset, signal, cash, p)
    ensures cash + (p.Gain() - p.costs.Total()) > 0.0
  {
    hide Value, SoundCosts, Return;
    CostsNothing(x, asset, cash, p);
    ShareOfCash(cash, |x.universe| as real);
    SellsForSomething(p);
  }

  lemma WindowPrices(x: Experiment, m: Market, id: string, asset: Asset, signal: Signal)
    requires ValidCalendar(m.sessions) && ValidExperiment(x)
    ensures var w := WindowFor(x, m, id, asset, signal);
            w.Ok? && w.value.Some? ==> w.value.value.entryPrice > 0.0 && w.value.value.exitPrice > 0.0
  {
    hide EntryFor, HoldingFor;
  }

  /** With cash, a window is always filled, and what is left is still positive. */
  lemma FreeTrade(u: Setup, id: string, asset: Asset, signal: Signal, cash: real)
    requires ValidSetup(u) && u.x.costModel == FREE_OF_COSTS && cash > 0.0
    requires ValidCalendar(u.m.sessions) && ValidExperiment(u.x)
    requires WindowFor(u.x, u.m, id, asset, signal).Ok? && WindowFor(u.x, u.m, id, asset, signal).value.Some?
    ensures var t := TradeFor(u.x, u.m, u.benchmarkReturn, id, asset, signal, cash);
            t.Ok? && t.value.Some? && cash + (t.value.value.Gain() - t.value.value.costs.Total()) > 0.0
            && WindowFor(u.x, u.m, id, asset, signal).value.value == WindowOf(t.value.value)
  {
    hide *;
    SetupIsValid(u);
    TradesFillWindows(u.x, u.m, u.benchmarkReturn, id, asset, signal, cash);
    TradesAreSound(u.x, u.m, u.benchmarkReturn, id, asset, signal, cash);
    WindowPrices(u.x, u.m, id, asset, signal);
    FreePlan(u.x, asset, cash, WindowFor(u.x, u.m, id, asset, signal).value.value.entryPrice);
    var t := TradeFor(u.x, u.m, u.benchmarkReturn, id, asset, signal, cash);
    CashIsLeft(u.x, u.m, id, asset, signal, cash, t.value.value);
  }

  /** The signal is not from the future, and if it fires it has an entry, an exit and prices. */
  predicate Calm(u: Setup, id: string, asset: Asset, signal: Signal)
    requires ValidCalendar(u.m.sessions) && ValidExperiment(u.x)
  {
    signal.observedAt <= u.cutoff && (signal.fires ==> WindowFor(u.x, u.m, id, asset, signal).Ok?)
  }

  /** Nothing raises before the cash comes into play: the assets are usable and the signals for them calm. */
  ghost predicate NothingRaises(u: Setup, signals: seq<Signal>, n: nat)
    requires ValidCalendar(u.m.sessions) && ValidExperiment(u.x) && n <= |u.x.universe|
  {
    forall i :: 0 <= i < n ==> CalmAsset(u, u.x.universe[i], signals, |signals|)
  }

  ghost predicate CalmAsset(u: Setup, id: string, signals: seq<Signal>, n: nat)
    requires ValidCalendar(u.m.sessions) && ValidExperiment(u.x) && n <= |signals|
  {
    AssetFor(u, id).Ok?
    && forall k :: 0 <= k < n && signals[k].assetId == id ==> Calm(u, id, AssetFor(u, id).value, signals[k])
  }

  /** The journal has cash and has filled exactly the windows. */
  ghost predicate Filled(j: Result<Journal, Violation>, ws: seq<Window>) {
    j.Ok? && j.value.cash > 0.0 && WindowsOf(j.value.paths) == ws
  }

  /** A signal that does not lead to a trade fails or is skipped by itself. */
  lemma NoWindow(u: Setup, id: string, asset: Asset, signal: Signal, j: Journal)
    requires ValidSetup(u) && signal.assetId == id && ValidCalendar(u.m.sessions) && ValidExperiment(u.x)
    requires Asked(u, id, asset, signal) == []
    ensures var r := TakeSignal(u, id, asset, signal, j);
            (r.Ok? <==> Calm(u, id, asset, signal)) && (r.Ok? ==> r.value.cash == j.cash && r.value.paths == j.paths)
  {
    hide TradeFor, WindowFor, ObservationsUsed, PlannedQuantity, ValidSetup, ValidExperiment;
    SetupIsValid(u);
    TradesFillWindows(u.x, u.m, u.benchmarkReturn, id, asset, signal, j.cash);
  }

  lemma FreeWindow(u: Setup, id: string, asset: Asset, signal: Signal, j: Journal)
    requires ValidSetup(u) && u.x.costModel == FREE_OF_COSTS && signal.assetId == id && j.cash > 0.0
    requires ValidCalendar(u.m.sessions) && ValidExperiment(u.x) && Asked(u, id, asset, signal) != []
    ensures var r := TakeSignal(u, id, asset, signal, j);
            && (r.Ok? <==> Calm(u, id, asset, signal))
            && (r.Ok? ==> Filled(r, WindowsOf(j.paths) + Asked(u, id, asset, signal)))
  {
    hide TradeFor, WindowFor, ObservationsUsed, ValidSetup, ValidExperiment;
    FreeTrade(u, id, asset, signal, j.cash);
    var p := TradeFor(u.x, u.m, u.benchmarkReturn, id, asset, signal, j.cash).value.value;
    assert WindowsOf(j.paths + [p]) == WindowsOf(j.paths) + [WindowOf(p)];
  }

  lemma FreeSignal(u: Setup, id: string, asset: Asset, signal: Signal, j: Journal, ws: seq<Window>)
    requires ValidSetup(u) && u.x.costModel == FREE_OF_COSTS && signal.assetId == id
    requires ValidCalendar(u.m.sessions) && ValidExperiment(u.x)
    requires j.cash > 0.0 && WindowsOf(j.paths) == ws
    ensures var r := TakeSignal(u, id, asset, signal, j);
            (r.Ok? <==> Calm(u, id, asset, signal)) && (r.Ok? ==> Filled(r, ws + Asked(u, id, asset, signal)))
  {
    hide TakeSignal, Asked, Calm, ValidSetup, ValidExperiment;
    if Asked(u, id, asset, signal) == [] {
      NoWindow(u, id, asset, signal, j);
      assert ws + [] == ws;
    } else {
      FreeWindow(u, id, asset, signal, j);
    }
  }

  lemma {:induction false} FreeSignals(u: Setup, id: string, asset: Asset, signals: seq<Signal>, n: nat, j: Journal,
                                       ws: seq<Window>)
    requires ValidSetup(u) && u.x.costModel == FREE_OF_COSTS && n <= |signals| && AssetFor(u, id) == Ok(asset)
    requires ValidCalendar(u.m.sessions) && ValidExperiment(u.x)
    requires j.cash > 0.0 && WindowsOf(j.paths) == ws
    ensures var r := TakeSignals(u, id, asset, signals, n, j);
            (r.Ok? <==> CalmAsset(u, id, signals, n))
                && (r.Ok? ==> Filled(r, ws + SignalWindows(u, id, asset, signals, n)))
  {
    hide TakeSignal, Calm, Asked, ValidSetup, ValidExperiment, AssetFor;
    if n == 0 {
      assert ws + [] == ws;
    } else {
      FreeSignals(u, id, asset, signals, n - 1, j, ws);
      var before := TakeSignals(u, id, asset, signals, n - 1, j);
      var so, signal := SignalWindows(u, id, asset, signals, n - 1), signals[n - 1];
      assert ws + (so + Asked(u, id, asset, signal)) == ws + so + Asked(u, id, asset, signal);
      if before.Ok? {
        if signal.assetId == id {
          FreeSignal(u, id, asset, signal, before.value, ws + so);
        } else {
          OthersAskNothing(u, id, asset, signal);
          assert ws + so + [] == ws + so;
        }
      }
    }
  }

  lemma OthersAskNothing(u: Setup, id: string, asset: Asset, signal: Signal)
    requires ValidCalendar(u.m.sessions) && ValidExperiment(u.x) && signal.assetId != id
    ensures Asked(u, id, asset, signal) == []
  {
  }

  lemma {:induction false} FreeAssets(u: Setup, signals: seq<Signal>, n: nat, initial: real)
    requires ValidSetup(u) && u.x.costModel == FREE_OF_COSTS && n <= |u.x.universe| && initial > 0.0
    requires ValidCalendar(u.m.sessions) && ValidExperiment(u.x)
    ensures var r := TakeAssets(u, signals, n, Start(initial));
            (r.Ok? <==> NothingRaises(u, signals, n)) && (r.Ok? ==> Filled(r, AssetWindows(u, signals, n)))
  {
    hide TakeSignals, SignalWindows, CalmAsset, ValidSetup, ValidExperiment, AssetFor;
    if n > 0 {
      FreeAssets(u, signals, n - 1, initial);
      var before := TakeAssets(u, signals, n - 1, Start(initial));
      var id := u.x.universe[n - 1];
      NoAssetNoCalm(u, id, signals);
      if before.Ok? && AssetFor(u, id).Ok? {
        FreeSignals(u, id, AssetFor(u, id).value, signals, |signals|, before.value, AssetWindows(u, signals, n - 1));
      }
    }
  }

  lemma NoAssetNoCalm(u: Setup, id: string, signals: seq<Signal>)
    requires ValidCalendar(u.m.sessions) && ValidExperiment(u.x)
    ensures CalmAsset(u, id, signals, |signals|) ==> AssetFor(u, id).Ok?
  {
  }

  /**
   Without costs and with fractional shares the windows alone decide, before the run: a stored market
   with positive cash reports if and only if nothing raises and there is at least one window and no more
   windows than signals; every window is then filled, the history is in time order if and only if the
   windows end in processing order, and a trade whose open predecessors are one-sided is sized with closed
   results only if and only if it has none.
   */
  lemma FreeRunsAreDecidedByWindows(x: Experiment, m: Market, signals: seq<Signal>, cutoff: Time, initial: real)
    requires ValidExperiment(x) && ValidMarket(m) && ValidCalendar(m.sessions) && FullyStored(m) && initial > 0.0
    requires x.costModel == FREE_OF_COSTS && SetupFor(x, m, cutoff).Ok?
    ensures var u, o := SetupFor(x, m, cutoff).value, Outcome(x, m, signals, cutoff, initial);
            var ws := Windows(u, signals);
            && (o.Ok? <==> NothingRaises(u, signals, |x.universe|) && 1 <= |ws| <= |signals|)
            && (o.Ok? ==>
                  && WindowsOf(o.value.paths) == ws && |o.value.nav| == |ws|
                  && (InTimeOrder(o.value.nav) <==> EndInOrder(ws))
                  && forall i :: 0 <= i < |ws| && OneSided(x, ws, i) ==>
                       (SizedWithClosedResults(initial, o.value.paths, o.value.nav, i) <==> AloneAtStart(ws, i)))
  {
    hide *;
    SetupOfRun(x, m, cutoff);
    var u := SetupFor(x, m, cutoff).value;
    FreeAssets(u, signals, |x.universe|, initial);
    StoredMarketReportsIff(x, m, signals, cutoff, initial);
    FreeJournal(x, m, signals, cutoff, initial);
    if Outcome(x, m, signals, cutoff, initial).Ok? {
      ReportShowsJournal(x, m, signals, cutoff, initial);
      FilledWindowsDecide(x, m, signals, cutoff, initial);
    }
  }

  lemma FreeJournal(x: Experiment, m: Market, signals: seq<Signal>, cutoff: Time, initial: real)
    requires ValidExperiment(x) && ValidMarket(m) && ValidCalendar(m.sessions) && SetupFor(x, m, cutoff).Ok?
    requires var u := SetupFor(x, m, cutoff).value;
             var r := TakeAssets(u, signals, |x.universe|, Start(initial));
             (r.Ok? <==> NothingRaises(u, signals, |x.universe|))
                 && (r.Ok? ==> Filled(r, AssetWindows(u, signals, |x.universe|)))
    ensures var u := SetupFor(x, m, cutoff).value;
            && (Completes(x, m, signals, cutoff, initial) <==> NothingRaises(u, signals, |x.universe|))
            && (Completes(x, m, signals, cutoff, initial) ==>
                  WindowsOf(Completed(x, m, signals, cutoff, initial).paths) == Windows(u, signals))
  {
    hide TakeAssets, AssetWindows, NothingRaises;
  }
}
