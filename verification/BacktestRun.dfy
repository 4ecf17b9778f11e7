/** `BacktestEngine.run` as a whole, and the laws of its cash, its counters and its NAV history. */
module BacktestRun {
  import opened Prelude
  import opened RealFacts
  import opened Costs
  import opened Execution
  import opened Backtest
  import opened NavHistory

  /** The loop variables of the run. */
  datatype Journal = Journal(cash: real, paths: seq<PositionPath>, nav: seq<(Time, real)>, skipped: nat,
    observations: set<string>)

  datatype BacktestResult = BacktestResult(
    grossReturn: real,
    netReturn: real,
    benchmarkReturn: real,
    excessReturn: real,
    hitRate: real,
    turnover: real,
    costs: CostBreakdown,
    maxDrawdown: real,
    navReturns: seq<real>,
    numberOfSignals: nat,
    executedTrades: nat,
    skippedSignals: nat,
    allSignalsSkipped: bool,
    nav: seq<(Time, real)>,
    paths: seq<PositionPath>
  )

  /** The fixed inputs of the loops. */
  datatype Setup = Setup(x: Experiment, m: Market, benchmarkReturn: real, cutoff: Time)

  ghost predicate ValidSetup(u: Setup) {
    ValidExperiment(u.x) && ValidMarket(u.m)
  }

  // ---------------------------------------------------------------------------------------------
  // The loops
  // ---------------------------------------------------------------------------------------------

  function TakeSignal(u: Setup, id: string, asset: Asset, signal: Signal, j: Journal): Result<Journal, Violation>
    requires ValidCalendar(u.m.sessions) && ValidExperiment(u.x)
  {
    if u.cutoff < signal.observedAt then Err(IntegrityViolation)
    else if !signal.fires then Ok(j.(skipped := j.skipped + 1))
    else
      var trade := TradeFor(u.x, u.m, u.benchmarkReturn, id, asset, signal, j.cash);
      if trade.Err? then Err(trade.error)
      else if trade.value.None? then Ok(j.(skipped := j.skipped + 1))
      else
        var p := trade.value.value;
        var cash := j.cash + (p.Gain() - p.costs.Total());
        if cash < 0.0 then Err(IntegrityViolation)
        else Ok(Journal(cash, j.paths + [p], j.nav + [(p.exitAt, cash)], j.skipped,
                        j.observations + ObservationsUsed(u.x, u.m, id, asset, signal)))
  }

  /** The loop variables before the first asset. */
  function Start(initial: real): Journal {
    Journal(initial, [], [], 0, {})
  }

  /** The first n signals, those of other assets ignored. */
  function TakeSignals(u: Setup, id: string, asset: Asset, signals: seq<Signal>, n: nat, j: Journal)
    : Result<Journal, Violation>
    requires ValidCalendar(u.m.sessions) && ValidExperiment(u.x) && n <= |signals|
  {
    if n == 0 then Ok(j)
    else
      var before := TakeSignals(u, id, asset, signals, n - 1, j);
      if before.Err? || signals[n - 1].assetId != id then before
      else TakeSignal(u, id, asset, signals[n - 1], before.value)
  }

  function AssetFor(u: Setup, id: string): Result<Asset, Violation> {
    if id !in u.m.assets then Err(IntegrityViolation)
    else if u.m.assets[id].benchmark != u.x.benchmark then Err(IntegrityViolation)
    else if u.m.assets[id].bars == [] then Err(IntegrityViolation)
    else Ok(u.m.assets[id])
  }

  /** The first n assets of the universe. */
  function TakeAssets(u: Setup, signals: seq<Signal>, n: nat, j: Journal): Result<Journal, Violation>
    requires ValidCalendar(u.m.sessions) && ValidExperiment(u.x) && n <= |u.x.universe|
  {
    if n == 0 then Ok(j)
    else
      var before := TakeAssets(u, signals, n - 1, j);
      var id := u.x.universe[n - 1];
      if before.Err? then before
      else if AssetFor(u, id).Err? then Err(AssetFor(u, id).error)
      else TakeSignals(u, id, AssetFor(u, id).value, signals, |signals|, before.value)
  }

  lemma {:induction false} SignalErrorsStick(u: Setup, id: string, asset: Asset, signals: seq<Signal>, n: nat, k: nat,
                                             j: Journal)
    requires ValidSetup(u) && n <= k <= |signals| && TakeSignals(u, id, asset, signals, n, j).Err?
    ensures TakeSignals(u, id, asset, signals, k, j) == TakeSignals(u, id, asset, signals, n, j)
  {
    hide TakeSignal;
    if n < k {
      SignalErrorsStick(u, id, asset, signals, n, k - 1, j);
    }
  }

  lemma {:induction false} AssetErrorsStick(u: Setup, signals: seq<Signal>, n: nat, k: nat, j: Journal)
    requires ValidSetup(u) && n <= k <= |u.x.universe| && TakeAssets(u, signals, n, j).Err?
    ensures TakeAssets(u, signals, k, j) == TakeAssets(u, signals, n, j)
  {
    if n < k {
      AssetErrorsStick(u, signals, n, k - 1, j);
    }
  }

  /** The signal loop of one asset. */
  method TradeAsset(u: Setup, id: string, asset: Asset, signals: seq<Signal>, before: Journal)
      returns (r: Result<Journal, Violation>)
    requires ValidSetup(u)
    ensures r == TakeSignals(u, id, asset, signals, |signals|, before)
  {
    hide TradeFor, ObservationsUsed;
    var cash, paths, nav, skipped := before.cash, before.paths, before.nav, before.skipped;
    var observations := before.observations;
    for s := 0 to |signals|
      invariant 0 <= skipped && TakeSignals(u, id, asset, signals, s, before)
          == Ok(Journal(cash, paths, nav, skipped, observations))
    {
      var signal := signals[s];
      if signal.assetId != id {
        continue;
      }
      var failure: Option<Violation> := None;
      if signal.observedAt > u.cutoff {
        failure := Some(IntegrityViolation);
      } else if !signal.fires {
        skipped := skipped + 1;
      } else {
        var trade := TradeFor(u.x, u.m, u.benchmarkReturn, id, asset, signal, cash);
        if trade.Err? {
          failure := Some(trade.error);
        } else if trade.value.None? {
          skipped := skipped + 1;
        } else {
          var path := trade.value.value;
          cash := cash + (path.Gain() - path.costs.Total());
          if cash < 0.0 {
            failure := Some(IntegrityViolation);
          } else {
            paths := paths + [path];
            observations := observations + ObservationsUsed(u.x, u.m, id, asset, signal);
            nav := nav + [(path.exitAt, cash)];
          }
        }
      }
      if failure.Some? {
        SignalErrorsStick(u, id, asset, signals, s + 1, |signals|, before);
        return Err(failure.value);
      }
    }
    return Ok(Journal(cash, paths, nav, skipped, observations));
  }

  /** The asset loop. */
  method TradeUniverse(u: Setup, signals: seq<Signal>, initialCash: real) returns (r: Result<Journal, Violation>)
    requires ValidSetup(u)
    ensures r == TakeAssets(u, signals, |u.x.universe|, Start(initialCash))
  {
    ghost var start := Start(initialCash);
    var journal := Start(initialCash);
    hide TakeSignals, AssetFor;
    for a := 0 to |u.x.universe|
      invariant TakeAssets(u, signals, a, start) == Ok(journal)
    {
      var id := u.x.universe[a];
      var asset := AssetFor(u, id);
      if asset.Err? {
        AssetErrorsStick(u, signals, a + 1, |u.x.universe|, start);
        return Err(asset.error);
      }
      var traded := TradeAsset(u, id, asset.value, signals, journal);
      if traded.Err? {
        AssetErrorsStick(u, signals, a + 1, |u.x.universe|, start);
        return traded;
      }
      journal := traded.value;
    }
    return Ok(journal);
  }

  // ---------------------------------------------------------------------------------------------
  // Accounting
  // ---------------------------------------------------------------------------------------------

  function Gains(paths: seq<PositionPath>): real {
    if paths == [] then 0.0 else Gains(paths[..|paths| - 1]) + paths[|paths| - 1].Gain()
  }

  function TotalCosts(paths: seq<PositionPath>): real {
    if paths == [] then 0.0 else TotalCosts(paths[..|paths| - 1]) + paths[|paths| - 1].costs.Total()
  }

  /** The signals that name an asset. */
  function CountFor(signals: seq<Signal>, n: nat, id: string): nat
    requires n <= |signals|
  {
    if n == 0 then 0 else CountFor(signals, n - 1, id) + if signals[n - 1].assetId == id then 1 else 0
  }

  /** The same, for each of the first n assets of the universe. */
  function CountForAssets(signals: seq<Signal>, universe: seq<string>, n: nat): nat
    requires n <= |universe|
  {
    if n == 0 then 0 else CountForAssets(signals, universe, n - 1) + CountFor(signals, |signals|, universe[n - 1])
  }

  /** The cash is the last balance; balance i is the cash after trade i, and only the last one can be zero. */
  ghost predicate NavFollowsCash(initial: real, cash: real, paths: seq<PositionPath>, nav: seq<(Time, real)>) {
    && |nav| == |paths|
    && cash == (if nav == [] then initial else nav[|nav| - 1].1)
    && (forall i :: 0 <= i < |nav| ==> nav[i].0 == paths[i].exitAt && nav[i].1 == initial + GainsUpTo(paths, i + 1))
    && (forall i :: 0 <= i < |nav| ==> nav[i].1 >= 0.0)
    && (forall i :: 0 <= i < |nav| - 1 ==> nav[i].1 > 0.0)
  }

  /** The cash at hand when trade i was sized: the balance after the trade recorded before it. */
  function CashBefore(initial: real, nav: seq<(Time, real)>, i: nat): real
    requires i <= |nav|
  {
    if i == 0 then initial else nav[i - 1].1
  }

  /** Every recorded trade was made for a signal of the run and sized with the balance before it. */
  ghost predicate TradesHaveSignals(u: Setup, signals: seq<Signal>, initial: real, paths: seq<PositionPath>,
                                    nav: seq<(Time, real)>) {
    |nav| == |paths| && forall i :: 0 <= i < |paths| ==> HasSignal(u, signals, CashBefore(initial, nav, i), paths[i])
  }

  ghost predicate HasSignal(u: Setup, signals: seq<Signal>, cash: real, p: PositionPath) {
    exists signal :: TradedFor(u, signals, signal, cash, p)
  }

  ghost predicate TradedFor(u: Setup, signals: seq<Signal>, signal: Signal, cash: real, p: PositionPath) {
    && signal in signals && signal.fires && signal.assetId == p.assetId && signal.observedAt <= u.cutoff
    && p.assetId in u.x.universe && p.assetId in u.m.assets
    && SoundTrade(u.x, u.m, p.assetId, u.m.assets[p.assetId], signal, cash, p)
    && ValidCalendar(u.m.sessions) && FollowsRules(u.x, u.m, u.benchmarkReturn, p.assetId, u.m.assets[p.assetId],
                                                   signal, p)
  }

  ghost predicate Accounts(u: Setup, signals: seq<Signal>, initial: real, j: Journal) {
    && j.cash == initial + Gains(j.paths) - TotalCosts(j.paths)
    && NavFollowsCash(initial, j.cash, j.paths, j.nav)
    && TradesHaveSignals(u, signals, initial, j.paths, j.nav)
    && (j.paths == [] <==> j.observations == {})
  }

  lemma TakeSignalKeepsAccounts(u: Setup, id: string, signals: seq<Signal>, signal: Signal, initial: real, j: Journal)
    requires ValidSetup(u) && initial > 0.0 && Accounts(u, signals, initial, j)
    requires id in u.x.universe && AssetFor(u, id).Ok? && signal in signals && signal.assetId == id
    ensures var r := TakeSignal(u, id, AssetFor(u, id).value, signal, j);
            r.Ok? ==>
              && Accounts(u, signals, initial, r.value)
              && |r.value.paths| + r.value.skipped == |j.paths| + j.skipped + 1
  {
    hide *;
    SetupIsValid(u);
    var asset := AssetFor(u, id).value;
    if TakeSignal(u, id, asset, signal, j).Ok? {
      var taken := TakenOrSkipped(u, id, asset, signal, j);
      if taken.Some? {
        TakenKeepsAccounts(u, id, asset, signals, signal, initial, j, taken.value);
      } else {
        SkipKeepsAccounts(u, signals, initial, j);
      }
    }
  }

  lemma SetupIsValid(u: Setup)
    requires ValidSetup(u)
    ensures ValidExperiment(u.x) && ValidMarket(u.m) && ValidCalendar(u.m.sessions)
  {
    hide ValidExperiment;
  }

  lemma TakenKeepsAccounts(u: Setup, id: string, asset: Asset, signals: seq<Signal>, signal: Signal, initial: real,
                           j: Journal, p: PositionPath)
    requires ValidSetup(u) && initial > 0.0 && Accounts(u, signals, initial, j)
    requires id in u.x.universe && AssetFor(u, id) == Ok(asset) && signal in signals && signal.assetId == id
    requires signal.fires && signal.observedAt <= u.cutoff && j.cash + (p.Gain() - p.costs.Total()) >= 0.0
    requires TradeFor(u.x, u.m, u.benchmarkReturn, id, asset, signal, j.cash) == Ok(Some(p))
    ensures var cash := j.cash + (p.Gain() - p.costs.Total());
            Accounts(u, signals, initial, Journal(cash, j.paths + [p], j.nav + [(p.exitAt, cash)], j.skipped,
                                                  j.observations + ObservationsUsed(u.x, u.m, id, asset, signal)))
  {
    hide *;
    SetupIsValid(u);
    TradeFacts(u, id, asset, signals, signal, j.cash, p);
    TradeKeepsAccounts(u, signals, signal, initial, j, p, ObservationsUsed(u.x, u.m, id, asset, signal));
  }

  /** A signal that does not raise is skipped, or its trade is booked. */
  lemma TakenOrSkipped(u: Setup, id: string, asset: Asset, signal: Signal, j: Journal) returns (p: Option<PositionPath>)
    requires ValidCalendar(u.m.sessions) && ValidExperiment(u.x) && TakeSignal(u, id, asset, signal, j).Ok?
    ensures p.None? ==> TakeSignal(u, id, asset, signal, j) == Ok(j.(skipped := j.skipped + 1))
    ensures p.Some? ==>
      var cash := j.cash + (p.value.Gain() - p.value.costs.Total());
      && signal.fires && signal.observedAt <= u.cutoff && cash >= 0.0
      && TradeFor(u.x, u.m, u.benchmarkReturn, id, asset, signal, j.cash) == Ok(p)
      && TakeSignal(u, id, asset, signal, j)
         == Ok(Journal(cash, j.paths + [p.value], j.nav + [(p.value.exitAt, cash)], j.skipped,
                       j.observations + ObservationsUsed(u.x, u.m, id, asset, signal)))
  {
    hide TradeFor, ObservationsUsed;
    p := None;
    if signal.fires && u.cutoff >= signal.observedAt {
      var trade := TradeFor(u.x, u.m, u.benchmarkReturn, id, asset, signal, j.cash);
      p := trade.value;
    }
  }

  lemma SkipKeepsAccounts(u: Setup, signals: seq<Signal>, initial: real, j: Journal)
    requires Accounts(u, signals, initial, j)
    ensures Accounts(u, signals, initial, j.(skipped := j.skipped + 1))
  {
    hide NavFollowsCash, TradesHaveSignals, Gains, TotalCosts;
  }

  /** What is known of a trade when it is booked. */
  lemma TradeFacts(u: Setup, id: string, asset: Asset, signals: seq<Signal>, signal: Signal, cash: real,
                   p: PositionPath)
    requires ValidSetup(u) && id in u.x.universe && AssetFor(u, id) == Ok(asset)
    requires signal in signals && signal.assetId == id && signal.fires && signal.observedAt <= u.cutoff
    requires TradeFor(u.x, u.m, u.benchmarkReturn, id, asset, signal, cash) == Ok(Some(p))
    ensures cash > 0.0 && ObservationsUsed(u.x, u.m, id, asset, signal) != {}
    ensures TradedFor(u, signals, signal, cash, p)
  {
    assert ValidExperiment(u.x) && ValidMarket(u.m);
    hide *;
    TradersHaveCash(u, id, signal, cash, p);
    TradesUseObservations(u.x, u.m, u.benchmarkReturn, id, asset, signal, cash);
    TradeHasSignal(u, id, signals, signal, cash, p);
  }

  lemma TradeKeepsAccounts(u: Setup, signals: seq<Signal>, signal: Signal, initial: real, j: Journal, p: PositionPath,
                           used: set<string>)
    requires initial > 0.0 && Accounts(u, signals, initial, j) && j.cash > 0.0 && used != {}
    requires TradedFor(u, signals, signal, j.cash, p) && j.cash + (p.Gain() - p.costs.Total()) >= 0.0
    ensures var cash := j.cash + (p.Gain() - p.costs.Total());
            Accounts(u, signals, initial, Journal(cash, j.paths + [p], j.nav + [(p.exitAt, cash)], j.skipped,
                                                  j.observations + used))
  {
    var cash := j.cash + (p.Gain() - p.costs.Total());
    hide TradedFor, NavFollowsCash, TradesHaveSignals, Gains, TotalCosts;
    BooksAfterTrade(initial, j.cash, j.paths, j.nav, p, cash);
    CashIsLastBalance(initial, j.cash, j.paths, j.nav);
    SignalsAfterTrade(u, signals, initial, j.paths, j.nav, signal, p, p.exitAt, cash);
    assert used <= j.observations + used;
    var t := Journal(cash, j.paths + [p], j.nav + [(p.exitAt, cash)], j.skipped, j.observations + used);
    AccountsHold(u, signals, initial, t, p, cash, j, used);
  }

  lemma AccountsHold(u: Setup, signals: seq<Signal>, initial: real, t: Journal, p: PositionPath, cash: real,
                     j: Journal, used: set<string>)
    requires t == Journal(cash, j.paths + [p], j.nav + [(p.exitAt, cash)], j.skipped, j.observations + used)
    requires used != {} && used <= j.observations + used
    requires cash == initial + Gains(j.paths + [p]) - TotalCosts(j.paths + [p])
    requires NavFollowsCash(initial, cash, j.paths + [p], j.nav + [(p.exitAt, cash)])
    requires TradesHaveSignals(u, signals, initial, j.paths + [p], j.nav + [(p.exitAt, cash)])
    ensures Accounts(u, signals, initial, t)
  {
    hide Gains, TotalCosts, NavFollowsCash, TradesHaveSignals;
  }

  lemma CashIsLastBalance(initial: real, cash: real, paths: seq<PositionPath>, nav: seq<(Time, real)>)
    requires NavFollowsCash(initial, cash, paths, nav)
    ensures |nav| == |paths| && cash == CashBefore(initial, nav, |nav|)
  {
  }

  lemma TradersHaveCash(u: Setup, id: string, signal: Signal, cash: real, p: PositionPath)
    requires ValidSetup(u) && AssetFor(u, id).Ok?
    requires TradeFor(u.x, u.m, u.benchmarkReturn, id, AssetFor(u, id).value, signal, cash) == Ok(Some(p))
    ensures cash > 0.0
  {
    hide TradeFor, AssetFor;
    if cash <= 0.0 {
      NoCashNoTrade(u.x, u.m, u.benchmarkReturn, id, AssetFor(u, id).value, signal, cash);
    }
  }

  /** The sums over the first i trades. */
  function GainsUpTo(paths: seq<PositionPath>, i: nat): real
    requires i <= |paths|
  {
    Gains(paths[..i]) - TotalCosts(paths[..i])
  }

  lemma GainsAfterTrade(paths: seq<PositionPath>, p: PositionPath)
    ensures forall i :: 0 <= i <= |paths| ==> GainsUpTo(paths + [p], i) == GainsUpTo(paths, i)
    ensures GainsUpTo(paths + [p], |paths| + 1) == Gains(paths) - TotalCosts(paths) + (p.Gain() - p.costs.Total())
  {
    var all := paths + [p];
    assert all[..|all| - 1] == paths && all[..|all|] == all;
    forall i | 0 <= i <= |paths| ensures GainsUpTo(all, i) == GainsUpTo(paths, i) {
      assert all[..i] == paths[..i];
    }
  }

  /** One more trade extends the history by the new cash, and the sums by its gain and its costs. */
  lemma BooksAfterTrade(initial: real, before: real, paths: seq<PositionPath>, nav: seq<(Time, real)>,
                        p: PositionPath, cash: real)
    requires initial > 0.0 && NavFollowsCash(initial, before, paths, nav)
             && before == initial + Gains(paths) - TotalCosts(paths)
    requires before > 0.0 && cash == before + (p.Gain() - p.costs.Total()) && cash >= 0.0
    ensures NavFollowsCash(initial, cash, paths + [p], nav + [(p.exitAt, cash)])
    ensures cash == initial + Gains(paths + [p]) - TotalCosts(paths + [p])
  {
    GainsAfterTrade(paths, p);
    var all, balances := paths + [p], nav + [(p.exitAt, cash)];
    assert all[..|paths| + 1] == all && GainsUpTo(all, |paths| + 1) == Gains(all) - TotalCosts(all);
    hide Gains, TotalCosts, GainsUpTo;
    forall i | 0 <= i < |balances|
      ensures balances[i].0 == all[i].exitAt && balances[i].1 == initial + GainsUpTo(all, i + 1)
    {
      assert i < |nav| ==> balances[i] == nav[i] && all[i] == paths[i];
    }
  }

  lemma TradeHasSignal(u: Setup, id: string, signals: seq<Signal>, signal: Signal, cash: real, p: PositionPath)
    requires ValidSetup(u) && id in u.x.universe && AssetFor(u, id).Ok?
    requires signal in signals && signal.assetId == id && signal.fires && signal.observedAt <= u.cutoff
    requires TradeFor(u.x, u.m, u.benchmarkReturn, id, AssetFor(u, id).value, signal, cash) == Ok(Some(p))
    ensures TradedFor(u, signals, signal, cash, p)
  {
    hide TradeFor, SoundCosts, Return, FollowsRules;
    TradesFollowRules(u.x, u.m, u.benchmarkReturn, id, AssetFor(u, id).value, signal, cash);
    TradesAreSound(u.x, u.m, u.benchmarkReturn, id, AssetFor(u, id).value, signal, cash);
  }

  lemma SignalsAfterTrade(u: Setup, signals: seq<Signal>, initial: real, paths: seq<PositionPath>,
                          nav: seq<(Time, real)>,
                          signal: Signal, p: PositionPath, at: Time, cash: real)
    requires TradesHaveSignals(u, signals, initial, paths, nav)
    requires TradedFor(u, signals, signal, CashBefore(initial, nav, |nav|), p)
    ensures TradesHaveSignals(u, signals, initial, paths + [p], nav + [(at, cash)])
  {
    hide TradedFor;
    var more, balances := paths + [p], nav + [(at, cash)];
    forall i | 0 <= i < |more| ensures HasSignal(u, signals, CashBefore(initial, balances, i), more[i]) {
      assert CashBefore(initial, balances, i) == CashBefore(initial, nav, i);
      assert i < |paths| ==> more[i] == paths[i];
    }
  }

  lemma {:induction false} TakeSignalsKeepsAccounts(u: Setup, id: string, signals: seq<Signal>, n: nat, initial: real,
                                                    j: Journal)
    requires ValidSetup(u) && initial > 0.0 && Accounts(u, signals, initial, j) && n <= |signals|
    requires id in u.x.universe && AssetFor(u, id).Ok?
    ensures var r := TakeSignals(u, id, AssetFor(u, id).value, signals, n, j);
            r.Ok? ==> Accounts(u, signals, initial, r.value)
                      && |r.value.paths| + r.value.skipped == |j.paths| + j.skipped + CountFor(signals, n, id)
  {
    hide TakeSignal, Accounts;
    if n > 0 {
      TakeSignalsKeepsAccounts(u, id, signals, n - 1, initial, j);
      var before := TakeSignals(u, id, AssetFor(u, id).value, signals, n - 1, j);
      if before.Ok? && signals[n - 1].assetId == id {
        TakeSignalKeepsAccounts(u, id, signals, signals[n - 1], initial, before.value);
      }
    }
  }

  lemma NothingTradedYet(u: Setup, signals: seq<Signal>, initial: real)
    ensures Accounts(u, signals, initial, Start(initial))
  {
  }

  /** Cash, NAV, trades and counters after the first n assets. */
  lemma {:induction false} TakeAssetsKeepsAccounts(u: Setup, signals: seq<Signal>, n: nat, initial: real)
    requires ValidSetup(u) && initial > 0.0 && n <= |u.x.universe|
    ensures var r := TakeAssets(u, signals, n, Start(initial));
            r.Ok? ==> Accounts(u, signals, initial, r.value)
                      && |r.value.paths| + r.value.skipped == CountForAssets(signals, u.x.universe, n)
  {
    var start := Start(initial);
    hide Accounts, TakeSignals, AssetFor, CountFor;
    if n == 0 {
      NothingTradedYet(u, signals, initial);
    } else {
      TakeAssetsKeepsAccounts(u, signals, n - 1, initial);
      var before := TakeAssets(u, signals, n - 1, start);
      if before.Ok? {
        OneMoreAsset(u, signals, n, initial, before.value);
      }
    }
  }

  lemma OneMoreAsset(u: Setup, signals: seq<Signal>, n: nat, initial: real, before: Journal)
    requires ValidSetup(u) && initial > 0.0 && 0 < n <= |u.x.universe|
    requires TakeAssets(u, signals, n - 1, Start(initial)) == Ok(before)
    requires Accounts(u, signals, initial, before)
    requires |before.paths| + before.skipped == CountForAssets(signals, u.x.universe, n - 1)
    ensures var r := TakeAssets(u, signals, n, Start(initial));
            r.Ok? ==> Accounts(u, signals, initial, r.value)
                      && |r.value.paths| + r.value.skipped == CountForAssets(signals, u.x.universe, n)
  {
    var id := u.x.universe[n - 1];
    hide Accounts, TakeSignals, AssetFor, CountFor, ValidExperiment, ValidMarket;
    if AssetFor(u, id).Ok? {
      TakeSignalsKeepsAccounts(u, id, signals, |signals|, initial, before);
    }
  }

  // ---------------------------------------------------------------------------------------------
  // Without initial cash
  // ---------------------------------------------------------------------------------------------

  lemma {:induction false} PoorSignalsTradeNothing(u: Setup, id: string, asset: Asset, signals: seq<Signal>, n: nat,
                                                   j: Journal)
    requires ValidSetup(u) && n <= |signals| && j.cash <= 0.0
    ensures var r := TakeSignals(u, id, asset, signals, n, j);
            r.Ok? ==> r.value.cash == j.cash && r.value.paths == j.paths && r.value.observations == j.observations
  {
    hide TradeFor, ObservationsUsed;
    if n > 0 {
      PoorSignalsTradeNothing(u, id, asset, signals, n - 1, j);
      NoCashNoTrade(u.x, u.m, u.benchmarkReturn, id, asset, signals[n - 1], j.cash);
    }
  }

  lemma {:induction false} PoorRunTradesNothing(u: Setup, signals: seq<Signal>, n: nat, initial: real)
    requires ValidSetup(u) && n <= |u.x.universe| && initial <= 0.0
    ensures var r := TakeAssets(u, signals, n, Start(initial)); r.Ok? ==>
              r.value.cash == initial && r.value.paths == [] && r.value.observations == {}
  {
    hide TakeSignals;
    if n > 0 {
      var start := Start(initial);
      PoorRunTradesNothing(u, signals, n - 1, initial);
      var before := TakeAssets(u, signals, n - 1, start);
      var id := u.x.universe[n - 1];
      if before.Ok? && AssetFor(u, id).Ok? {
        PoorSignalsTradeNothing(u, id, AssetFor(u, id).value, signals, |signals|, before.value);
      }
    }
  }

  // ---------------------------------------------------------------------------------------------
  // The run and its report
  // ---------------------------------------------------------------------------------------------

  function Balances(nav: seq<(Time, real)>): (values: seq<real>)
    ensures |values| == |nav| && forall i :: 0 <= i < |nav| ==> values[i] == nav[i].1
  {
    seq(|nav|, i requires 0 <= i < |nav| => nav[i].1)
  }

  /** The checks before the first asset is looked at. */
  function SetupFor(x: Experiment, m: Market, cutoff: Time): Result<Setup, Violation> {
    if !x.admissible || cutoff < x.testEnd || |m.benchmarkCloses| < 2 then Err(IntegrityViolation)
    else if m.benchmarkCloses[0] == 0.0 then Err(DivisionByZero)
    else Ok(Setup(x, m, Return(m.benchmarkCloses[0], m.benchmarkCloses[|m.benchmarkCloses| - 1]), cutoff))
  }

  function GrossReturn(paths: seq<PositionPath>): real {
    if paths == [] then 0.0 else GrossReturn(paths[..|paths| - 1]) + paths[|paths| - 1].realizedReturn
  }

  /** The trades with a positive realised return. */
  function Wins(paths: seq<PositionPath>): (wins: nat)
    ensures wins <= |paths|
  {
    if paths == [] then 0 else Wins(paths[..|paths| - 1]) + if paths[|paths| - 1].realizedReturn > 0.0 then 1 else 0
  }

  function HitRate(paths: seq<PositionPath>): real {
    if paths == [] then 0.0 else Wins(paths) as real / |paths| as real
  }

  function Invested(paths: seq<PositionPath>): real {
    if paths == [] then 0.0 else Invested(paths[..|paths| - 1]) + paths[|paths| - 1].EntryValue()
  }

  function AllCosts(paths: seq<PositionPath>): CostBreakdown {
    if paths == [] then CostBreakdown(0.0, 0.0, 0.0, 0.0, 0.0)
    else SumCosts(AllCosts(paths[..|paths| - 1]), paths[|paths| - 1].costs)
  }

  /**
   The result for a journal, provided that a stored partition stands behind one of its observations.
   A journal with observations never comes from a run without positive cash, so the division by the
   initial cash is safe where it is reached.
   */
  function Report(u: Setup, signals: seq<Signal>, initial: real, j: Journal): Result<BacktestResult, Violation>
  {
    var allSignalsSkipped := j.paths == [] && |signals| > 0;
    if PartitionsOf(u.m, j.observations) == {} then Err(IntegrityViolation)
    else if initial <= 0.0 then Err(DivisionByZero)
    else
      var changes := NavReturns(initial, Balances(j.nav));
      var net := (j.cash - initial) / initial;
      if changes.Err? then Err(changes.error)
      else if |j.paths| > |signals| then Err(ValidationError)
      else Ok(BacktestResult(
        GrossReturn(j.paths), net, u.benchmarkReturn, net - u.benchmarkReturn, HitRate(j.paths),
        Invested(j.paths) / initial, AllCosts(j.paths), Worst(initial, Balances(j.nav), |j.nav|), changes.value,
        |signals|, |j.paths|, j.skipped, allSignalsSkipped, j.nav, j.paths))
  }

  function Outcome(x: Experiment, m: Market, signals: seq<Signal>, cutoff: Time, initial: real)
    : Result<BacktestResult, Violation>
    requires ValidExperiment(x) && ValidMarket(m)
  {
    var u := SetupFor(x, m, cutoff);
    if u.Err? then Err(u.error) else
    var j := TakeAssets(u.value, signals, |x.universe|, Start(initial));
    if j.Err? then Err(j.error) else Report(u.value, signals, initial, j.value)
  }

  /** `BacktestEngine.run`. */
  method Run(x: Experiment, m: Market, signals: seq<Signal>, cutoff: Time, initialCash: real)
    returns (r: Result<BacktestResult, Violation>)
    requires ValidExperiment(x) && ValidMarket(m)
    ensures r == Outcome(x, m, signals, cutoff, initialCash)
  {
    var u := SetupFor(x, m, cutoff);
    if u.Err? {
      return Err(u.error);
    }
    var journal := TradeUniverse(u.value, signals, initialCash);
    if journal.Err? {
      return Err(journal.error);
    }
    var j := journal.value;
    var allSignalsSkipped := j.paths == [] && |signals| > 0;
    var partitions := PartitionsOf(u.value.m, j.observations);
    if partitions == {} {
      return Err(IntegrityViolation);
    }
    ProvenanceNeedsCash(u.value, signals, initialCash, j);
    hide *;
    var net := (j.cash - initialCash) / initialCash;
    var changes := NavReturns(initialCash, Balances(j.nav));
    if changes.Err? {
      return Err(changes.error);
    }
    var drawdown := MaxDrawdown(Balances(j.nav), initialCash);
    if |j.paths| > |signals| {
      return Err(ValidationError);
    }
    return Ok(BacktestResult(
      GrossReturn(j.paths), net, u.value.benchmarkReturn, net - u.value.benchmarkReturn, HitRate(j.paths),
      Invested(j.paths) / initialCash, AllCosts(j.paths), drawdown, changes.value,
      |signals|, |j.paths|, j.skipped, allSignalsSkipped, j.nav, j.paths));
  }

  /** Observations come from trades, and trades from positive cash. */
  lemma ProvenanceNeedsCash(u: Setup, signals: seq<Signal>, initial: real, j: Journal)
    requires ValidSetup(u) && TakeAssets(u, signals, |u.x.universe|, Start(initial)) == Ok(j)
    requires PartitionsOf(u.m, j.observations) != {}
    ensures initial > 0.0
  {
    if initial <= 0.0 {
      PoorRunTradesNothing(u, signals, |u.x.universe|, initial);
    }
  }

  // ---------------------------------------------------------------------------------------------
  // Laws of a reported run
  // ---------------------------------------------------------------------------------------------

  /** Once there is initial cash, no balance but the last can be zero, so no return divides by zero. */
  lemma NavReturnsNeverDivideByZero(initial: real, j: Journal)
    requires initial > 0.0 && NavFollowsCash(initial, j.cash, j.paths, j.nav)
    ensures NavReturns(initial, Balances(j.nav)).Ok?
  {
    var all := History(initial, Balances(j.nav));
    forall i | 0 <= i < |j.nav| ensures all[i] != 0.0 {
      assert i > 0 ==> all[i] == j.nav[i - 1].1;
    }
  }

  // ---------------------------------------------------------------------------------------------
  // When a run reports
  // ---------------------------------------------------------------------------------------------

  function JournalFor(u: Setup, signals: seq<Signal>, initial: real): Result<Journal, Violation>
    requires ValidSetup(u)
  {
    TakeAssets(u, signals, |u.x.universe|, Start(initial))
  }

  /** Setup and loops raise nothing. */
  ghost predicate Completes(x: Experiment, m: Market, signals: seq<Signal>, cutoff: Time, initial: real)
    requires ValidExperiment(x) && ValidMarket(m)
  {
    SetupFor(x, m, cutoff).Ok? && JournalFor(SetupFor(x, m, cutoff).value, signals, initial).Ok?
  }

  ghost function Completed(x: Experiment, m: Market, signals: seq<Signal>, cutoff: Time, initial: real): Journal
    requires ValidExperiment(x) && ValidMarket(m) && Completes(x, m, signals, cutoff, initial)
  {
    JournalFor(SetupFor(x, m, cutoff).value, signals, initial).value
  }

  /** A report shows the trades and the balances of the journal. */
  lemma ReportShowsJournal(x: Experiment, m: Market, signals: seq<Signal>, cutoff: Time, initial: real)
    requires ValidExperiment(x) && ValidMarket(m) && Outcome(x, m, signals, cutoff, initial).Ok?
    ensures Completes(x, m, signals, cutoff, initial)
    ensures var r, j := Outcome(x, m, signals, cutoff, initial).value, Completed(x, m, signals, cutoff, initial);
            r.paths == j.paths && r.nav == j.nav && r.skippedSignals == j.skipped
  {
    hide TakeAssets, NavReturns, PartitionsOf, Worst, GrossReturn, HitRate, Invested, AllCosts;
  }

  /**
   A run reports if and only if it completes, a stored partition stands behind an observation it used, and trades
   do not outnumber signals.
   */
  lemma ReportsIff(x: Experiment, m: Market, signals: seq<Signal>, cutoff: Time, initial: real)
    requires ValidExperiment(x) && ValidMarket(m)
    ensures Outcome(x, m, signals, cutoff, initial).Ok? <==>
            && Completes(x, m, signals, cutoff, initial)
            && PartitionsOf(m, Completed(x, m, signals, cutoff, initial).observations) != {}
            && |Completed(x, m, signals, cutoff, initial).paths| <= |signals|
  {
    hide TakeAssets, NavReturns, PartitionsOf;
    if && Completes(x, m, signals, cutoff, initial)
       && PartitionsOf(m, Completed(x, m, signals, cutoff, initial).observations) != {}
    {
      var u, j := SetupFor(x, m, cutoff).value, Completed(x, m, signals, cutoff, initial);
      ProvenanceNeedsCash(u, signals, initial, j);
      TakeAssetsKeepsAccounts(u, signals, |x.universe|, initial);
      NavReturnsNeverDivideByZero(initial, j);
    }
  }

  /** Every bar of every asset is stored in a stored partition, as the foreign key of the observation table demands. */
  ghost predicate FullyStored(m: Market) {
    forall id, bar :: id in m.assets && bar in m.assets[id].bars ==>
      bar.observationId in m.partitionOf && m.partitionOf[bar.observationId] in m.partitions
  }

  /** Over fully stored markets and positive cash, what decides is whether anything was traded. */
  lemma StoredMarketReportsIff(x: Experiment, m: Market, signals: seq<Signal>, cutoff: Time, initial: real)
    requires ValidExperiment(x) && ValidMarket(m) && FullyStored(m) && initial > 0.0
    ensures Outcome(x, m, signals, cutoff, initial).Ok? <==>
            && Completes(x, m, signals, cutoff, initial)
            && 1 <= |Completed(x, m, signals, cutoff, initial).paths| <= |signals|
  {
    hide *;
    ReportsIff(x, m, signals, cutoff, initial);
    if Completes(x, m, signals, cutoff, initial) {
      StoredJournal(x, m, signals, cutoff, initial);
    }
  }

  /** Over fully stored markets a partition stands behind a journal just when it has trades. */
  lemma StoredJournal(x: Experiment, m: Market, signals: seq<Signal>, cutoff: Time, initial: real)
    requires ValidExperiment(x) && ValidMarket(m) && FullyStored(m) && initial > 0.0
    requires Completes(x, m, signals, cutoff, initial)
    ensures var j := Completed(x, m, signals, cutoff, initial);
            PartitionsOf(m, j.observations) != {} <==> |j.paths| >= 1
  {
    var u, j := SetupFor(x, m, cutoff).value, Completed(x, m, signals, cutoff, initial);
    hide TakeAssets, NavFollowsCash, TradesHaveSignals, Gains, TotalCosts, OfTheMarket, PartitionsOf, FullyStored;
    TakeAssetsKeepsAccounts(u, signals, |x.universe|, initial);
    AssetsUseTheirBars(u, signals, |x.universe|, initial);
    if j.observations != {} {
      var id :| id in j.observations;
      StoredObservationHasPartition(u, id, j.observations);
    }
  }

  /** The observations of the assets of the market. */
  ghost predicate OfTheMarket(m: Market, observations: set<string>) {
    forall o :: o in observations ==> exists id :: id in m.assets && o in BarIds(m.assets[id].bars)
  }

  lemma StoredObservationHasPartition(u: Setup, o: string, observations: set<string>)
    requires FullyStored(u.m) && OfTheMarket(u.m, observations) && o in observations
    ensures PartitionsOf(u.m, observations) != {}
  {
    var id :| id in u.m.assets && o in BarIds(u.m.assets[id].bars);
    var bar :| bar in u.m.assets[id].bars && bar.observationId == o;
    assert u.m.partitionOf[o] in PartitionsOf(u.m, observations);
  }

  lemma {:induction false} SignalsUseTheirBars(u: Setup, id: string, signals: seq<Signal>, n: nat, j: Journal)
    requires ValidSetup(u) && n <= |signals| && AssetFor(u, id).Ok? && OfTheMarket(u.m, j.observations)
    ensures var r := TakeSignals(u, id, AssetFor(u, id).value, signals, n, j); r.Ok? ==>
              OfTheMarket(u.m, r.value.observations)
  {
    if n > 0 {
      SignalsUseTheirBars(u, id, signals, n - 1, j);
      var before := TakeSignals(u, id, AssetFor(u, id).value, signals, n - 1, j);
      hide TakeSignal, OfTheMarket, AssetFor;
      if before.Ok? {
        SignalUsesItsBars(u, id, signals[n - 1], before.value);
      }
    }
  }

  lemma SignalUsesItsBars(u: Setup, id: string, signal: Signal, j: Journal)
    requires ValidSetup(u) && AssetFor(u, id).Ok? && OfTheMarket(u.m, j.observations)
    ensures var r := TakeSignal(u, id, AssetFor(u, id).value, signal, j); r.Ok? ==>
              OfTheMarket(u.m, r.value.observations)
  {
    ObservationsAreTheAssets(u.x, u.m, id, AssetFor(u, id).value, signal);
    var used := ObservationsUsed(u.x, u.m, id, AssetFor(u, id).value, signal);
    assert id in u.m.assets && used <= BarIds(u.m.assets[id].bars);
    hide TradeFor, ObservationsUsed, BarIds, ValidExperiment, ValidMarket;
  }

  lemma {:induction false} AssetsUseTheirBars(u: Setup, signals: seq<Signal>, n: nat, initial: real)
    requires ValidSetup(u) && n <= |u.x.universe|
    ensures var r := TakeAssets(u, signals, n, Start(initial)); r.Ok? ==> OfTheMarket(u.m, r.value.observations)
  {
    hide TakeSignals, AssetFor, ValidSetup;
    if n > 0 {
      hide OfTheMarket;
      SetupIsValid(u);
      AssetsUseTheirBars(u, signals, n - 1, initial);
      var before := TakeAssets(u, signals, n - 1, Start(initial));
      var id := u.x.universe[n - 1];
      if before.Ok? && AssetFor(u, id).Ok? {
        SignalsUseTheirBars(u, id, signals, |signals|, before.value);
      }
    }
  }

  /**
   A run that completes without a trade raises the provenance error, so no report ever says that all signals were
   skipped.
   */
  lemma NoTradeNoReport(x: Experiment, m: Market, signals: seq<Signal>, cutoff: Time, initial: real)
    requires ValidExperiment(x) && ValidMarket(m)
    ensures Completes(x, m, signals, cutoff, initial) && Completed(x, m, signals, cutoff, initial).paths == [] ==>
              Outcome(x, m, signals, cutoff, initial) == Err(IntegrityViolation)
    ensures Outcome(x, m, signals, cutoff, initial).Ok? ==>
              !Outcome(x, m, signals, cutoff, initial).value.allSignalsSkipped
  {
    hide TakeAssets, NavReturns, Accounts;
    if Completes(x, m, signals, cutoff, initial) {
      var u := SetupFor(x, m, cutoff).value;
      if initial > 0.0 {
        TakeAssetsKeepsAccounts(u, signals, |x.universe|, initial);
        TradesMeanObservations(u, signals, initial, Completed(x, m, signals, cutoff, initial));
      } else {
        PoorRunTradesNothing(u, signals, |x.universe|, initial);
      }
    }
  }

  lemma TradesMeanObservations(u: Setup, signals: seq<Signal>, initial: real, j: Journal)
    requires Accounts(u, signals, initial, j)
    ensures j.paths == [] <==> j.observations == {}
  {
  }

  /** One asset with one bar, and one signal that does not fire. */
  function QuietExperiment(): Experiment {
    var free := CostModel(0.0, 0.0, 0.0, 0.0, 0.0, 0.0, true);
    Experiment(true, ["A"], "I", 1, NextOpen, ExitPlan(EndOfWindow, 1, None, None), free)
  }

  function QuietMarket(digest: string): Market {
    var asset := Asset("I", false, [Bar(1, Some(1.0), Some(1.0), 1.0, "bar")]);
    Market(map["A" := asset], [1.0, 1.0], [], map[], map["bar" := digest], {digest})
  }

  lemma QuietInputs(digest: string)
    requires |digest| == 64
    ensures ValidExperiment(QuietExperiment()) && ValidMarket(QuietMarket(digest)) && FullyStored(QuietMarket(digest))
    ensures Receivable(QuietExperiment(), QuietMarket(digest), 1)
  {
  }

  /** The run completes with its only signal skipped, and raises instead of reporting "all signals skipped". */
  lemma AllSkippedRaises(digest: string)
    requires |digest| == 64
    ensures ValidExperiment(QuietExperiment()) && ValidMarket(QuietMarket(digest)) && FullyStored(QuietMarket(digest))
    ensures Receivable(QuietExperiment(), QuietMarket(digest), 1)
    ensures var x, m, signals := QuietExperiment(), QuietMarket(digest), [Signal("A", 0, false)];
            && Completes(x, m, signals, 1, 100.0) && Completed(x, m, signals, 1, 100.0) == Start(100.0).(skipped := 1)
            && Outcome(x, m, signals, 1, 100.0) == Err(IntegrityViolation)
  {
    QuietInputs(digest);
    var x, m, signals := QuietExperiment(), QuietMarket(digest), [Signal("A", 0, false)];
    var u := SetupFor(x, m, 1).value;
    assert AssetFor(u, "A") == Ok(m.assets["A"]);
    var asset := m.assets["A"];
    assert TakeSignals(u, "A", asset, signals, 0, Start(100.0)) == Ok(Start(100.0));
    assert TakeSignals(u, "A", asset, signals, 1, Start(100.0)) == Ok(Start(100.0).(skipped := 1));
    assert TakeAssets(u, signals, 0, Start(100.0)) == Ok(Start(100.0));
    assert TakeAssets(u, signals, 1, Start(100.0)) == Ok(Start(100.0).(skipped := 1));
    NoTradeNoReport(x, m, signals, 1, 100.0);
  }

  /** Where a report comes from: positive initial cash and a journal whose accounts are in order. */
  lemma ReportedJournal(x: Experiment, m: Market, signals: seq<Signal>, cutoff: Time, initial: real)
      returns (u: Setup, j: Journal)
    requires ValidExperiment(x) && ValidMarket(m) && Outcome(x, m, signals, cutoff, initial).Ok?
    ensures initial > 0.0 && SetupFor(x, m, cutoff) == Ok(u) && j.paths != []
    ensures Outcome(x, m, signals, cutoff, initial) == Report(u, signals, initial, j)
    ensures Accounts(u, signals, initial, j) && |j.paths| + j.skipped
            == CountForAssets(signals, x.universe, |x.universe|)
  {
    hide Accounts, NavReturns, TakeAssets;
    u := SetupFor(x, m, cutoff).value;
    j := TakeAssets(u, signals, |x.universe|, Start(initial)).value;
    ProvenanceNeedsCash(u, signals, initial, j);
    TakeAssetsKeepsAccounts(u, signals, |x.universe|, initial);
    TradesMeanObservations(u, signals, initial, j);
  }

  /**
   The money of a reported run: what it ends with is what it started with plus the gross gains of
   the trades minus every cost, and the period returns compound to exactly that growth.
   */
  lemma FinalCashIsAccountedFor(x: Experiment, m: Market, signals: seq<Signal>, cutoff: Time, initial: real)
    requires ValidExperiment(x) && ValidMarket(m) && Outcome(x, m, signals, cutoff, initial).Ok?
    ensures var r := Outcome(x, m, signals, cutoff, initial).value;
            && initial > 0.0 && |r.nav| == |r.paths| == r.executedTrades >= 1 && |r.navReturns| == |r.nav|
            && r.nav[|r.nav| - 1].1 == initial + Gains(r.paths) - TotalCosts(r.paths)
            && r.netReturn * initial == Gains(r.paths) - TotalCosts(r.paths)
            && Compound(r.navReturns, |r.navReturns|) == 1.0 + r.netReturn
  {
    hide Compound, Worst, Gains, TotalCosts, TradesHaveSignals;
    var u, j := ReportedJournal(x, m, signals, cutoff, initial);
    var r := Outcome(x, m, signals, cutoff, initial).value;
    var values := Balances(j.nav);
    NavReturnsNeverDivideByZero(initial, j);
    ReturnsTelescope(initial, values, |values|);
    assert History(initial, values)[|values|] == j.cash;
    GrowthOfCash(Compound(r.navReturns, |r.navReturns|), initial, j.cash);
  }

  lemma GrowthOfCash(compound: real, initial: real, cash: real)
    requires initial > 0.0 && compound * initial == cash
    ensures compound == 1.0 + (cash - initial) / initial
    ensures (cash - initial) / initial * initial == cash - initial
  {
    var q := (cash - initial) / initial;
    QuotientTimes(cash - initial, initial);
    assert (1.0 + q) * initial == cash;
    CommonFactor(compound, 1.0 + q, initial);
  }

  /** The reported drawdown is the deepest fall between two balances, the initial one included. */
  lemma ReportedDrawdown(x: Experiment, m: Market, signals: seq<Signal>, cutoff: Time, initial: real)
    requires ValidExperiment(x) && ValidMarket(m) && Outcome(x, m, signals, cutoff, initial).Ok?
    ensures var r := Outcome(x, m, signals, cutoff, initial).value;
            var h := History(initial, Balances(r.nav));
            && -1.0 <= r.maxDrawdown <= 0.0
            && (forall i, j :: 0 <= i <= j < |h| && h[i] > 0.0 ==> r.maxDrawdown <= Fall(h, i, j))
            && (exists i, j :: 0 <= i <= j < |h| && h[i] > 0.0 && r.maxDrawdown == Fall(h, i, j))
  {
    hide Worst, Fall, Gains, TotalCosts, TradesHaveSignals;
    var u, j := ReportedJournal(x, m, signals, cutoff, initial);
    WorstIsDeepestFall(initial, Balances(j.nav), |j.nav|);
  }

  /**
   Trade i of a report answers a fired signal, follows the rules, and was sized with the balance that the history
   shows before it.
   */
  lemma ReportedTradesAreSound(x: Experiment, m: Market, signals: seq<Signal>, cutoff: Time, initial: real)
    requires ValidExperiment(x) && ValidMarket(m) && Outcome(x, m, signals, cutoff, initial).Ok?
    ensures SetupFor(x, m, cutoff).Ok?
    ensures var u, r := SetupFor(x, m, cutoff).value, Outcome(x, m, signals, cutoff, initial).value;
            && |r.paths| == |r.nav|
            && forall i :: 0 <= i < |r.paths| ==> HasSignal(u, signals, History(initial, Balances(r.nav))[i],
                                                            r.paths[i])
  {
    hide HasSignal, NavFollowsCash, Worst;
    var u, j := ReportedJournal(x, m, signals, cutoff, initial);
    var h := History(initial, Balances(j.nav));
    assert forall i :: 0 <= i < |j.nav| ==> h[i] == CashBefore(initial, j.nav, i);
  }

  /** The signals naming one of the given assets. */
  function CountNaming(signals: seq<Signal>, n: nat, ids: seq<string>): nat
    requires n <= |signals|
  {
    if n == 0 then 0 else CountNaming(signals, n - 1, ids) + if signals[n - 1].assetId in ids then 1 else 0
  }

  lemma {:induction false} CountNamingMore(signals: seq<Signal>, n: nat, ids: seq<string>, id: string)
    requires n <= |signals| && id !in ids
    ensures CountNaming(signals, n, ids + [id]) == CountNaming(signals, n, ids) + CountFor(signals, n, id)
  {
    if n > 0 {
      CountNamingMore(signals, n - 1, ids, id);
    }
  }

  lemma {:induction false} CountsAgree(signals: seq<Signal>, universe: seq<string>, n: nat)
    requires n <= |universe| && forall i, j :: 0 <= i < j < |universe| ==> universe[i] != universe[j]
    ensures CountForAssets(signals, universe, n) == CountNaming(signals, |signals|, universe[..n])
  {
    if n == 0 {
      CountNamingNone(signals, |signals|);
    } else {
      CountsAgree(signals, universe, n - 1);
      assert universe[..n] == universe[..n - 1] + [universe[n - 1]];
      CountNamingMore(signals, |signals|, universe[..n - 1], universe[n - 1]);
    }
  }

  lemma {:induction false} CountNamingNone(signals: seq<Signal>, n: nat)
    requires n <= |signals|
    ensures CountNaming(signals, n, []) == 0
  {
    if n > 0 {
      CountNamingNone(signals, n - 1);
    }
  }

  lemma {:induction false} CountNamingBound(signals: seq<Signal>, n: nat, ids: seq<string>)
    requires n <= |signals|
    ensures CountNaming(signals, n, ids) <= n
  {
    if n > 0 {
      CountNamingBound(signals, n - 1, ids);
    }
  }

  /** Over a universe without repetitions each signal that names a universe asset is executed or skipped, once. */
  lemma SignalsAreExecutedOrSkipped(x: Experiment, m: Market, signals: seq<Signal>, cutoff: Time, initial: real)
    requires ValidExperiment(x) && ValidMarket(m) && Outcome(x, m, signals, cutoff, initial).Ok?
    requires forall i, j :: 0 <= i < j < |x.universe| ==> x.universe[i] != x.universe[j]
    ensures var r := Outcome(x, m, signals, cutoff, initial).value;
            && r.executedTrades + r.skippedSignals == CountNaming(signals, |signals|, x.universe) <= r.numberOfSignals
            && r.executedTrades >= 1
  {
    hide Worst, Accounts;
    var u, j := ReportedJournal(x, m, signals, cutoff, initial);
    CountsAgree(signals, x.universe, |x.universe|);
    assert x.universe[..|x.universe|] == x.universe;
    CountNamingBound(signals, |signals|, x.universe);
  }
}
