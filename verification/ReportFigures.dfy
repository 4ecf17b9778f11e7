/** The figures of a backtest report in terms of its trades, the benchmark closes and the inputs. */
module ReportFigures {
  import opened Prelude
  import opened RealFacts
  import opened Costs
  import opened Execution
  import opened Backtest
  import opened NavHistory
  import opened BacktestRun

  // ---------------------------------------------------------------------------------------------
  // Sums over the trades
  // ---------------------------------------------------------------------------------------------

  type Amount = PositionPath -> real

  // What is summed.

  function Realized(): Amount {
    (p: PositionPath) => p.realizedReturn
  }

  function Paid(): Amount {
    (p: PositionPath) => p.quantity * p.entryPrice
  }

  function Gained(): Amount {
    (p: PositionPath) => p.quantity * p.exitPrice - p.quantity * p.entryPrice
  }

  function Commissions(): Amount {
    (p: PositionPath) => p.costs.commission
  }

  function Spreads(): Amount {
    (p: PositionPath) => p.costs.spread
  }

  function Slippages(): Amount {
    (p: PositionPath) => p.costs.slippage
  }

  function Conversions(): Amount {
    (p: PositionPath) => p.costs.fxConversion
  }

  function Taxes(): Amount {
    (p: PositionPath) => p.costs.tax
  }

  /** The sum of an amount over the trades, the first trade first. */
  function SumOver(paths: seq<PositionPath>, amount: Amount): real {
    if paths == [] then 0.0 else amount(paths[0]) + SumOver(paths[1..], amount)
  }

  lemma {:induction false} SumOverLonger(paths: seq<PositionPath>, amount: Amount)
    requires paths != []
    ensures SumOver(paths, amount) == SumOver(paths[..|paths| - 1], amount) + amount(paths[|paths| - 1])
  {
    var n := |paths| - 1;
    if n > 0 {
      SumOverLonger(paths[1..], amount);
      assert paths[1..][..n - 1] == paths[..n][1..];
    }
  }

  lemma {:induction false} GrossIsSum(paths: seq<PositionPath>)
    ensures GrossReturn(paths) == SumOver(paths, Realized())
  {
    if paths != [] {
      GrossIsSum(paths[..|paths| - 1]);
      SumOverLonger(paths, Realized());
    }
  }

  lemma {:induction false} InvestedIsSum(paths: seq<PositionPath>)
    ensures Invested(paths) == SumOver(paths, Paid())
  {
    if paths != [] {
      InvestedIsSum(paths[..|paths| - 1]);
      SumOverLonger(paths, Paid());
    }
  }

  lemma {:induction false} GainsAreSum(paths: seq<PositionPath>)
    ensures Gains(paths) == SumOver(paths, Gained())
  {
    if paths != [] {
      GainsAreSum(paths[..|paths| - 1]);
      SumOverLonger(paths, Gained());
    }
  }

  /** Each of the five costs is the sum of that cost over the trades. */
  ghost predicate SumsCosts(c: CostBreakdown, paths: seq<PositionPath>) {
    && c.commission == SumOver(paths, Commissions())
    && c.spread == SumOver(paths, Spreads())
    && c.slippage == SumOver(paths, Slippages())
    && c.fxConversion == SumOver(paths, Conversions())
    && c.tax == SumOver(paths, Taxes())
  }

  lemma {:induction false} CostsAreSums(paths: seq<PositionPath>)
    ensures SumsCosts(AllCosts(paths), paths)
    ensures var c := AllCosts(paths);
            TotalCosts(paths) == c.commission + c.spread + c.slippage + c.fxConversion + c.tax
  {
    if paths != [] {
      CostsAreSums(paths[..|paths| - 1]);
      SumOverLonger(paths, Commissions());
      SumOverLonger(paths, Spreads());
      SumOverLonger(paths, Slippages());
      SumOverLonger(paths, Conversions());
      SumOverLonger(paths, Taxes());
    }
  }

  /** The trades that ended above their entry price. */
  function Winners(paths: seq<PositionPath>): set<nat> {
    set i | 0 <= i < |paths| && paths[i].exitPrice > paths[i].entryPrice
  }

  lemma {:induction false} WinsAreWinners(paths: seq<PositionPath>)
    requires forall p :: p in paths ==> (p.realizedReturn > 0.0 <==> p.exitPrice > p.entryPrice)
    ensures Wins(paths) == |Winners(paths)|
  {
    if paths != [] {
      var n := |paths| - 1;
      assert forall p :: p in paths[..n] ==> p in paths;
      WinsAreWinners(paths[..n]);
      assert paths[n] in paths;
      assert Winners(paths) == Winners(paths[..n]) + if paths[n].exitPrice > paths[n].entryPrice then {n} else {};
      assert n !in Winners(paths[..n]);
    }
  }

  // ---------------------------------------------------------------------------------------------
  // The report
  // ---------------------------------------------------------------------------------------------

  /** The benchmark figures, from the first to the last close of the benchmark. */
  ghost predicate AgainstBenchmark(closes: seq<real>, r: BacktestResult) {
    && |closes| >= 2 && closes[0] != 0.0
    && r.benchmarkReturn * closes[0] == closes[|closes| - 1] - closes[0]
    && r.excessReturn == r.netReturn - r.benchmarkReturn
    && forall p :: p in r.paths ==> p.benchmarkRelativeReturn == p.realizedReturn - r.benchmarkReturn
  }

  /** The realised return is the rate at which the price grew. */
  ghost predicate Grows(p: PositionPath) {
    && p.entryPrice > 0.0 && p.realizedReturn * p.entryPrice == p.exitPrice - p.entryPrice
    && (p.realizedReturn > 0.0 <==> p.exitPrice > p.entryPrice)
  }

  /** The figures that sum up the trades. */
  ghost predicate SumsUp(initial: real, r: BacktestResult) {
    && r.grossReturn == SumOver(r.paths, Realized())
    && (forall p :: p in r.paths ==> Grows(p))
    && r.hitRate * |r.paths| as real == |Winners(r.paths)| as real
    && r.turnover * initial == SumOver(r.paths, Paid())
    && SumsCosts(r.costs, r.paths)
    && r.netReturn * initial == SumOver(r.paths, Gained())
         - (r.costs.commission + r.costs.spread + r.costs.slippage + r.costs.fxConversion + r.costs.tax)
  }

  /** What the report is computed by. */
  lemma ReportFields(x: Experiment, m: Market, signals: seq<Signal>, cutoff: Time, initial: real)
    requires ValidExperiment(x) && ValidMarket(m) && Outcome(x, m, signals, cutoff, initial).Ok?
    ensures SetupFor(x, m, cutoff).Ok?
    ensures var u, r := SetupFor(x, m, cutoff).value, Outcome(x, m, signals, cutoff, initial).value;
            && r.benchmarkReturn == u.benchmarkReturn && r.excessReturn == r.netReturn - r.benchmarkReturn
            && r.grossReturn == GrossReturn(r.paths) && r.hitRate == HitRate(r.paths)
            && r.turnover == Invested(r.paths) / initial && r.costs == AllCosts(r.paths)
            && r.numberOfSignals == |signals| && r.executedTrades == |r.paths|
  {
    hide TakeAssets, NavReturns, PartitionsOf, Worst, GrossReturn, HitRate, Invested, AllCosts;
  }

  lemma TradeFields(u: Setup, signals: seq<Signal>, signal: Signal, cash: real, p: PositionPath)
    requires TradedFor(u, signals, signal, cash, p)
    ensures p.entryPrice > 0.0 && p.realizedReturn == Return(p.entryPrice, p.exitPrice)
    ensures p.benchmarkRelativeReturn == p.realizedReturn - u.benchmarkReturn
  {
    hide Return, SoundCosts, EntryFor, HoldingFor, Extremes, Filter, Returns;
  }

  lemma GrowsByReturn(realized: real, entry: real, exit: real)
    requires entry > 0.0 && realized == Return(entry, exit)
    ensures realized * entry == exit - entry
    ensures realized > 0.0 <==> exit > entry
  {
    ReturnGrows(entry, exit);
    ScaledOrder(realized, 0.0, entry);
    hide Return;
  }

  lemma SignalOfTrade(u: Setup, signals: seq<Signal>, cash: real, p: PositionPath) returns (signal: Signal)
    requires HasSignal(u, signals, cash, p)
    ensures TradedFor(u, signals, signal, cash, p)
  {
    hide TradedFor;
    signal :| TradedFor(u, signals, signal, cash, p);
  }

  lemma TradeOfReport(u: Setup, signals: seq<Signal>, cash: real, p: PositionPath)
    requires HasSignal(u, signals, cash, p)
    ensures Grows(p) && p.benchmarkRelativeReturn == p.realizedReturn - u.benchmarkReturn
  {
    hide *;
    var signal := SignalOfTrade(u, signals, cash, p);
    TradeFields(u, signals, signal, cash, p);
    TradeGrows(p);
  }

  lemma TradeGrows(p: PositionPath)
    requires p.entryPrice > 0.0 && p.realizedReturn == Return(p.entryPrice, p.exitPrice)
    ensures Grows(p)
  {
    hide Return;
    GrowsByReturn(p.realizedReturn, p.entryPrice, p.exitPrice);
  }

  lemma TradesOfReport(x: Experiment, m: Market, signals: seq<Signal>, cutoff: Time, initial: real)
    requires ValidExperiment(x) && ValidMarket(m) && Outcome(x, m, signals, cutoff, initial).Ok?
    ensures var r := Outcome(x, m, signals, cutoff, initial).value;
            forall p :: p in r.paths ==>
              Grows(p) && p.benchmarkRelativeReturn == p.realizedReturn - r.benchmarkReturn
  {
    hide *;
    ReportFields(x, m, signals, cutoff, initial);
    ReportedTradesAreSound(x, m, signals, cutoff, initial);
    var u, r := SetupFor(x, m, cutoff).value, Outcome(x, m, signals, cutoff, initial).value;
    forall p | p in r.paths ensures Grows(p) && p.benchmarkRelativeReturn == p.realizedReturn - r.benchmarkReturn {
      var i :| 0 <= i < |r.paths| && r.paths[i] == p;
      TradeOfReport(u, signals, History(initial, Balances(r.nav))[i], p);
    }
  }

  /** A run gets past its first checks just when the experiment is admissible and over, and the benchmark has prices. */
  lemma SetupMeaning(x: Experiment, m: Market, cutoff: Time)
    ensures var r := SetupFor(x, m, cutoff);
            && (r.Ok? <==>
                x.admissible && x.testEnd <= cutoff && |m.benchmarkCloses| >= 2 && m.benchmarkCloses[0] != 0.0)
            && (r == Err(DivisionByZero) <==>
                x.admissible && x.testEnd <= cutoff && |m.benchmarkCloses| >= 2 && m.benchmarkCloses[0] == 0.0)
            && (r.Err? ==> r.error == DivisionByZero || r.error == IntegrityViolation)
            && (r.Ok? ==> && r.value.x == x && r.value.m == m && r.value.cutoff == cutoff
                          && r.value.benchmarkReturn * m.benchmarkCloses[0]
                             == m.benchmarkCloses[|m.benchmarkCloses| - 1] - m.benchmarkCloses[0])
  {
    if |m.benchmarkCloses| >= 2 && m.benchmarkCloses[0] != 0.0 {
      ReturnGrows(m.benchmarkCloses[0], m.benchmarkCloses[|m.benchmarkCloses| - 1]);
    }
    hide Return;
  }

  /** The reported benchmark return spans the closes, and every relative return is measured against it. */
  lemma ReportedBenchmark(x: Experiment, m: Market, signals: seq<Signal>, cutoff: Time, initial: real)
    requires ValidExperiment(x) && ValidMarket(m) && Outcome(x, m, signals, cutoff, initial).Ok?
    ensures AgainstBenchmark(m.benchmarkCloses, Outcome(x, m, signals, cutoff, initial).value)
  {
    ReportFields(x, m, signals, cutoff, initial);
    SetupMeaning(x, m, cutoff);
    hide Outcome, SetupFor, ValidExperiment, ValidMarket;
    TradesOfReport(x, m, signals, cutoff, initial);
  }

  lemma RatesOfReport(r: BacktestResult, initial: real)
    requires r.paths != [] && initial != 0.0
    requires r.hitRate == HitRate(r.paths) && r.turnover == Invested(r.paths) / initial
    ensures r.hitRate * |r.paths| as real == Wins(r.paths) as real && r.turnover * initial == Invested(r.paths)
  {
    hide Wins, Invested;
    QuotientTimes(Invested(r.paths), initial);
    QuotientTimes(Wins(r.paths) as real, |r.paths| as real);
  }

  lemma SumsOfReport(r: BacktestResult, initial: real)
    requires r.grossReturn == GrossReturn(r.paths) && r.costs == AllCosts(r.paths)
    requires r.hitRate * |r.paths| as real == Wins(r.paths) as real && r.turnover * initial == Invested(r.paths)
    requires r.netReturn * initial == Gains(r.paths) - TotalCosts(r.paths)
    requires forall p :: p in r.paths ==> Grows(p)
    ensures SumsUp(initial, r)
  {
    hide SumsCosts, Winners, SumOver, GrossReturn, Invested, Gains, TotalCosts, AllCosts, Wins;
    GrossIsSum(r.paths);
    InvestedIsSum(r.paths);
    GainsAreSum(r.paths);
    CostsAreSums(r.paths);
    WinsAreWinners(r.paths);
  }

  lemma MoneyOfReport(x: Experiment, m: Market, signals: seq<Signal>, cutoff: Time, initial: real)
    requires ValidExperiment(x) && ValidMarket(m) && Outcome(x, m, signals, cutoff, initial).Ok?
    ensures var r := Outcome(x, m, signals, cutoff, initial).value;
            initial > 0.0 && r.paths != [] && r.netReturn * initial == Gains(r.paths) - TotalCosts(r.paths)
  {
    hide *;
    FinalCashIsAccountedFor(x, m, signals, cutoff, initial);
  }

  /** The other figures sum up the reported trades, and what they cost is what separates gross from net. */
  lemma ReportedFigures(x: Experiment, m: Market, signals: seq<Signal>, cutoff: Time, initial: real)
    requires ValidExperiment(x) && ValidMarket(m) && Outcome(x, m, signals, cutoff, initial).Ok?
    ensures SumsUp(initial, Outcome(x, m, signals, cutoff, initial).value)
  {
    hide *;
    ReportFields(x, m, signals, cutoff, initial);
    MoneyOfReport(x, m, signals, cutoff, initial);
    TradesOfReport(x, m, signals, cutoff, initial);
    var r := Outcome(x, m, signals, cutoff, initial).value;
    RatesOfReport(r, initial);
    SumsOfReport(r, initial);
  }

  // ---------------------------------------------------------------------------------------------
  // What a report vouches for
  // ---------------------------------------------------------------------------------------------

  /** Every asset of the universe is there, with the benchmark of the experiment and with bars. */
  ghost predicate AssetsFit(x: Experiment, m: Market) {
    forall id :: id in x.universe ==>
      id in m.assets && m.assets[id].benchmark == x.benchmark && m.assets[id].bars != []
  }

  /** No signal about an asset of the universe was observed after the cutoff. */
  ghost predicate NoLeak(x: Experiment, signals: seq<Signal>, cutoff: Time) {
    forall s :: s in signals && s.assetId in x.universe ==> s.observedAt <= cutoff
  }

  lemma {:induction false} SignalsAreKnown(u: Setup, id: string, asset: Asset, signals: seq<Signal>, n: nat, j: Journal)
    requires ValidSetup(u) && n <= |signals| && TakeSignals(u, id, asset, signals, n, j).Ok?
    ensures forall i :: 0 <= i < n && signals[i].assetId == id ==> signals[i].observedAt <= u.cutoff
  {
    hide TradeFor, ObservationsUsed;
    if n > 0 {
      SignalsAreKnown(u, id, asset, signals, n - 1, j);
    }
  }

  lemma {:induction false} AssetsAreKnown(u: Setup, signals: seq<Signal>, n: nat, j: Journal)
    requires ValidSetup(u) && n <= |u.x.universe| && TakeAssets(u, signals, n, j).Ok?
    ensures forall k :: 0 <= k < n ==> AssetFor(u, u.x.universe[k]).Ok?
    ensures forall k, i :: 0 <= k < n && 0 <= i < |signals| && signals[i].assetId == u.x.universe[k] ==>
              signals[i].observedAt <= u.cutoff
  {
    hide TakeSignals, AssetFor;
    if n > 0 {
      AssetsAreKnown(u, signals, n - 1, j);
      var before := TakeAssets(u, signals, n - 1, j).value;
      var id := u.x.universe[n - 1];
      SignalsAreKnown(u, id, AssetFor(u, id).value, signals, |signals|, before);
    }
  }

  /** A signal raises when it is from the future, when it fires without entry, exit or prices, or when it overdraws. */
  lemma SignalRaisesIff(u: Setup, id: string, asset: Asset, signal: Signal, j: Journal)
    requires ValidSetup(u) && ValidCalendar(u.m.sessions) && ValidExperiment(u.x)
    ensures var trade := TradeFor(u.x, u.m, u.benchmarkReturn, id, asset, signal, j.cash);
            TakeSignal(u, id, asset, signal, j).Err? <==>
            || signal.observedAt > u.cutoff
            || (signal.fires && trade.Err?)
            || (signal.fires && trade.value.Some?
                && var p := trade.value.value;
                   var c := p.costs;
                   j.cash + (p.quantity * p.exitPrice - p.quantity * p.entryPrice)
                   < c.commission + c.spread + c.slippage + c.fxConversion + c.tax)
  {
    hide TradeFor, ObservationsUsed, ValidSetup, ValidExperiment;
  }

  /** Only an admissible experiment that is over by the cutoff, on assets that fit and without a leak, is reported. */
  lemma ReportedInputs(x: Experiment, m: Market, signals: seq<Signal>, cutoff: Time, initial: real)
    requires ValidExperiment(x) && ValidMarket(m) && Outcome(x, m, signals, cutoff, initial).Ok?
    ensures x.admissible && x.testEnd <= cutoff && AssetsFit(x, m) && NoLeak(x, signals, cutoff)
  {
    var u := SetupFor(x, m, cutoff).value;
    hide TakeAssets, NavReturns, PartitionsOf, Worst;
    AssetsAreKnown(u, signals, |x.universe|, Start(initial));
    forall id | id in x.universe
      ensures id in m.assets && m.assets[id].benchmark == x.benchmark && m.assets[id].bars != []
    {
      var k :| 0 <= k < |x.universe| && x.universe[k] == id;
    }
    forall s | s in signals && s.assetId in x.universe ensures s.observedAt <= cutoff {
      var k :| 0 <= k < |x.universe| && x.universe[k] == s.assetId;
      var i :| 0 <= i < |signals| && signals[i] == s;
    }
  }

  /** What the loop takes an asset of the universe to be. */
  lemma AssetMeaning(u: Setup, id: string)
    ensures AssetFor(u, id) == if id in u.m.assets && u.m.assets[id].benchmark == u.x.benchmark
                                  && u.m.assets[id].bars != []
                               then Ok(u.m.assets[id]) else Err(IntegrityViolation)
  {
  }

  // ---------------------------------------------------------------------------------------------
  // Provenance
  // ---------------------------------------------------------------------------------------------

  /** The observation is that of the entry or of one of the first k bars. */
  ghost predicate RestsOn(entry: ExecutionPoint, later: seq<Bar>, k: nat, observation: string)
    requires k <= |later|
  {
    observation == entry.observationId || exists i :: 0 <= i < k && later[i].observationId == observation
  }

  lemma ObservationsOfBars(entry: ExecutionPoint, later: seq<Bar>, k: nat, used: set<string>)
    requires k <= |later| && used == {entry.observationId} + set bar | bar in later[..k] :: bar.observationId
    ensures forall o :: o in used <==> RestsOn(entry, later, k, o)
  {
    forall o ensures o in used <==> RestsOn(entry, later, k, o) {
      if i :| 0 <= i < k && later[i].observationId == o {
        assert later[i] in later[..k];
      }
    }
  }

  lemma UsedIs(x: Experiment, m: Market, id: string, asset: Asset, signal: Signal, k: nat)
    requires ValidCalendar(m.sessions) && ValidExperiment(x)
    requires EntryFor(x.entryRule, m.sessions, signal.observedAt, asset.bars).Ok?
    requires var entry := EntryFor(x.entryRule, m.sessions, signal.observedAt, asset.bars).value;
             var later := Filter(asset.bars, AfterEntry(entry.timestamp));
             HoldingFor(x.exit, entry, later, if id in m.invalidations then m.invalidations[id] else []) == Ok(Some(k))
    ensures var entry := EntryFor(x.entryRule, m.sessions, signal.observedAt, asset.bars).value;
            var later := Filter(asset.bars, AfterEntry(entry.timestamp));
            && k <= |later| && ObservationsUsed(x, m, id, asset, signal)
                               == {entry.observationId} + set bar | bar in later[..k] :: bar.observationId
  {
    hide EntryFor, HoldingFor, Filter;
  }

  /** A trade rests on the bar of its entry and on the bars after it up to the exit, and on nothing else. */
  lemma TradeRestsOn(x: Experiment, m: Market, benchmarkReturn: real, id: string, asset: Asset, signal: Signal,
                     cash: real, p: PositionPath)
    requires ValidExperiment(x) && ValidMarket(m) && ValidCalendar(m.sessions)
    requires TradeFor(x, m, benchmarkReturn, id, asset, signal, cash) == Ok(Some(p))
    ensures EntryFor(x.entryRule, m.sessions, signal.observedAt, asset.bars).Ok?
    ensures var entry := EntryFor(x.entryRule, m.sessions, signal.observedAt, asset.bars).value;
            var later := Filter(asset.bars, AfterEntry(p.entryAt));
            && 1 <= p.holdingPeriod <= |later| && later[p.holdingPeriod - 1].timestamp == p.exitAt
            && forall o :: o in ObservationsUsed(x, m, id, asset, signal) <==> RestsOn(entry, later, p.holdingPeriod, o)
  {
    hide *;
    TradesFollowRules(x, m, benchmarkReturn, id, asset, signal, cash);
    RuleFields(x, m, benchmarkReturn, id, asset, signal, p);
    UsedIs(x, m, id, asset, signal, p.holdingPeriod);
    var entry := EntryFor(x.entryRule, m.sessions, signal.observedAt, asset.bars).value;
    ObservationsOfBars(entry, Filter(asset.bars, AfterEntry(p.entryAt)), p.holdingPeriod,
                       ObservationsUsed(x, m, id, asset, signal));
  }

  lemma RuleFields(x: Experiment, m: Market, benchmarkReturn: real, id: string, asset: Asset, signal: Signal,
                   p: PositionPath)
    requires ValidCalendar(m.sessions) && FollowsRules(x, m, benchmarkReturn, id, asset, signal, p)
    ensures var point := EntryFor(x.entryRule, m.sessions, signal.observedAt, asset.bars);
            var later := Filter(asset.bars, AfterEntry(p.entryAt));
            && point.Ok? && p.entryAt == point.value.timestamp
            && HoldingFor(x.exit, point.value, later, if id in m.invalidations then m.invalidations[id] else [])
               == Ok(Some(p.holdingPeriod))
            && 1 <= p.holdingPeriod <= |later| && p.exitAt == later[p.holdingPeriod - 1].timestamp
  {
    hide EntryFor, HoldingFor, Filter, Return, Returns, Extremes;
  }

  /**
   A run that completes reports just when one of its observations came from a stored partition and trades do not
   outnumber signals.
   */
  lemma ProvenanceIff(x: Experiment, m: Market, signals: seq<Signal>, cutoff: Time, initial: real)
    requires ValidExperiment(x) && ValidMarket(m)
    ensures Outcome(x, m, signals, cutoff, initial).Ok? <==>
            && Completes(x, m, signals, cutoff, initial)
            && (exists o :: && o in Completed(x, m, signals, cutoff, initial).observations && o in m.partitionOf
                            && m.partitionOf[o] in m.partitions)
            && |Completed(x, m, signals, cutoff, initial).paths| <= |signals|
  {
    hide *;
    ReportsIff(x, m, signals, cutoff, initial);
    if Completes(x, m, signals, cutoff, initial) {
      SomePartition(m, Completed(x, m, signals, cutoff, initial).observations);
    }
  }

  lemma SomePartition(m: Market, observations: set<string>)
    ensures PartitionsOf(m, observations) != {} <==>
            exists o :: o in observations && o in m.partitionOf && m.partitionOf[o] in m.partitions
  {
    if o :| o in observations && o in m.partitionOf && m.partitionOf[o] in m.partitions {
      assert m.partitionOf[o] in PartitionsOf(m, observations);
    }
  }
}
