/** The backtest engine: signals become trades, trades move cash, cash becomes the NAV history. */
module Backtest {
  import opened Prelude
  import opened RealFacts
  import opened Costs
  import opened Execution

  /** What the engine reads of one asset of the universe. */
  datatype Asset = Asset(benchmark: string, requiresFx: bool, bars: seq<Bar>)

  /** A signal, and whether the experiment's signal definition holds of it. */
  datatype Signal = Signal(assetId: string, observedAt: Time, fires: bool)

  datatype Experiment = Experiment(
    admissible: bool,
    universe: seq<string>,
    benchmark: string,
    testEnd: Time,
    entryRule: EntryRule,
    exit: ExitPlan,
    costModel: CostModel
  )

  /**
   The market as of the run: visible assets, the benchmark's closes, the calendar, the invalidations,
   the partition that each stored observation came from, and the stored partitions.
   */
  datatype Market = Market(
    assets: map<string, Asset>,
    benchmarkCloses: seq<real>,
    sessions: seq<Session>,
    invalidations: map<string, seq<Time>>,
    partitionOf: map<string, string>,
    partitions: set<string>
  )

  ghost predicate ValidExperiment(x: Experiment) {
    ValidCostModel(x.costModel) && x.universe != [] && x.exit.holdingPeriod >= 1
  }

  /** Bars arrive in time order. */
  ghost predicate ValidMarket(m: Market) {
    && ValidCalendar(m.sessions)
    && forall id :: id in m.assets ==>
         forall i, j :: 0 <= i < j < |m.assets[id].bars| ==>
             m.assets[id].bars[i].timestamp <= m.assets[id].bars[j].timestamp
  }

  /**
   What the market data store can hand to a run: bars up to the end of the test window, under identifiers
   that no other bar has, sessions observed by the cutoff, and partitions named by a digest of 64 digits.
   */
  ghost predicate Receivable(x: Experiment, m: Market, cutoff: Time) {
    && x.testEnd <= cutoff
    && (forall s :: s in m.sessions ==> s.observedAt <= cutoff)
    && (forall id, bar :: id in m.assets && bar in m.assets[id].bars ==> bar.timestamp <= x.testEnd)
    && (forall id, i, other, j :: IsBar(m, id, i) && IsBar(m, other, j) && (id != other || i != j) ==>
          m.assets[id].bars[i].observationId != m.assets[other].bars[j].observationId)
    && (forall digest :: digest in m.partitions ==> |digest| == 64)
  }

  predicate IsBar(m: Market, id: string, i: int) {
    id in m.assets && 0 <= i < |m.assets[id].bars|
  }

  datatype PositionPath = PositionPath(
    assetId: string,
    entryAt: Time,
    exitAt: Time,
    quantity: real,
    entryPrice: real,
    exitPrice: real,
    maximumFavorableExcursion: real,
    maximumAdverseExcursion: real,
    holdingPeriod: nat,
    realizedReturn: real,
    benchmarkRelativeReturn: real,
    costs: CostBreakdown
  ) {
    function EntryValue(): real {
      Value(quantity, entryPrice)
    }

    function ExitValue(): real {
      Value(quantity, exitPrice)
    }

    function Gain(): real {
      ExitValue() - EntryValue()
    }
  }

  function SumCosts(a: CostBreakdown, b: CostBreakdown): CostBreakdown {
    CostBreakdown(a.commission + b.commission, a.spread + b.spread, a.slippage + b.slippage,
                  a.fxConversion + b.fxConversion, a.tax + b.tax)
  }

  function Highest(xs: seq<real>): (r: real)
    requires xs != []
    ensures r in xs && forall x :: x in xs ==> x <= r
  {
    if |xs| == 1 then xs[0] else
      assert xs == xs[..|xs| - 1] + [xs[|xs| - 1]];
      Max(Highest(xs[..|xs| - 1]), xs[|xs| - 1])
  }

  function Lowest(xs: seq<real>): (r: real)
    requires xs != []
    ensures r in xs && forall x :: x in xs ==> r <= x
  {
    if |xs| == 1 then xs[0] else
      assert xs == xs[..|xs| - 1] + [xs[|xs| - 1]];
      Min(Lowest(xs[..|xs| - 1]), xs[|xs| - 1])
  }

  function AfterEntry(entry: Time): Bar -> bool {
    (bar: Bar) => entry < bar.timestamp
  }

  function Returns(price: real, bars: seq<Bar>): (r: seq<real>)
    requires price != 0.0
    ensures |r| == |bars| && forall i :: 0 <= i < |bars| ==> r[i] == Return(price, bars[i].effectiveClose)
  {
    seq(|bars|, i requires 0 <= i < |bars| => Return(price, bars[i].effectiveClose))
  }

  // ---------------------------------------------------------------------------------------------
  // One signal
  // ---------------------------------------------------------------------------------------------

  /** A fired signal, given the cash at hand: a trade, a skip, or an error. */
  function TradeFor(x: Experiment, m: Market, benchmarkReturn: real, id: string, asset: Asset, signal: Signal,
                    cash: real)
    : Result<Option<PositionPath>, Violation>
    requires ValidCalendar(m.sessions) && ValidExperiment(x)
  {
    var point := EntryFor(x.entryRule, m.sessions, signal.observedAt, asset.bars);
    if point.Err? then Err(point.error) else
    var entry := point.value;
    var later := Filter(asset.bars, AfterEntry(entry.timestamp));
    var held := HoldingFor(x.exit, entry, later, if id in m.invalidations then m.invalidations[id] else []);
    if held.Err? then Err(held.error)
    else if held.value.None? then Ok(None)
    else
      var k := held.value.value;
      var exitBar := later[k - 1];
      if entry.price <= 0.0 || exitBar.effectiveClose <= 0.0 then Err(IntegrityViolation)
      else
        var order := PlanOrder(cash / |x.universe| as real, entry.price, x.costModel, asset.requiresFx);
        Ok(if order.None? then None else Some(Closed(x, benchmarkReturn, id, asset, entry, later[..k], order.value)))
  }

  /** The observations a trade rests on: that of its entry and those of the bars held. */
  function ObservationsUsed(x: Experiment, m: Market, id: string, asset: Asset, signal: Signal): set<string>
    requires ValidCalendar(m.sessions) && ValidExperiment(x)
  {
    var point := EntryFor(x.entryRule, m.sessions, signal.observedAt, asset.bars);
    if point.Err? then {} else
    var later := Filter(asset.bars, AfterEntry(point.value.timestamp));
    var held := HoldingFor(x.exit, point.value, later, if id in m.invalidations then m.invalidations[id] else []);
    if held.Err? || held.value.None? then {}
    else {point.value.observationId} + set bar | bar in later[..held.value.value] :: bar.observationId
  }

  /** The partitions behind a set of observations; an observation that is not stored has none. */
  function PartitionsOf(m: Market, observations: set<string>): (partitions: set<string>)
    ensures observations == {} ==> partitions == {}
    ensures partitions <= m.partitions
  {
    set id | id in observations && id in m.partitionOf && m.partitionOf[id] in m.partitions :: m.partitionOf[id]
  }

  /** The record of a position bought by the order and sold at the last of the bars held. */
  function Closed(x: Experiment, benchmarkReturn: real, id: string, asset: Asset, entry: ExecutionPoint,
                  bars: seq<Bar>, order: Order)
    : PositionPath
    requires bars != [] && entry.price != 0.0
  {
    var exitBar := bars[|bars| - 1];
    var proceeds := Value(order.quantity, exitBar.effectiveClose);
    var exitCost := TransactionCosts(proceeds, x.costModel, asset.requiresFx, proceeds - order.notional);
    var changes := Returns(entry.price, bars);
    var realized := Return(entry.price, exitBar.effectiveClose);
    PositionPath(id, entry.timestamp, exitBar.timestamp, order.quantity, entry.price, exitBar.effectiveClose,
                 Highest(changes), Lowest(changes), |bars|, realized, realized - benchmarkReturn,
                 SumCosts(order.entryCost, exitCost))
  }

  /** Everything a recorded trade promises about the signal it came from. */
  ghost predicate SoundTrade(x: Experiment, m: Market, id: string, asset: Asset, signal: Signal, cash: real,
                             p: PositionPath) {
    && p.assetId == id
    && signal.observedAt < p.entryAt < p.exitAt
    && (exists bar :: bar in asset.bars && bar.timestamp == p.exitAt && bar.effectiveClose == p.exitPrice)
    && p.quantity > 0.0 && p.entryPrice > 0.0 && p.exitPrice > 0.0
    && (!x.costModel.fractionalShares ==> p.quantity == p.quantity.Floor as real)
    && p.holdingPeriod >= 1
    && p.maximumAdverseExcursion <= p.realizedReturn <= p.maximumFavorableExcursion
    && p.realizedReturn == Return(p.entryPrice, p.exitPrice)
    && SoundCosts(x, asset, cash, p)
  }

  /**
   The order is the one planned for the asset's share of the cash and stayed within it; costs are those of its two
   sides.
   */
  ghost predicate SoundCosts(x: Experiment, asset: Asset, cash: real, p: PositionPath) {
    var entryCost := TransactionCosts(p.EntryValue(), x.costModel, asset.requiresFx, 0.0);
    var exitCost := TransactionCosts(p.ExitValue(), x.costModel, asset.requiresFx, p.Gain());
    && x.universe != []
    && p.EntryValue() + entryCost.Total() <= cash / |x.universe| as real
    && PlannedQuantity(x, asset, cash, p.entryPrice) == Some(p.quantity)
    && p.costs.commission == entryCost.commission + exitCost.commission
    && p.costs.spread == entryCost.spread + exitCost.spread
    && p.costs.slippage == entryCost.slippage + exitCost.slippage
    && p.costs.fxConversion == entryCost.fxConversion + exitCost.fxConversion
    && p.costs.tax == entryCost.tax + exitCost.tax
  }

  /** Every trade is causal, positive, within its share of the cash and charged the costs of both sides. */
  lemma TradesAreSound(x: Experiment, m: Market, benchmarkReturn: real, id: string, asset: Asset, signal: Signal,
                       cash: real)
    requires ValidExperiment(x) && ValidMarket(m)
    ensures var r := TradeFor(x, m, benchmarkReturn, id, asset, signal, cash);
            r.Ok? && r.value.Some? ==> SoundTrade(x, m, id, asset, signal, cash, r.value.value)
  {
    hide PlanOrder, TransactionCosts, Return, Closed, SoundCosts, EntryFor, HoldingFor;
    var r := TradeFor(x, m, benchmarkReturn, id, asset, signal, cash);
    if r.Ok? && r.value.Some? {
      var entry := EntryFor(x.entryRule, m.sessions, signal.observedAt, asset.bars).value;
      var later := Filter(asset.bars, AfterEntry(entry.timestamp));
      EntryIsCausal(x.entryRule, m.sessions, signal.observedAt, asset.bars);
      var k := HoldingFor(x.exit, entry, later, if id in m.invalidations then m.invalidations[id] else []).value.value;
      var order := PlanOrder(cash / |x.universe| as real, entry.price, x.costModel, asset.requiresFx);
      assert later[k - 1] in later && later[k - 1] == later[..k][k - 1];
      ClosedIsSound(x, benchmarkReturn, id, asset, entry, later[..k], order.value, cash);
    }
  }

  /** How much is bought at a price with the asset's share of the cash, if anything. */
  function PlannedQuantity(x: Experiment, asset: Asset, cash: real, price: real): Option<real>
    requires x.universe != []
  {
    var order := PlanOrder(cash / |x.universe| as real, price, x.costModel, asset.requiresFx);
    if order.None? then None else Some(order.value.quantity)
  }

  lemma ClosedIsSound(x: Experiment, benchmarkReturn: real, id: string, asset: Asset, entry: ExecutionPoint,
                      bars: seq<Bar>, order: Order, cash: real)
    requires ValidExperiment(x) && bars != [] && entry.price > 0.0
    requires PlanOrder(cash / |x.universe| as real, entry.price, x.costModel, asset.requiresFx) == Some(order)
    ensures var p := Closed(x, benchmarkReturn, id, asset, entry, bars, order);
            && p.assetId == id && p.entryAt == entry.timestamp && p.exitAt == bars[|bars| - 1].timestamp
            && p.entryPrice == entry.price && p.exitPrice == bars[|bars| - 1].effectiveClose
            && p.quantity > 0.0 && p.holdingPeriod == |bars|
            && (!x.costModel.fractionalShares ==> p.quantity == p.quantity.Floor as real)
            && p.maximumAdverseExcursion <= p.realizedReturn <= p.maximumFavorableExcursion
            && p.realizedReturn == Return(p.entryPrice, p.exitPrice)
            && SoundCosts(x, asset, cash, p)
  {
    hide PlanOrder, TransactionCosts, Return, Value;
    PlanOrderIff(cash / |x.universe| as real, entry.price, x.costModel, asset.requiresFx);
    var changes := Returns(entry.price, bars);
    assert changes[|bars| - 1] in changes;
  }

  /**
   Where a recorded trade got in and out: at the entry of its signal, and at the last of the bars that its exit
   rule holds.
   */
  ghost predicate FollowsRules(x: Experiment, m: Market, benchmarkReturn: real, id: string, asset: Asset,
                               signal: Signal, p: PositionPath)
    requires ValidCalendar(m.sessions)
  {
    var point := EntryFor(x.entryRule, m.sessions, signal.observedAt, asset.bars);
    point.Ok? && p.entryAt == point.value.timestamp && p.entryPrice == point.value.price != 0.0
    && var later := Filter(asset.bars, AfterEntry(p.entryAt));
       && HoldingFor(x.exit, point.value, later, if id in m.invalidations then m.invalidations[id] else [])
           == Ok(Some(p.holdingPeriod))
       && 1 <= p.holdingPeriod <= |later|
       && p.exitAt == later[p.holdingPeriod - 1].timestamp && p.exitPrice == later[p.holdingPeriod - 1].effectiveClose
       && Extremes(Returns(p.entryPrice, later[..p.holdingPeriod]), p.maximumAdverseExcursion,
                   p.maximumFavorableExcursion)
       && p.benchmarkRelativeReturn == p.realizedReturn - benchmarkReturn
  }

  /** low and high are the smallest and the largest of the values. */
  predicate Extremes(values: seq<real>, low: real, high: real) {
    low in values && high in values && forall v :: v in values ==> low <= v <= high
  }

  /** Every trade gets in and out where the entry and exit rules say. */
  lemma TradesFollowRules(x: Experiment, m: Market, benchmarkReturn: real, id: string, asset: Asset, signal: Signal,
                          cash: real)
    requires ValidExperiment(x) && ValidMarket(m)
    ensures var r := TradeFor(x, m, benchmarkReturn, id, asset, signal, cash);
            r.Ok? && r.value.Some? ==> FollowsRules(x, m, benchmarkReturn, id, asset, signal, r.value.value)
  {
    hide PlanOrder, TransactionCosts, Return, EntryFor, HoldingFor, Value;
    var r := TradeFor(x, m, benchmarkReturn, id, asset, signal, cash);
    if r.Ok? && r.value.Some? {
      var entry := EntryFor(x.entryRule, m.sessions, signal.observedAt, asset.bars).value;
      var later := Filter(asset.bars, AfterEntry(entry.timestamp));
      var k := HoldingFor(x.exit, entry, later, if id in m.invalidations then m.invalidations[id] else []).value.value;
      assert |later[..k]| == k && later[..k][k - 1] == later[k - 1];
    }
  }

  /** A trade rests on at least the observation of its entry. */
  lemma TradesUseObservations(x: Experiment, m: Market, benchmarkReturn: real, id: string, asset: Asset,
                              signal: Signal, cash: real)
    requires ValidExperiment(x) && ValidMarket(m)
    ensures var r := TradeFor(x, m, benchmarkReturn, id, asset, signal, cash);
            r.Ok? && r.value.Some? ==> ObservationsUsed(x, m, id, asset, signal) != {}
  {
    hide PlanOrder, EntryFor, HoldingFor, Closed;
    assert EntryFor(x.entryRule, m.sessions, signal.observedAt, asset.bars).Ok? ==>
             EntryFor(x.entryRule, m.sessions, signal.observedAt, asset.bars).value.observationId
             in {EntryFor(x.entryRule, m.sessions, signal.observedAt, asset.bars).value.observationId};
  }

  function BarIds(bars: seq<Bar>): set<string> {
    set bar | bar in bars :: bar.observationId
  }

  /** All of them are observations of the asset. */
  lemma ObservationsAreTheAssets(x: Experiment, m: Market, id: string, asset: Asset, signal: Signal)
    requires ValidExperiment(x) && ValidMarket(m)
    ensures ObservationsUsed(x, m, id, asset, signal) <= BarIds(asset.bars)
  {
    var point := EntryFor(x.entryRule, m.sessions, signal.observedAt, asset.bars);
    if point.Ok? {
      EntryIsNextSession(x.entryRule, m.sessions, signal.observedAt, asset.bars);
      var s :| NextSession(x.entryRule, m.sessions, signal.observedAt, s)
          && point == ExecuteIn(x.entryRule, s, asset.bars);
      ExecutionBar(x.entryRule, s, asset.bars);
    }
    hide EntryFor, HoldingFor, ExecuteIn;
  }

  lemma ExecutionBar(rule: EntryRule, s: Session, bars: seq<Bar>)
    requires ValidSession(s) && s.isTradingDay && ExecuteIn(rule, s, bars).Ok?
    ensures ExecuteIn(rule, s, bars).value.observationId in BarIds(bars)
  {
    SessionBarIsABar(bars, s.closesAt.value);
  }

  lemma {:induction false} SessionBarIsABar(bars: seq<Bar>, closesAt: Time)
    ensures BarForSession(bars, closesAt).Some? ==> BarForSession(bars, closesAt).value in bars
  {
    if bars != [] {
      SessionBarIsABar(bars[1..], closesAt);
    }
  }

  lemma NoAllocation(cash: real, n: real)
    requires cash <= 0.0 && n > 0.0
    ensures cash / n <= 0.0
  {
    QuotientMonotone(cash, 0.0, n);
  }

  /** Without cash no order is placed. */
  lemma NoCashNoTrade(x: Experiment, m: Market, benchmarkReturn: real, id: string, asset: Asset, signal: Signal,
                      cash: real)
    requires ValidExperiment(x) && ValidMarket(m) && cash <= 0.0
    ensures var r := TradeFor(x, m, benchmarkReturn, id, asset, signal, cash); r.Ok? ==> r.value.None?
  {
    hide PlanOrder, Closed, EntryFor, HoldingFor;
    var allocation := cash / |x.universe| as real;
    NoAllocation(cash, |x.universe| as real);
    var entry := EntryFor(x.entryRule, m.sessions, signal.observedAt, asset.bars);
    if entry.Ok? && entry.value.price > 0.0 {
      PlanOrderIff(allocation, entry.value.price, x.costModel, asset.requiresFx);
    }
  }
}
