/** Entry and exit selection of the backtest: which session, which bar, which price. */
module Execution {
  import opened Prelude
  import opened Ordering
  import opened RealFacts

  datatype EntryRule = NextOpen | NextClose | NextValidSession
  datatype ExitRule = FixedHoldingPeriod | EventInvalidation | StopLoss | TakeProfit | EndOfWindow

  /** A trading-calendar row; the constructor gives every trading day an open before its close. */
  datatype Session = Session(opensAt: Option<Time>, closesAt: Option<Time>, isTradingDay: bool, observedAt: Time)

  predicate ValidSession(s: Session) {
    s.isTradingDay ==> s.opensAt.Some? && s.closesAt.Some? && s.opensAt.value < s.closesAt.value
  }

  datatype Bar = Bar(timestamp: Time, open: Option<real>, close: Option<real>, effectiveClose: real,
    observationId: string)
  datatype ExecutionPoint = ExecutionPoint(timestamp: Time, price: real, observationId: string)

  function Date(t: Time): int {
    t / MICROS_PER_DAY
  }

  function Return(start: real, end: real): real
    requires start != 0.0
  {
    end / start - 1.0
  }

  // ---------------------------------------------------------------------------------------------
  // Entry
  // ---------------------------------------------------------------------------------------------

  function KnownSession(signal: Time): Session -> bool {
    (s: Session) => s.isTradingDay && s.observedAt <= signal
  }

  /** Sessions by opening time; one without an opening time would sort at the signal. */
  function OpensBefore(signal: Time): (Session, Session) -> bool {
    (a: Session, b: Session) => OpenOr(a, signal) <= OpenOr(b, signal)
  }

  function OpenOr(s: Session, signal: Time): Time {
    if s.opensAt.Some? then s.opensAt.value else signal
  }

  function KnownInOrder(sessions: seq<Session>, signal: Time): seq<Session> {
    SortBy(Filter(sessions, KnownSession(signal)), OpensBefore(signal))
  }

  /** The session still lies ahead of the signal, by its open or by its close. */
  predicate Ahead(rule: EntryRule, s: Session, signal: Time)
    requires ValidSession(s) && s.isTradingDay
  {
    if rule.NextClose? then signal < s.closesAt.value else signal < s.opensAt.value
  }

  /** The first bar on the date of the session's close. */
  function BarForSession(bars: seq<Bar>, closesAt: Time): Option<Bar> {
    if bars == [] then None
    else if Date(bars[0].timestamp) == Date(closesAt) then Some(bars[0])
    else BarForSession(bars[1..], closesAt)
  }

  /** The execution in a given session: its open or its close, at the price of its bar. */
  function ExecuteIn(rule: EntryRule, s: Session, bars: seq<Bar>): Result<ExecutionPoint, Violation>
    requires ValidSession(s) && s.isTradingDay
  {
    var bar := BarForSession(bars, s.closesAt.value);
    if bar.None? then Err(IntegrityViolation)
    else if rule.NextClose? then
      if bar.value.close.None? then Err(IntegrityViolation)
      else Ok(ExecutionPoint(s.closesAt.value, bar.value.close.value, bar.value.observationId))
    else
      if bar.value.open.None? then Err(IntegrityViolation)
      else Ok(ExecutionPoint(s.opensAt.value, bar.value.open.value, bar.value.observationId))
  }

  ghost predicate ValidCalendar(sessions: seq<Session>) {
    forall s :: s in sessions ==> ValidSession(s)
  }

  /** s is known at the signal, lies ahead of it, and no such session opens earlier. */
  ghost predicate NextSession(rule: EntryRule, sessions: seq<Session>, signal: Time, s: Session)
    requires ValidCalendar(sessions)
  {
    && s in sessions && KnownSession(signal)(s) && Ahead(rule, s, signal)
    && forall other :: other in sessions && KnownSession(signal)(other) && Ahead(rule, other, signal)
                       ==> s.opensAt.value <= other.opensAt.value
  }

  ghost predicate NoSessionAhead(rule: EntryRule, sessions: seq<Session>, signal: Time)
    requires ValidCalendar(sessions)
  {
    forall s :: s in sessions && KnownSession(signal)(s) ==> !Ahead(rule, s, signal)
  }

  /** The recursive reading of the entry loop. */
  function FirstExecution(rule: EntryRule, ordered: seq<Session>, signal: Time, bars: seq<Bar>)
    : Result<ExecutionPoint, Violation>
    requires forall s :: s in ordered ==> ValidSession(s) && s.isTradingDay
  {
    if ordered == [] then Err(IntegrityViolation)
    else if !Ahead(rule, ordered[0], signal) then FirstExecution(rule, ordered[1..], signal, bars)
    else ExecuteIn(rule, ordered[0], bars)
  }

  lemma KnownSessionsAreTradingDays(sessions: seq<Session>, signal: Time)
    requires ValidCalendar(sessions)
    ensures forall s :: s in KnownInOrder(sessions, signal) <==> s in sessions && KnownSession(signal)(s)
    ensures forall s :: s in KnownInOrder(sessions, signal) ==> ValidSession(s) && s.isTradingDay
    ensures Sorted(KnownInOrder(sessions, signal), OpensBefore(signal))
  {
    var known := Filter(sessions, KnownSession(signal));
    SortByMembers(known, OpensBefore(signal));
    SortBySorted(known, OpensBefore(signal));
  }

  function EntryFor(rule: EntryRule, sessions: seq<Session>, signal: Time, bars: seq<Bar>)
    : Result<ExecutionPoint, Violation>
    requires ValidCalendar(sessions)
  {
    KnownSessionsAreTradingDays(sessions, signal);
    FirstExecution(rule, KnownInOrder(sessions, signal), signal, bars)
  }

  /** `select_execution_point`. */
  method SelectExecutionPoint(rule: EntryRule, sessions: seq<Session>, signal: Time, bars: seq<Bar>)
    returns (r: Result<ExecutionPoint, Violation>)
    requires ValidCalendar(sessions)
    ensures r == EntryFor(rule, sessions, signal, bars)
  {
    KnownSessionsAreTradingDays(sessions, signal);
    var ordered := KnownInOrder(sessions, signal);
    assert ordered[0..] == ordered;
    for i := 0 to |ordered|
      invariant FirstExecution(rule, ordered[i..], signal, bars) == FirstExecution(rule, ordered, signal, bars)
    {
      var session := ordered[i];
      assert ordered[i..][1..] == ordered[i + 1..];
      if rule.NextOpen? || rule.NextValidSession? {
        if session.opensAt.value <= signal {
          continue;
        }
        var bar := BarForSession(bars, session.closesAt.value);
        if bar.None? || bar.value.open.None? {
          return Err(IntegrityViolation);
        }
        return Ok(ExecutionPoint(session.opensAt.value, bar.value.open.value, bar.value.observationId));
      }
      if session.closesAt.value <= signal {
        continue;
      }
      var bar := BarForSession(bars, session.closesAt.value);
      if bar.None? || bar.value.close.None? {
        return Err(IntegrityViolation);
      }
      return Ok(ExecutionPoint(session.closesAt.value, bar.value.close.value, bar.value.observationId));
    }
    return Err(IntegrityViolation);
  }

  /** A point is taken in the next known session only, and only then; otherwise the call raises. */
  lemma EntryIsNextSession(rule: EntryRule, sessions: seq<Session>, signal: Time, bars: seq<Bar>)
    requires ValidCalendar(sessions)
    ensures NoSessionAhead(rule, sessions, signal) ==> EntryFor(rule, sessions, signal, bars) == Err(IntegrityViolation)
    ensures !NoSessionAhead(rule, sessions, signal) ==>
              exists s :: NextSession(rule, sessions, signal, s)
                  && EntryFor(rule, sessions, signal, bars) == ExecuteIn(rule, s, bars)
  {
    KnownSessionsAreTradingDays(sessions, signal);
    var ordered := KnownInOrder(sessions, signal);
    FirstAhead(rule, ordered, signal, bars);
    if s :| && s in ordered && Ahead(rule, s, signal)
            && FirstExecution(rule, ordered, signal, bars) == ExecuteIn(rule, s, bars)
            && forall other :: other in ordered && Ahead(rule, other, signal) ==>
                 OpenOr(s, signal) <= OpenOr(other, signal)
    {
      assert NextSession(rule, sessions, signal, s);
    }
  }

  lemma {:induction false} FirstAhead(rule: EntryRule, ordered: seq<Session>, signal: Time, bars: seq<Bar>)
    requires forall s :: s in ordered ==> ValidSession(s) && s.isTradingDay
    requires Sorted(ordered, OpensBefore(signal))
    ensures (forall s :: s in ordered ==> !Ahead(rule, s, signal)) ==>
              FirstExecution(rule, ordered, signal, bars) == Err(IntegrityViolation)
    ensures (exists s :: s in ordered && Ahead(rule, s, signal)) ==>
              exists s :: s in ordered && Ahead(rule, s, signal)
                  && FirstExecution(rule, ordered, signal, bars) == ExecuteIn(rule, s, bars)
                && forall other :: other in ordered && Ahead(rule, other, signal) ==>
                    OpenOr(s, signal) <= OpenOr(other, signal)
  {
    if ordered != [] {
      var first := ordered[0];
      assert forall other :: other in ordered ==> other == first || other in ordered[1..];
      if Ahead(rule, first, signal) {
        forall other | other in ordered ensures OpenOr(first, signal) <= OpenOr(other, signal) {
          var i :| 0 <= i < |ordered| && ordered[i] == other;
          assert i > 0 ==> OpensBefore(signal)(ordered[0], ordered[i]);
        }
      } else {
        FirstAhead(rule, ordered[1..], signal, bars);
      }
    }
  }

  /** No look-ahead: the entry lies strictly after the signal, in a session known at the signal. */
  lemma EntryIsCausal(rule: EntryRule, sessions: seq<Session>, signal: Time, bars: seq<Bar>)
    requires ValidCalendar(sessions) && EntryFor(rule, sessions, signal, bars).Ok?
    ensures signal < EntryFor(rule, sessions, signal, bars).value.timestamp
    ensures exists s :: NextSession(rule, sessions, signal, s) && s.observedAt <= signal
              && EntryFor(rule, sessions, signal, bars).value.timestamp
                  == (if rule.NextClose? then s.closesAt.value else s.opensAt.value)
  {
    EntryIsNextSession(rule, sessions, signal, bars);
    var s :| NextSession(rule, sessions, signal, s)
        && EntryFor(rule, sessions, signal, bars) == ExecuteIn(rule, s, bars);
  }

  // ---------------------------------------------------------------------------------------------
  // Exit
  // ---------------------------------------------------------------------------------------------

  /** The exit parameters of an experiment. */
  datatype ExitPlan = ExitPlan(rule: ExitRule, holdingPeriod: nat, stopLoss: Option<real>, takeProfit: Option<real>)

  /** Whether the bar triggers a stop or a target; the other rules have no trigger. */
  predicate Triggers(rule: ExitRule, entryPrice: real, threshold: real, bar: Bar)
    requires entryPrice != 0.0
  {
    match rule
    case StopLoss => Return(entryPrice, bar.effectiveClose) <= -threshold
    case TakeProfit => Return(entryPrice, bar.effectiveClose) >= threshold
    case _ => false
  }

  /** The number of bars held up to and including the first trigger within the first n bars. */
  function FirstTrigger(rule: ExitRule, entryPrice: real, threshold: real, later: seq<Bar>, n: nat): (k: Option<nat>)
    requires entryPrice != 0.0 && n <= |later|
    ensures k.Some? ==> 1 <= k.value <= n && Triggers(rule, entryPrice, threshold, later[k.value - 1])
                        && forall i :: 0 <= i < k.value - 1 ==> !Triggers(rule, entryPrice, threshold, later[i])
    ensures k.None? ==> forall i :: 0 <= i < n ==> !Triggers(rule, entryPrice, threshold, later[i])
  {
    if n == 0 then None
    else
      var earlier := FirstTrigger(rule, entryPrice, threshold, later, n - 1);
      if earlier.Some? then earlier
      else if Triggers(rule, entryPrice, threshold, later[n - 1]) then Some(n)
      else None
  }

  /** The number of bars held up to and including the first bar at or after the given instant. */
  function FirstAtOrAfter(later: seq<Bar>, n: nat, instant: Time): (k: Option<nat>)
    requires n <= |later|
    ensures k.Some? ==> 1 <= k.value <= n && instant <= later[k.value - 1].timestamp
                        && forall i :: 0 <= i < k.value - 1 ==> later[i].timestamp < instant
    ensures k.None? ==> forall i :: 0 <= i < n ==> later[i].timestamp < instant
  {
    if n == 0 then None
    else
      var earlier := FirstAtOrAfter(later, n - 1, instant);
      if earlier.Some? then earlier
      else if instant <= later[n - 1].timestamp then Some(n)
      else None
  }

  /** The earliest invalidation strictly after the entry. */
  function EarliestAfter(times: seq<Time>, entry: Time): (t: Option<Time>)
    ensures t.Some? ==> t.value in times && entry < t.value
    ensures forall x :: x in times && entry < x ==> t.Some? && t.value <= x
  {
    if times == [] then None
    else
      var rest := EarliestAfter(times[1..], entry);
      assert forall x :: x in times ==> x == times[0] || x in times[1..];
      if entry < times[0] && (rest.None? || times[0] < rest.value) then Some(times[0]) else rest
  }

  function AfterHoldingPeriod(plan: ExitPlan, later: seq<Bar>): Option<nat> {
    if |later| < plan.holdingPeriod then None else Some(plan.holdingPeriod)
  }

  /** How many of the later bars the position is held for, if it can be closed at all. */
  function HoldingFor(plan: ExitPlan, entry: ExecutionPoint, later: seq<Bar>, invalidations: seq<Time>)
    : (r: Result<Option<nat>, Violation>)
    ensures plan.holdingPeriod >= 1 && r.Ok? && r.value.Some? ==> 1 <= r.value.value <= |later|
  {
    if later == [] then Ok(None)
    else match plan.rule
      case EndOfWindow => Ok(Some(|later|))
      case EventInvalidation =>
        var visible := EarliestAfter(invalidations, entry.timestamp);
        if visible.None? then Err(IntegrityViolation) else Ok(FirstAtOrAfter(later, |later|, visible.value))
      case FixedHoldingPeriod => Ok(AfterHoldingPeriod(plan, later))
      case _ =>
        var threshold := if plan.rule.StopLoss? then plan.stopLoss else plan.takeProfit;
        if threshold.None? || threshold.value <= 0.0 then Err(IntegrityViolation)
        else if entry.price == 0.0 && plan.holdingPeriod > 0 then Err(DivisionByZero)
        else if entry.price == 0.0 then Ok(AfterHoldingPeriod(plan, later))
        else
          var n := if plan.holdingPeriod <= |later| then plan.holdingPeriod else |later|;
          var hit := FirstTrigger(plan.rule, entry.price, threshold.value, later, n);
          Ok(if hit.Some? then hit else AfterHoldingPeriod(plan, later))
  }

  /** The search of `_select_exit` for the first bar that can react to an invalidation. */
  method FindAtOrAfter(later: seq<Bar>, instant: Time) returns (k: Option<nat>)
    ensures k == FirstAtOrAfter(later, |later|, instant)
  {
    for i := 0 to |later|
      invariant FirstAtOrAfter(later, i, instant).None?
    {
      if later[i].timestamp >= instant {
        FirstAtOrAfterStable(later, i + 1, |later|, instant);
        return Some(i + 1);
      }
    }
    return None;
  }

  /** The search of `_select_exit` for the first stop or target among the first n bars. */
  method FindTrigger(rule: ExitRule, entryPrice: real, threshold: real, later: seq<Bar>, n: nat)
      returns (k: Option<nat>)
    requires entryPrice != 0.0 && n <= |later|
    ensures k == FirstTrigger(rule, entryPrice, threshold, later, n)
  {
    for i := 0 to n
      invariant FirstTrigger(rule, entryPrice, threshold, later, i).None?
    {
      var realized := Return(entryPrice, later[i].effectiveClose);
      if (rule.StopLoss? && realized <= -threshold) || (rule.TakeProfit? && realized >= threshold) {
        FirstTriggerStable(rule, entryPrice, threshold, later, i + 1, n);
        return Some(i + 1);
      }
    }
    return None;
  }

  /** `_select_exit`: the bar to sell at and the number of bars held. */
  method SelectExit(plan: ExitPlan, entry: ExecutionPoint, later: seq<Bar>, invalidations: seq<Time>)
    returns (r: Result<Option<(Bar, nat)>, Violation>)
    requires plan.holdingPeriod >= 1
    ensures match HoldingFor(plan, entry, later, invalidations)
            case Err(e) => r == Err(e)
            case Ok(None) => r == Ok(None)
            case Ok(Some(k)) => 1 <= k <= |later| && r == Ok(Some((later[k - 1], k)))
  {
    hide Triggers;
    if later == [] {
      return Ok(None);
    }
    if plan.rule.EndOfWindow? {
      return Ok(Some((later[|later| - 1], |later|)));
    }
    if plan.rule.EventInvalidation? {
      var visible := EarliestAfter(invalidations, entry.timestamp);
      if visible.None? {
        return Err(IntegrityViolation);
      }
      var k := FindAtOrAfter(later, visible.value);
      return Ok(if k.None? then None else Some((later[k.value - 1], k.value)));
    }
    if plan.rule.StopLoss? || plan.rule.TakeProfit? {
      var threshold := if plan.rule.StopLoss? then plan.stopLoss else plan.takeProfit;
      if threshold.None? || threshold.value <= 0.0 {
        return Err(IntegrityViolation);
      }
      if entry.price == 0.0 {
        return Err(DivisionByZero);
      }
      var n := if plan.holdingPeriod <= |later| then plan.holdingPeriod else |later|;
      var k := FindTrigger(plan.rule, entry.price, threshold.value, later, n);
      if k.Some? {
        return Ok(Some((later[k.value - 1], k.value)));
      }
    }
    if |later| < plan.holdingPeriod {
      return Ok(None);
    }
    return Ok(Some((later[plan.holdingPeriod - 1], plan.holdingPeriod)));
  }

  lemma {:induction false} FirstAtOrAfterStable(later: seq<Bar>, m: nat, n: nat, instant: Time)
    requires m <= n <= |later| && FirstAtOrAfter(later, m, instant).Some?
    ensures FirstAtOrAfter(later, n, instant) == FirstAtOrAfter(later, m, instant)
  {
    if m < n {
      FirstAtOrAfterStable(later, m, n - 1, instant);
    }
  }

  lemma {:induction false} FirstTriggerStable(rule: ExitRule, entryPrice: real, threshold: real, later: seq<Bar>,
                                              m: nat, n: nat)
    requires entryPrice != 0.0 && m <= n <= |later| && FirstTrigger(rule, entryPrice, threshold, later, m).Some?
    ensures FirstTrigger(rule, entryPrice, threshold, later, n) == FirstTrigger(rule, entryPrice, threshold, later, m)
  {
    if m < n {
      FirstTriggerStable(rule, entryPrice, threshold, later, m, n - 1);
    }
  }

  /**
   What the number k of bars held means, for an experiment with a holding period: never more bars
   than there are; a stop or target exits at the first trigger within the holding period and else
   at its end; an invalidation exits at the first bar that could react to it.
   */
  lemma HoldingMeaning(plan: ExitPlan, entry: ExecutionPoint, later: seq<Bar>, invalidations: seq<Time>, k: nat)
    requires plan.holdingPeriod >= 1 && entry.price != 0.0
    ensures HoldingFor(plan, entry, later, invalidations) == Ok(Some(k)) <==>
            && 1 <= k <= |later|
            && match plan.rule
               case EndOfWindow => k == |later|
               case FixedHoldingPeriod => k == plan.holdingPeriod
               case EventInvalidation =>
                 (exists t :: FirstInvalidation(invalidations, entry.timestamp, t) && t <= later[k - 1].timestamp
                              && forall i :: 0 <= i < k - 1 ==> later[i].timestamp < t)
               case StopLoss =>
                 && plan.stopLoss.Some? && plan.stopLoss.value > 0.0
                 && ExitsAt(plan, entry.price, plan.stopLoss.value, later, k)
               case TakeProfit =>
                 && plan.takeProfit.Some? && plan.takeProfit.value > 0.0
                 && ExitsAt(plan, entry.price, plan.takeProfit.value, later, k)
  {
    if later != [] && plan.rule.EventInvalidation? {
      var visible := EarliestAfter(invalidations, entry.timestamp);
      if visible.Some? {
        assert FirstInvalidation(invalidations, entry.timestamp, visible.value);
      }
    }
  }

  predicate FirstInvalidation(times: seq<Time>, entry: Time, t: Time) {
    t in times && entry < t && forall x :: x in times && entry < x ==> t <= x
  }

  /** k is the first trigger within the holding period, or the holding period when there is none. */
  predicate ExitsAt(plan: ExitPlan, price: real, threshold: real, later: seq<Bar>, k: nat)
    requires price != 0.0 && 1 <= k <= |later|
  {
    && k <= plan.holdingPeriod
    && (forall i :: 0 <= i < k - 1 ==> !Triggers(plan.rule, price, threshold, later[i]))
    && (Triggers(plan.rule, price, threshold, later[k - 1]) || k == plan.holdingPeriod)
  }

  // ---------------------------------------------------------------------------------------------
  // Entry and exit in terms of the rows
  // ---------------------------------------------------------------------------------------------

  /** The rate of return by which the start grows to the end. */
  lemma ReturnGrows(start: real, end: real)
    requires start != 0.0
    ensures Return(start, end) * start == end - start
  {
    QuotientTimes(end, start);
    var q := end / start;
    assert (q - 1.0) * start == q * start - start;
  }

  /** A stop is hit when the price has fallen by its share of the entry price, a target when it has risen by it. */
  lemma TriggerIsPrice(rule: ExitRule, entryPrice: real, threshold: real, bar: Bar)
    requires entryPrice > 0.0
    ensures Triggers(rule, entryPrice, threshold, bar) <==>
            || (rule == StopLoss && bar.effectiveClose - entryPrice <= -threshold * entryPrice)
            || (rule == TakeProfit && bar.effectiveClose - entryPrice >= threshold * entryPrice)
  {
    var r := Return(entryPrice, bar.effectiveClose);
    ReturnGrows(entryPrice, bar.effectiveClose);
    ScaledOrder(r, -threshold, entryPrice);
    ScaledOrder(threshold, r, entryPrice);
    hide Return;
  }

  lemma ScaledOrder(a: real, b: real, c: real)
    requires c > 0.0
    ensures a <= b <==> a * c <= b * c
  {
    if a <= b {
      ProductMonotone(a, b, c);
    } else {
      ProductPositive(a - b, c);
      assert Product(a - b, c) == a * c - b * c;
    }
  }

  /** Both instants lie on the same day. */
  ghost predicate SameDay(a: Time, b: Time) {
    exists day: int :: day * 86_400_000_000 <= a < (day + 1) * 86_400_000_000
                       && day * 86_400_000_000 <= b < (day + 1) * 86_400_000_000
  }

  lemma DatesAgree(a: Time, b: Time)
    ensures Date(a) == Date(b) <==> SameDay(a, b)
  {
    if Date(a) == Date(b) {
      var day := a / 86_400_000_000;
      assert day * 86_400_000_000 <= a < (day + 1) * 86_400_000_000;
      assert day * 86_400_000_000 <= b < (day + 1) * 86_400_000_000;
    }
  }

  /** The bar at position k is the first on the day of the instant. */
  ghost predicate FirstOnDay(bars: seq<Bar>, instant: Time, k: nat) {
    k < |bars| && SameDay(bars[k].timestamp, instant) && forall i :: 0 <= i < k ==> !SameDay(bars[i].timestamp, instant)
  }

  lemma {:induction false} SessionBarIsFirst(bars: seq<Bar>, closesAt: Time)
    ensures match BarForSession(bars, closesAt)
            case Some(bar) => exists k: nat :: FirstOnDay(bars, closesAt, k) && bars[k] == bar
            case None => forall bar :: bar in bars ==> !SameDay(bar.timestamp, closesAt)
  {
    hide Date, SameDay;
    if bars != [] {
      DatesAgree(bars[0].timestamp, closesAt);
      SessionBarIsFirst(bars[1..], closesAt);
      var later := BarForSession(bars[1..], closesAt);
      if SameDay(bars[0].timestamp, closesAt) {
        assert FirstOnDay(bars, closesAt, 0);
      } else if later.Some? {
        var k: nat :| FirstOnDay(bars[1..], closesAt, k) && bars[1..][k] == later.value;
        assert FirstOnDay(bars, closesAt, k + 1) && bars[k + 1] == later.value;
      } else {
        assert forall bar :: bar in bars ==> bar == bars[0] || bar in bars[1..];
      }
    }
  }

  /** A trading day that was known at the signal and opens, or for the close rule closes, after it. */
  ghost predicate Offers(rule: EntryRule, s: Session, signal: Time) {
    && s.isTradingDay && s.observedAt <= signal && s.opensAt.Some? && s.closesAt.Some?
    && if rule == NextClose then signal < s.closesAt.value else signal < s.opensAt.value
  }

  /** Of the sessions on offer none opens earlier. */
  ghost predicate OffersFirst(rule: EntryRule, sessions: seq<Session>, signal: Time, s: Session) {
    && s in sessions && Offers(rule, s, signal)
    && forall other :: other in sessions && Offers(rule, other, signal) ==> s.opensAt.value <= other.opensAt.value
  }

  /** The time and the price at which a session is entered on a bar. */
  ghost predicate Enters(rule: EntryRule, s: Session, bar: Bar, at: Time, price: real) {
    if rule == NextClose then s.closesAt == Some(at) && bar.close == Some(price)
    else s.opensAt == Some(at) && bar.open == Some(price)
  }

  lemma FirstOnDayUnique(bars: seq<Bar>, instant: Time, j: nat, k: nat)
    requires FirstOnDay(bars, instant, j) && FirstOnDay(bars, instant, k)
    ensures j == k
  {
    hide SameDay;
  }

  /** The execution in a session: at the time and the price of the first bar on its day, if there is such a price. */
  ghost predicate Executed(rule: EntryRule, s: Session, bars: seq<Bar>, r: Result<ExecutionPoint, Violation>)
    requires s.closesAt.Some?
  {
    match r
    case Ok(p) =>
      exists k: nat :: && FirstOnDay(bars, s.closesAt.value, k) && p.observationId == bars[k].observationId
                       && Enters(rule, s, bars[k], p.timestamp, p.price)
    case Err(e) =>
      && e == IntegrityViolation
      && forall k: nat, at, price :: FirstOnDay(bars, s.closesAt.value, k) ==> !Enters(rule, s, bars[k], at, price)
  }

  lemma ExecutionMeaning(rule: EntryRule, s: Session, bars: seq<Bar>)
    requires ValidSession(s) && s.isTradingDay
    ensures Executed(rule, s, bars, ExecuteIn(rule, s, bars))
  {
    var closesAt := s.closesAt.value;
    SessionBarIsFirst(bars, closesAt);
    var bar := BarForSession(bars, closesAt);
    hide FirstOnDay, SameDay, BarForSession;
    if bar.None? {
      forall k: nat ensures !FirstOnDay(bars, closesAt, k) {
        if FirstOnDay(bars, closesAt, k) {
          FirstIsOnDay(bars, closesAt, k);
        }
      }
    } else {
      var j: nat :| FirstOnDay(bars, closesAt, j) && bars[j] == bar.value;
      forall k: nat | FirstOnDay(bars, closesAt, k) ensures k == j {
        FirstOnDayUnique(bars, closesAt, j, k);
      }
    }
  }

  lemma FirstIsOnDay(bars: seq<Bar>, instant: Time, k: nat)
    requires FirstOnDay(bars, instant, k)
    ensures k < |bars| && SameDay(bars[k].timestamp, instant)
  {
    hide SameDay;
  }

  /** The next session is the first on offer. */
  lemma NextIsOnOffer(rule: EntryRule, sessions: seq<Session>, signal: Time)
    requires ValidCalendar(sessions)
    ensures forall s :: s in sessions ==>
                        (KnownSession(signal)(s) && Ahead(rule, s, signal) <==> Offers(rule, s, signal))
    ensures forall s :: NextSession(rule, sessions, signal, s) <==> OffersFirst(rule, sessions, signal, s)
    ensures NoSessionAhead(rule, sessions, signal) <==> forall s :: s in sessions ==> !Offers(rule, s, signal)
  {
    forall s | s in sessions
      ensures KnownSession(signal)(s) && Ahead(rule, s, signal) <==> Offers(rule, s, signal)
    {
    }
    hide Ahead, Offers;
  }

  /**
   The entry in terms of the rows: the first session on offer, and the first bar on the day it closes, at the open or,
   under the close rule, at the close of both. The call raises just when there is no such session or no such price.
   */
  lemma EntryMeaning(rule: EntryRule, sessions: seq<Session>, signal: Time, bars: seq<Bar>)
    requires ValidCalendar(sessions)
    ensures var r := EntryFor(rule, sessions, signal, bars);
            if forall s :: s in sessions ==> !Offers(rule, s, signal) then r == Err(IntegrityViolation)
            else exists s :: && OffersFirst(rule, sessions, signal, s) && s.closesAt.Some?
                             && Executed(rule, s, bars, r)
  {
    NextIsOnOffer(rule, sessions, signal);
    EntryIsNextSession(rule, sessions, signal, bars);
    hide Offers, Executed, EntryFor, ExecuteIn;
    if exists s :: s in sessions && Offers(rule, s, signal) {
      var s :| NextSession(rule, sessions, signal, s)
          && EntryFor(rule, sessions, signal, bars) == ExecuteIn(rule, s, bars);
      ExecutionMeaning(rule, s, bars);
    }
  }

  /** Whether and why a position is not closed: the other answers of the exit rules. */
  lemma HoldingOtherwise(plan: ExitPlan, entry: ExecutionPoint, later: seq<Bar>, invalidations: seq<Time>)
    requires plan.holdingPeriod >= 1
    ensures var r := HoldingFor(plan, entry, later, invalidations);
            && (r.Err? <==> later != [] && (NeverInvalidated(plan, entry, invalidations) || StopFails(plan, entry)))
            && (r.Err? ==> r.error == if StopFails(plan, entry) && UsableStop(plan) then DivisionByZero
                                      else IntegrityViolation)
            && (r == Ok(None) <==>
                || later == []
                || (plan.rule == FixedHoldingPeriod && |later| < plan.holdingPeriod)
                || (plan.rule == EventInvalidation && InvalidatedTooLate(entry, later, invalidations))
                || (UsableStop(plan) && entry.price != 0.0 && NeverHit(plan, entry.price, later)))
  {
    if plan.rule.EventInvalidation? {
      var visible := EarliestAfter(invalidations, entry.timestamp);
      if visible.Some? {
        assert FirstInvalidation(invalidations, entry.timestamp, visible.value);
        var k := FirstAtOrAfter(later, |later|, visible.value);
        assert k.Some? ==> later[k.value - 1] in later;
      }
    } else if UsableStop(plan) && entry.price != 0.0 && |later| < plan.holdingPeriod {
      var threshold := if plan.rule == StopLoss then plan.stopLoss.value else plan.takeProfit.value;
      hide Triggers;
      var k := FirstTrigger(plan.rule, entry.price, threshold, later, |later|);
      assert k.Some? ==> later[k.value - 1] in later;
    }
  }

  /** A stop or a target with a positive threshold. */
  ghost predicate UsableStop(plan: ExitPlan) {
    || (plan.rule == StopLoss && plan.stopLoss.Some? && plan.stopLoss.value > 0.0)
    || (plan.rule == TakeProfit && plan.takeProfit.Some? && plan.takeProfit.value > 0.0)
  }

  /** A stop or a target without a positive threshold, or on an entry for nothing. */
  ghost predicate StopFails(plan: ExitPlan, entry: ExecutionPoint) {
    (plan.rule == StopLoss || plan.rule == TakeProfit) && (!UsableStop(plan) || entry.price == 0.0)
  }

  ghost predicate NeverInvalidated(plan: ExitPlan, entry: ExecutionPoint, invalidations: seq<Time>) {
    plan.rule == EventInvalidation && forall t :: t in invalidations ==> t <= entry.timestamp
  }

  /** No bar comes at or after the first invalidation. */
  ghost predicate InvalidatedTooLate(entry: ExecutionPoint, later: seq<Bar>, invalidations: seq<Time>) {
    exists t :: FirstInvalidation(invalidations, entry.timestamp, t) && forall bar :: bar in later ==> bar.timestamp < t
  }

  /** The bars end before the holding period does, and none of them hits the stop or the target. */
  ghost predicate NeverHit(plan: ExitPlan, price: real, later: seq<Bar>)
    requires UsableStop(plan) && price != 0.0
  {
    |later| < plan.holdingPeriod
    && forall bar :: bar in later ==>
         !Triggers(plan.rule, price, if plan.rule == StopLoss then plan.stopLoss.value else plan.takeProfit.value, bar)
  }
}
