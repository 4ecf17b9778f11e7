/** A source's reputation in a domain, from its claims and their resolutions as known at a cutoff. */
module Reputation {
  import opened Prelude
  import opened Ordering
  import opened ClaimRevisions
  import opened Fusion
  import RealFacts

  datatype Uncertainty = InsufficientSample | Deterministic(n: nat)

  const ENOUGH_CLAIMS := 5

  /** The label of a sample. */
  function UncertaintyOf(sample: nat): Uncertainty {
    if sample < ENOUGH_CLAIMS then InsufficientSample else Deterministic(sample)
  }

  datatype Snapshot = Snapshot(
    source: string,
    domain: string,
    windowStart: Time,
    cutoff: Time,
    sample: nat,
    confirmed: nat,
    contradicted: nat,
    unresolved: nat,
    precision: real,
    medianLead: Option<int>,
    contradictionRate: real,
    copyRate: real,
    originalRate: real,
    uncertainty: Uncertainty
  )

  /** What the constructor of a snapshot checks. */
  predicate ValidSnapshot(s: Snapshot) {
    && s.domain in DOMAINS && s.windowStart <= s.cutoff
    && 0.0 <= s.precision <= 1.0 && 0.0 <= s.contradictionRate <= 1.0
    && 0.0 <= s.copyRate <= 1.0 && 0.0 <= s.originalRate <= 1.0
  }

  // ---------------------------------------------------------------------------------------------
  // The claims in the window and what became of them
  // ---------------------------------------------------------------------------------------------

  function InWindow(source: string, domain: string, start: Time, cutoff: Time): Claim -> bool {
    (c: Claim) => c.source == source && c.domain == domain && start <= c.firstObservedAt <= cutoff
  }

  function ClaimsInWindow(s: Store, source: string, domain: string, start: Time, cutoff: Time): seq<Claim> {
    Filter(ClaimsVisibleAt(s.claims, cutoff), InWindow(source, domain, start, cutoff))
  }

  /** The outcome that counts: that of the latest resolution, or none yet. */
  function Verdict(s: Store, c: Claim, cutoff: Time): Outcome {
    match LatestResolution(s, c.id, cutoff)
    case None => Unresolved
    case Some(r) => r.outcome
  }

  /** Division by a second, rounded toward zero. */
  function Truncate(a: int, b: int): int
    requires b > 0
  {
    if a >= 0 then a / b else -((-a) / b)
  }

  /** Whole seconds from first observation to the latest resolution. */
  function Lead(s: Store, c: Claim, cutoff: Time): int
    requires LatestResolution(s, c.id, cutoff).Some?
  {
    Truncate(LatestResolution(s, c.id, cutoff).value.resolvedAt - c.firstObservedAt, MICROS_PER_SECOND)
  }

  predicate CopyEdge(e: Lineage, id: string, cutoff: Time) {
    e.observedAt <= cutoff && e.target == id && (e.relationship == CopiedFrom || e.relationship == ForwardedFrom)
  }

  predicate CopyAmong(edges: seq<Lineage>, id: string) {
    exists e :: e in edges && (e.relationship == CopiedFrom || e.relationship == ForwardedFrom) && e.target == id
  }

  predicate IsCopy(s: Store, c: Claim, cutoff: Time) {
    exists e :: e in s.lineages && CopyEdge(e, c.id, cutoff)
  }

  /** How many of the first n claims ended with one of the outcomes. */
  function CountVerdicts(s: Store, cs: seq<Claim>, n: nat, cutoff: Time, outcomes: set<Outcome>): (count: nat)
    requires n <= |cs|
  {
    if n == 0 then 0
    else CountVerdicts(s, cs, n - 1, cutoff, outcomes) + (if Verdict(s, cs[n - 1], cutoff) in outcomes then 1 else 0)
  }

  function CountCopies(s: Store, cs: seq<Claim>, n: nat, cutoff: Time): (count: nat)
    requires n <= |cs|
    ensures count <= n
  {
    if n == 0 then 0
    else CountCopies(s, cs, n - 1, cutoff) + (if IsCopy(s, cs[n - 1], cutoff) then 1 else 0)
  }

  const CONFIRMING := {Confirmed, PartiallyConfirmed}

  /** The leads of the confirmed claims among the first n. */
  function Leads(s: Store, cs: seq<Claim>, n: nat, cutoff: Time): (leads: seq<int>)
    requires n <= |cs|
  {
    if n == 0 then []
    else if Verdict(s, cs[n - 1], cutoff) in CONFIRMING then Leads(s, cs, n - 1, cutoff) + [Lead(s, cs[n - 1], cutoff)]
    else Leads(s, cs, n - 1, cutoff)
  }

  function AtMost(): (int, int) -> bool {
    (a: int, b: int) => a <= b
  }

  /** `int(median(...))`: the middle value, or the truncated mean of the two middle values. */
  function Median(xs: seq<int>): int
    requires xs != []
  {
    var sorted := SortBy(xs, AtMost());
    var mid := |sorted| / 2;
    if |sorted| % 2 == 1 then sorted[mid] else Truncate(sorted[mid - 1] + sorted[mid], 2)
  }

  function Rate(part: nat, whole: nat): real {
    if whole == 0 then 0.0 else part as real / whole as real
  }

  /** The counters of the loop after n claims. */
  datatype Counters = Counters(confirmed: nat, contradicted: nat, unresolved: nat, copies: nat, leads: seq<int>)

  function Counted(s: Store, cs: seq<Claim>, n: nat, cutoff: Time): Counters
    requires n <= |cs|
  {
    Counters(CountVerdicts(s, cs, n, cutoff, CONFIRMING), CountVerdicts(s, cs, n, cutoff, {Contradicted}),
             CountVerdicts(s, cs, n, cutoff, {Unresolved}), CountCopies(s, cs, n, cutoff), Leads(s, cs, n, cutoff))
  }

  function Add(k: Counters, verdict: Outcome, lead: int, copy: bool): Counters {
    Counters(k.confirmed + (if verdict.Confirmed? || verdict.PartiallyConfirmed? then 1 else 0),
             k.contradicted + (if verdict.Contradicted? then 1 else 0),
             k.unresolved + (if verdict.Unresolved? then 1 else 0),
             k.copies + (if copy then 1 else 0),
             if verdict.Confirmed? || verdict.PartiallyConfirmed? then k.leads + [lead] else k.leads)
  }

  /** The snapshot that the counters give. */
  function Summary(source: string, domain: string, start: Time, cutoff: Time, n: nat, k: Counters): Snapshot {
    Snapshot(source, domain, start, cutoff, n, k.confirmed, k.contradicted, k.unresolved,
             Rate(k.confirmed, k.confirmed + k.contradicted), if k.leads == [] then None else Some(Median(k.leads)),
             Rate(k.contradicted, k.confirmed + k.contradicted), Rate(k.copies, n), 1.0 - Rate(k.copies, n),
                 UncertaintyOf(n))
  }

  function ReputationOf(s: Store, source: string, domain: string, cutoff: Time, window: int): Snapshot {
    var cs := ClaimsInWindow(s, source, domain, cutoff - window, cutoff);
    Summary(source, domain, cutoff - window, cutoff, |cs|, Counted(s, cs, |cs|, cutoff))
  }

  lemma CopyAmongVisible(s: Store, c: Claim, cutoff: Time)
    ensures IsCopy(s, c, cutoff) <==>
              CopyAmong(Filter(s.lineages, LineageVisible(cutoff)), c.id)
  {
    var visible := Filter(s.lineages, LineageVisible(cutoff));
    assert forall e :: e in s.lineages && CopyEdge(e, c.id, cutoff) ==> e in visible;
    if e :| e in visible && (e.relationship == CopiedFrom || e.relationship == ForwardedFrom) && e.target == c.id {
      assert CopyEdge(e, c.id, cutoff);
    }
  }

  lemma NothingCounted(s: Store, cs: seq<Claim>, cutoff: Time)
    ensures Counted(s, cs, 0, cutoff) == Counters(0, 0, 0, 0, [])
  {
  }

  lemma OneMoreVerdict(s: Store, cs: seq<Claim>, i: nat, cutoff: Time, outcomes: set<Outcome>)
    requires i < |cs|
    ensures CountVerdicts(s, cs, i + 1, cutoff, outcomes)
            == CountVerdicts(s, cs, i, cutoff, outcomes) + (if Verdict(s, cs[i], cutoff) in outcomes then 1 else 0)
  {
    hide Verdict;
  }

  /** One more claim counts by its latest resolution and by the visible lineage. */
  lemma OneMoreClaim(s: Store, cs: seq<Claim>, i: nat, cutoff: Time, lead: int)
    requires i < |cs|
    requires Verdict(s, cs[i], cutoff) in CONFIRMING ==> lead == Lead(s, cs[i], cutoff)
    ensures Counted(s, cs, i + 1, cutoff)
            == Add(Counted(s, cs, i, cutoff), Verdict(s, cs[i], cutoff), lead,
                   CopyAmong(Filter(s.lineages, LineageVisible(cutoff)), cs[i].id))
  {
    CopyAmongVisible(s, cs[i], cutoff);
    OneMoreVerdict(s, cs, i, cutoff, CONFIRMING);
    OneMoreVerdict(s, cs, i, cutoff, {Contradicted});
    OneMoreVerdict(s, cs, i, cutoff, {Unresolved});
    hide CountVerdicts, LatestResolution, Filter, Truncate, IsCopy, CopyAmong;
  }

  /** The loop of `calculate_reputation`. */
  method CountClaims(s: Store, claims: seq<Claim>, cutoff: Time) returns (k: Counters)
    ensures k == Counted(s, claims, |claims|, cutoff)
  {
    var confirmed, contradicted, unresolved, copies := 0, 0, 0, 0;
    var leads: seq<int> := [];
    NothingCounted(s, claims, cutoff);
    hide Counted, ResolutionsVisibleAt, Filter, CopyAmong, Truncate;
    for i := 0 to |claims|
      invariant Counters(confirmed, contradicted, unresolved, copies, leads) == Counted(s, claims, i, cutoff)
    {
      var claim := claims[i];
      var resolutions := ResolutionsVisibleAt(s, claim.id, cutoff);
      ghost var lead := 0;
      if resolutions == [] || resolutions[|resolutions| - 1].outcome == Unresolved {
        unresolved := unresolved + 1;
      } else {
        var latest := resolutions[|resolutions| - 1];
        if latest.outcome == Confirmed || latest.outcome == PartiallyConfirmed {
          lead := Truncate(latest.resolvedAt - claim.firstObservedAt, MICROS_PER_SECOND);
          confirmed := confirmed + 1;
          leads := leads + [Truncate(latest.resolvedAt - claim.firstObservedAt, MICROS_PER_SECOND)];
        } else if latest.outcome == Contradicted {
          contradicted := contradicted + 1;
        }
      }
      var visible := Filter(s.lineages, LineageVisible(cutoff));
      if CopyAmong(visible, claim.id) {
        copies := copies + 1;
      }
      OneMoreClaim(s, claims, i, cutoff, lead);
    }
    k := Counters(confirmed, contradicted, unresolved, copies, leads);
  }

  /** `calculate_reputation`. */
  method CalculateReputation(s: Store, source: string, domain: string, cutoff: Time, window: int)
      returns (r: Result<Snapshot, Violation>)
    ensures r.Ok? <==> window > 0 && domain in DOMAINS
    ensures r.Ok? ==> r.value == ReputationOf(s, source, domain, cutoff, window)
  {
    hide ClaimsInWindow, Counted, Median;
    if window <= 0 {
      return Err(ValidationError);
    }
    var start := cutoff - window;
    var claims := ClaimsInWindow(s, source, domain, start, cutoff);
    var k := CountClaims(s, claims, cutoff);
    if domain !in DOMAINS {
      return Err(ValidationError);
    }
    var resolved, sample := k.confirmed + k.contradicted, |claims|;
    var precision := if resolved == 0 then 0.0 else k.confirmed as real / resolved as real;
    var contradictionRate := if resolved == 0 then 0.0 else k.contradicted as real / resolved as real;
    var copyRate := if sample == 0 then 0.0 else k.copies as real / sample as real;
    var medianLead := if k.leads == [] then None else Some(Median(k.leads));
    r := Ok(Snapshot(source, domain, start, cutoff, sample, k.confirmed, k.contradicted, k.unresolved,
                     precision, medianLead, contradictionRate, copyRate, 1.0 - copyRate,
                     if sample < 5 then InsufficientSample else Deterministic(sample)));
  }

  // ---------------------------------------------------------------------------------------------
  // Accounting
  // ---------------------------------------------------------------------------------------------

  /** Every claim in the window has exactly one verdict. */
  lemma {:induction false} VerdictsPartition(s: Store, cs: seq<Claim>, n: nat, cutoff: Time)
    requires n <= |cs|
    ensures CountVerdicts(s, cs, n, cutoff, CONFIRMING) + CountVerdicts(s, cs, n, cutoff, {Contradicted})
            + CountVerdicts(s, cs, n, cutoff, {Unresolved}) + CountVerdicts(s, cs, n, cutoff, {Expired}) == n
  {
    hide Verdict;
    if n != 0 {
      VerdictsPartition(s, cs, n - 1, cutoff);
      var v := Verdict(s, cs[n - 1], cutoff);
      assert v.Confirmed? || v.PartiallyConfirmed? || v.Contradicted? || v.Unresolved? || v.Expired?;
    }
  }

  lemma RateBounds(part: nat, whole: nat)
    requires part <= whole
    ensures 0.0 <= Rate(part, whole) <= 1.0
  {
  }

  lemma RatesAddUp(a: nat, b: nat)
    requires a + b > 0
    ensures Rate(a, a + b) + Rate(b, a + b) == 1.0
  {
    var x, y, t := a as real, b as real, (a + b) as real;
    RealFacts.QuotientTimes(x, t);
    RealFacts.QuotientCancel(1.0 - x / t, t);
    assert (1.0 - x / t) * t == y;
  }

  lemma SummaryIsValid(source: string, domain: string, start: Time, cutoff: Time, n: nat, k: Counters)
    requires domain in DOMAINS && start <= cutoff && k.copies <= n && |k.leads| == k.confirmed
    ensures
      var r := Summary(source, domain, start, cutoff, n, k);
      && ValidSnapshot(r)
      && r.sample == n && r.confirmed == k.confirmed && r.contradicted == k.contradicted && r.unresolved == k.unresolved
      && (r.precision + r.contradictionRate == if r.confirmed + r.contradicted > 0 then 1.0 else 0.0)
      && r.copyRate + r.originalRate == 1.0
      && (r.medianLead.Some? <==> r.confirmed > 0)
      && r.uncertainty == if r.sample < 5 then InsufficientSample else Deterministic(r.sample)
  {
    RateBounds(k.copies, n);
    RateBounds(k.confirmed, k.confirmed + k.contradicted);
    RateBounds(k.contradicted, k.confirmed + k.contradicted);
    SharesAddUp(k.confirmed, k.contradicted);
    hide Rate, Median;
  }

  lemma CountersAddUp(s: Store, cs: seq<Claim>, cutoff: Time)
    ensures
      var k := Counted(s, cs, |cs|, cutoff);
      && k.copies <= |cs| && |k.leads| == k.confirmed
      && k.confirmed + k.contradicted + k.unresolved + CountVerdicts(s, cs, |cs|, cutoff, {Expired}) == |cs|
  {
    VerdictsPartition(s, cs, |cs|, cutoff);
    LeadsCount(s, cs, |cs|, cutoff);
    hide CountVerdicts, CountCopies, Leads;
  }

  lemma ReputationIsSummary(s: Store, source: string, domain: string, cutoff: Time, window: int)
    ensures var cs := ClaimsInWindow(s, source, domain, cutoff - window, cutoff);
            ReputationOf(s, source, domain, cutoff, window)
                == Summary(source, domain, cutoff - window, cutoff, |cs|, Counted(s, cs, |cs|, cutoff))
  {
    hide ClaimsInWindow, Summary, Counted;
  }

  /**
   The counters account for the sample, the rates for the resolved claims, and no check of the constructor can
   fail.
   */
  lemma ReputationAddsUp(s: Store, source: string, domain: string, cutoff: Time, window: int)
    requires window > 0 && domain in DOMAINS
    ensures
      var r := ReputationOf(s, source, domain, cutoff, window);
      var cs := ClaimsInWindow(s, source, domain, cutoff - window, cutoff);
      && ValidSnapshot(r)
      && r.confirmed + r.contradicted + r.unresolved + CountVerdicts(s, cs, |cs|, cutoff, {Expired}) == r.sample
      && (r.precision + r.contradictionRate == if r.confirmed + r.contradicted > 0 then 1.0 else 0.0)
      && r.copyRate + r.originalRate == 1.0
      && (r.medianLead.Some? <==> r.confirmed > 0)
      && r.uncertainty == if r.sample < 5 then InsufficientSample else Deterministic(r.sample)
  {
    hide *;
    var cs := ClaimsInWindow(s, source, domain, cutoff - window, cutoff);
    ReputationIsSummary(s, source, domain, cutoff, window);
    CountersAddUp(s, cs, cutoff);
    SummaryIsValid(source, domain, cutoff - window, cutoff, |cs|, Counted(s, cs, |cs|, cutoff));
  }

  lemma SharesAddUp(a: nat, b: nat)
    ensures Rate(a, a + b) + Rate(b, a + b) == if a + b > 0 then 1.0 else 0.0
  {
    if a + b > 0 {
      RatesAddUp(a, b);
    }
  }

  lemma {:induction false} LeadsCount(s: Store, cs: seq<Claim>, n: nat, cutoff: Time)
    requires n <= |cs|
    ensures |Leads(s, cs, n, cutoff)| == CountVerdicts(s, cs, n, cutoff, CONFIRMING)
  {
    if n != 0 {
      LeadsCount(s, cs, n - 1, cutoff);
    }
  }

  // ---------------------------------------------------------------------------------------------
  // Lead times
  // ---------------------------------------------------------------------------------------------

  lemma MedianBetween(xs: seq<int>, lo: int, hi: int)
    requires xs != [] && forall x :: x in xs ==> lo <= x <= hi
    ensures lo <= Median(xs) <= hi
  {
    var sorted := SortBy(xs, AtMost());
    SortByMembers(xs, AtMost());
    var mid := |sorted| / 2;
    assert sorted[mid] in sorted;
    assert |sorted| % 2 == 0 ==> sorted[mid - 1] in sorted;
  }

  lemma LeadBounds(s: Store, c: Claim, cutoff: Time, window: int)
    requires Sound(s) && window > 0 && c in s.claims && cutoff - window <= c.firstObservedAt
    ensures LatestResolution(s, c.id, cutoff).Some? ==> 0 <= Lead(s, c, cutoff) <= window / MICROS_PER_SECOND
  {
    LatestResolutionIsNewest(s, c.id, cutoff);
    if LatestResolution(s, c.id, cutoff).Some? {
      var latest := LatestResolution(s, c.id, cutoff).value;
      assert SoundResolution(s, latest) && About(s, latest, c);
      TruncateBetween(latest.resolvedAt - c.firstObservedAt, window);
    }
  }

  /**
   A resolution that a sound store holds never precedes its claim, so no lead is negative or longer than the
   window.
   */
  lemma {:induction false} LeadsWithinWindow(s: Store, cs: seq<Claim>, n: nat, cutoff: Time, window: int)
    requires Sound(s) && n <= |cs| && window > 0
    requires forall c :: c in cs ==> c in s.claims && cutoff - window <= c.firstObservedAt
    ensures forall lead :: lead in Leads(s, cs, n, cutoff) ==> 0 <= lead <= window / MICROS_PER_SECOND
  {
    hide Sound, Lead, LatestResolution;
    if n != 0 {
      LeadsWithinWindow(s, cs, n - 1, cutoff, window);
      LeadBounds(s, cs[n - 1], cutoff, window);
    }
  }

  lemma TruncateBetween(lead: int, window: int)
    requires 0 <= lead <= window
    ensures 0 <= Truncate(lead, MICROS_PER_SECOND) <= window / MICROS_PER_SECOND
  {
  }

  /** The median lead of a sound store is between zero and the window. */
  lemma MedianLeadWithinWindow(s: Store, source: string, domain: string, cutoff: Time, window: int)
    requires Sound(s) && window > 0
    ensures
      var r := ReputationOf(s, source, domain, cutoff, window);
      r.medianLead.Some? ==> 0 <= r.medianLead.value <= window / MICROS_PER_SECOND
  {
    var cs := ClaimsInWindow(s, source, domain, cutoff - window, cutoff);
    LeadsWithinWindow(s, cs, |cs|, cutoff, window);
    var leads := Leads(s, cs, |cs|, cutoff);
    if leads != [] {
      MedianBetween(leads, 0, window / MICROS_PER_SECOND);
    }
  }

  // ---------------------------------------------------------------------------------------------
  // Nothing dated after the cutoff counts
  // ---------------------------------------------------------------------------------------------

  /** Two stores that hold the same records dated by the cutoff. */
  ghost predicate AgreeUpTo(s: Store, t: Store, cutoff: Time) {
    && Filter(s.claims, ClaimRevisions.ObservedBy(cutoff)) == Filter(t.claims, ClaimRevisions.ObservedBy(cutoff))
    && (forall id ::
          Filter(s.resolutions, ResolutionVisible(id, cutoff)) == Filter(t.resolutions, ResolutionVisible(id, cutoff)))
    && Filter(s.lineages, LineageVisible(cutoff)) == Filter(t.lineages, LineageVisible(cutoff))
  }

  lemma SameVerdict(s: Store, t: Store, c: Claim, cutoff: Time)
    requires AgreeUpTo(s, t, cutoff)
    ensures LatestResolution(s, c.id, cutoff) == LatestResolution(t, c.id, cutoff)
    ensures IsCopy(s, c, cutoff) == IsCopy(t, c, cutoff)
  {
    var here, there := Filter(s.lineages, LineageVisible(cutoff)), Filter(t.lineages, LineageVisible(cutoff));
    assert forall e: Lineage :: e.observedAt <= cutoff ==>
        (e in s.lineages <==> e in here) && (e in t.lineages <==> e in there);
  }

  lemma {:induction false} SameCounts(s: Store, t: Store, cs: seq<Claim>, n: nat, cutoff: Time, outcomes: set<Outcome>)
    requires AgreeUpTo(s, t, cutoff) && n <= |cs|
    ensures CountVerdicts(s, cs, n, cutoff, outcomes) == CountVerdicts(t, cs, n, cutoff, outcomes)
    ensures CountCopies(s, cs, n, cutoff) == CountCopies(t, cs, n, cutoff)
    ensures Leads(s, cs, n, cutoff) == Leads(t, cs, n, cutoff)
  {
    hide AgreeUpTo, LatestResolution, IsCopy;
    if n != 0 {
      SameCounts(s, t, cs, n - 1, cutoff, outcomes);
      SameVerdict(s, t, cs[n - 1], cutoff);
    }
  }

  /** A reputation is a function of the records dated by its cutoff alone. */
  lemma SameReputation(s: Store, t: Store, source: string, domain: string, cutoff: Time, window: int)
    requires AgreeUpTo(s, t, cutoff)
    ensures ReputationOf(s, source, domain, cutoff, window) == ReputationOf(t, source, domain, cutoff, window)
  {
    var cs := ClaimsInWindow(s, source, domain, cutoff - window, cutoff);
    assert cs == ClaimsInWindow(t, source, domain, cutoff - window, cutoff);
    hide AgreeUpTo, CountVerdicts, CountCopies, Leads, Summary, ClaimsInWindow;
    SameCounts(s, t, cs, |cs|, cutoff, CONFIRMING);
    SameCounts(s, t, cs, |cs|, cutoff, {Contradicted});
    SameCounts(s, t, cs, |cs|, cutoff, {Unresolved});
  }

  lemma FilterLast<T(!new)>(xs: seq<T>, x: T, p: T -> bool)
    requires !p(x)
    ensures Filter(xs + [x], p) == Filter(xs, p)
  {
    assert (xs + [x])[..|xs|] == xs;
  }

  lemma LaterOpAgrees(s: Store, op: Op, cutoff: Time)
    requires op.At() > cutoff && Apply(s, op).Ok?
    ensures AgreeUpTo(s, Apply(s, op).value.0, cutoff)
  {
    match op
    case OpClaim(c) => FilterLast(s.claims, c, ClaimRevisions.ObservedBy(cutoff));
    case OpLineage(e) => FilterLast(s.lineages, e, LineageVisible(cutoff));
    case OpResolution(r, _) =>
      forall id ensures Filter(s.resolutions + [r], ResolutionVisible(id, cutoff))
          == Filter(s.resolutions, ResolutionVisible(id, cutoff)) {
        FilterLast(s.resolutions, r, ResolutionVisible(id, cutoff));
      }
  }

  /** No run of adds dated after the cutoff changes any reputation at the cutoff. */
  lemma {:induction false} LaterRunsChangeNoReputation(s: Store, ops: seq<Op>, source: string, domain: string,
                                                       cutoff: Time, window: int)
    requires forall op: Op :: op in ops ==> op.At() > cutoff
    ensures ReputationOf(Run(s, ops), source, domain, cutoff, window) == ReputationOf(s, source, domain, cutoff, window)
  {
    if ops != [] {
      var n := |ops| - 1;
      LaterRunsChangeNoReputation(s, ops[..n], source, domain, cutoff, window);
      var before := Run(s, ops[..n]);
      hide ReputationOf, AgreeUpTo;
      if Apply(before, ops[n]).Ok? {
        LaterOpAgrees(before, ops[n], cutoff);
        SameReputation(before, Run(s, ops), source, domain, cutoff, window);
      }
    }
  }
}
