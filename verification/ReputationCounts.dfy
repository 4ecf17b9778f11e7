/** The figures of a reputation as sizes of sets of stored claims, and its median by rank. */
module ReputationCounts {
  import opened Prelude
  import opened Ordering
  import opened ClaimRevisions
  import opened Fusion
  import opened Reputation
  import RealFacts

  // ---------------------------------------------------------------------------------------------
  // Sets of claims
  // ---------------------------------------------------------------------------------------------

  /** The claims of the source in the domain, first observed in the window, that nothing observed by its end revises. */
  ghost function Sampled(s: Store, source: string, domain: string, cutoff: Time, window: int): set<Claim> {
    set c | && c in s.claims && c.source == source && c.domain == domain
            && cutoff - window <= c.firstObservedAt && c.firstObservedAt <= cutoff
            && forall r :: r in s.claims && r.firstObservedAt <= cutoff ==> r.revisionOf != Some(c.id)
  }

  /** Those among them whose latest resolution by the cutoff has one of the outcomes. */
  ghost function Ended(s: Store, cs: set<Claim>, cutoff: Time, outcomes: set<Outcome>): set<Claim> {
    set c | c in cs && LatestResolution(s, c.id, cutoff).Some?
            && LatestResolution(s, c.id, cutoff).value.outcome in outcomes
  }

  /** Those without any resolution by the cutoff, or with a latest one that leaves them unresolved. */
  ghost function Open(s: Store, cs: set<Claim>, cutoff: Time): set<Claim> {
    set c | c in cs && (LatestResolution(s, c.id, cutoff).None?
                        || LatestResolution(s, c.id, cutoff).value.outcome == Unresolved)
  }

  /** Those that an edge observed by the cutoff makes a copy or a forward. */
  ghost function Copied(s: Store, cs: set<Claim>, cutoff: Time): set<Claim> {
    set c | c in cs && exists e :: && e in s.lineages && e.target == c.id && e.observedAt <= cutoff
                                   && (e.relationship == CopiedFrom || e.relationship == ForwardedFrom)
  }

  ghost predicate NoneTwice<T(!new)>(xs: seq<T>) {
    forall i, j :: 0 <= i < j < |xs| ==> xs[i] != xs[j]
  }

  lemma {:induction false} SizeOfSequence(cs: seq<Claim>)
    requires NoneTwice(cs)
    ensures |set c | c in cs| == |cs|
  {
    if cs == [] {
      assert (set c | c in cs) == {};
    } else {
      var n := |cs| - 1;
      SizeOfSequence(cs[..n]);
      assert (set c | c in cs) == (set c | c in cs[..n]) + {cs[n]};
      assert cs[n] !in (set c | c in cs[..n]);
    }
  }

  /** The claims in the window: none comes twice. */
  lemma WindowRepeatsNone(s: Store, source: string, domain: string, cutoff: Time, window: int)
    requires Sound(s)
    ensures NoneTwice(ClaimsInWindow(s, source, domain, cutoff - window, cutoff))
  {
    forall i, j | 0 <= i < j < |s.claims| ensures s.claims[i] != s.claims[j] {
      IdsAreUnique(s.claims, i, j);
    }
    hide Sound, Filter;
    var rows := Filter(s.claims, ClaimRevisions.ObservedBy(cutoff));
    FilterDistinct(s.claims, ClaimRevisions.ObservedBy(cutoff));
    FilterDistinct(rows, NotAmong(RevisedIds(rows)));
    FilterDistinct(ClaimsVisibleAt(s.claims, cutoff), InWindow(source, domain, cutoff - window, cutoff));
  }

  /** The claims in the window are the sampled ones. */
  lemma WindowIsSample(s: Store, source: string, domain: string, cutoff: Time, window: int)
    requires Sound(s)
    ensures var cs := ClaimsInWindow(s, source, domain, cutoff - window, cutoff);
            forall c :: c in cs <==> c in Sampled(s, source, domain, cutoff, window)
  {
    var cs := ClaimsInWindow(s, source, domain, cutoff - window, cutoff);
    forall c ensures c in cs <==> c in Sampled(s, source, domain, cutoff, window) {
      assert c in cs <==> c in ClaimsVisibleAt(s.claims, cutoff)
                          && InWindow(source, domain, cutoff - window, cutoff)(c);
      hide ClaimsInWindow, ClaimsVisibleAt;
      if c in s.claims {
        ClaimHasId(s, c);
        VisibleMeansUnrevised(s.claims, cutoff, c);
        RevisedMeans(s, c, cutoff);
        hide Sound, RevisedBy;
      } else {
        InWindowIsStored(s, source, domain, cutoff, window, c);
      }
    }
  }

  lemma InWindowIsStored(s: Store, source: string, domain: string, cutoff: Time, window: int, c: Claim)
    ensures c in ClaimsInWindow(s, source, domain, cutoff - window, cutoff) ==> c in s.claims
  {
  }

  lemma RevisedMeans(s: Store, c: Claim, cutoff: Time)
    requires c.id != ""
    ensures (forall r :: !RevisedBy(s.claims, cutoff, c, r)) <==>
            forall r :: r in s.claims && r.firstObservedAt <= cutoff ==> r.revisionOf != Some(c.id)
  {
    if r :| RevisedBy(s.claims, cutoff, c, r) {
      assert r in s.claims && r.firstObservedAt <= cutoff && r.revisionOf == Some(c.id);
    }
    if r :| r in s.claims && r.firstObservedAt <= cutoff && r.revisionOf == Some(c.id) {
      assert RevisedBy(s.claims, cutoff, c, r);
    }
  }

  lemma ClaimHasId(s: Store, c: Claim)
    requires Sound(s) && c in s.claims
    ensures c.id != ""
  {
    var i :| 0 <= i < |s.claims| && s.claims[i] == c;
    assert Planted(s.claims, i);
  }

  /** As many elements are kept as there are that satisfy the predicate. */
  lemma KeptIsSize(cs: seq<Claim>, p: Claim -> bool)
    requires NoneTwice(cs)
    ensures |Filter(cs, p)| == |set c | c in cs && p(c)| && NoneTwice(Filter(cs, p))
  {
    FilterDistinct(cs, p);
    SizeOfSequence(Filter(cs, p));
    assert (set c | c in Filter(cs, p)) == set c | c in cs && p(c);
  }

  function EndedIn(s: Store, cutoff: Time, outcomes: set<Outcome>): Claim -> bool {
    (c: Claim) => Verdict(s, c, cutoff) in outcomes
  }

  function IsCopied(s: Store, cutoff: Time): Claim -> bool {
    (c: Claim) => IsCopy(s, c, cutoff)
  }

  lemma {:induction false} CountsAreKept(s: Store, cs: seq<Claim>, n: nat, cutoff: Time, outcomes: set<Outcome>)
    requires n <= |cs|
    ensures CountVerdicts(s, cs, n, cutoff, outcomes) == |Filter(cs[..n], EndedIn(s, cutoff, outcomes))|
    ensures CountCopies(s, cs, n, cutoff) == |Filter(cs[..n], IsCopied(s, cutoff))|
  {
    hide Verdict, IsCopy;
    if n > 0 {
      CountsAreKept(s, cs, n - 1, cutoff, outcomes);
      assert cs[..n][..n - 1] == cs[..n - 1];
    }
  }

  /** The sets that the counters count. */
  lemma CountersAreSizes(s: Store, source: string, domain: string, cutoff: Time, window: int)
    requires Sound(s)
    ensures var cs := ClaimsInWindow(s, source, domain, cutoff - window, cutoff);
            var all := Sampled(s, source, domain, cutoff, window);
            && |cs| == |all| && CountCopies(s, cs, |cs|, cutoff) == |Copied(s, all, cutoff)|
            && CountVerdicts(s, cs, |cs|, cutoff, CONFIRMING)
               == |Ended(s, all, cutoff, {Confirmed, PartiallyConfirmed})|
            && CountVerdicts(s, cs, |cs|, cutoff, {Contradicted}) == |Ended(s, all, cutoff, {Contradicted})|
            && CountVerdicts(s, cs, |cs|, cutoff, {Unresolved}) == |Open(s, all, cutoff)|
  {
    var cs := ClaimsInWindow(s, source, domain, cutoff - window, cutoff);
    var all := Sampled(s, source, domain, cutoff, window);
    WindowRepeatsNone(s, source, domain, cutoff, window);
    WindowIsSample(s, source, domain, cutoff, window);
    assert cs[..|cs|] == cs && all == set c | c in cs;
    hide ClaimsInWindow, Sampled, Sound, LatestResolution, Filter, CountVerdicts, CountCopies, NoneTwice;
    SizeOfSequence(cs);
    SetOfCopies(s, cs, all, cutoff);
    SetOfEnded(s, cs, all, cutoff, {Confirmed, PartiallyConfirmed});
    SetOfEnded(s, cs, all, cutoff, {Contradicted});
    SetOfOpen(s, cs, all, cutoff);
  }

  lemma KeptAre(cs: seq<Claim>, p: Claim -> bool, kept: set<Claim>)
    requires NoneTwice(cs) && forall c :: c in kept <==> c in cs && p(c)
    ensures |Filter(cs, p)| == |kept|
  {
    KeptIsSize(cs, p);
    assert kept == set c | c in cs && p(c);
  }

  lemma CopiesAre(s: Store, c: Claim, all: set<Claim>, cutoff: Time)
    ensures c in Copied(s, all, cutoff) <==> c in all && IsCopied(s, cutoff)(c)
  {
    if c in all && IsCopied(s, cutoff)(c) {
      var e :| e in s.lineages && CopyEdge(e, c.id, cutoff);
    }
    if c in Copied(s, all, cutoff) {
      var e :| && e in s.lineages && e.target == c.id && e.observedAt <= cutoff
               && (e.relationship == CopiedFrom || e.relationship == ForwardedFrom);
      assert CopyEdge(e, c.id, cutoff);
    }
  }

  lemma SetOfCopies(s: Store, cs: seq<Claim>, all: set<Claim>, cutoff: Time)
    requires NoneTwice(cs) && cs[..|cs|] == cs && all == set c | c in cs
    ensures CountCopies(s, cs, |cs|, cutoff) == |Copied(s, all, cutoff)|
  {
    CountsAreKept(s, cs, |cs|, cutoff, {});
    forall c ensures c in Copied(s, all, cutoff) <==> c in cs && IsCopied(s, cutoff)(c) {
      CopiesAre(s, c, all, cutoff);
    }
    hide *;
    KeptAre(cs, IsCopied(s, cutoff), Copied(s, all, cutoff));
  }

  lemma EndedAre(s: Store, c: Claim, all: set<Claim>, cutoff: Time, outcomes: set<Outcome>)
    ensures Unresolved !in outcomes ==>
              (c in Ended(s, all, cutoff, outcomes) <==> c in all && EndedIn(s, cutoff, outcomes)(c))
    ensures c in Open(s, all, cutoff) <==> c in all && EndedIn(s, cutoff, {Unresolved})(c)
  {
    hide LatestResolution;
  }

  lemma SetOfEnded(s: Store, cs: seq<Claim>, all: set<Claim>, cutoff: Time, outcomes: set<Outcome>)
    requires NoneTwice(cs) && cs[..|cs|] == cs && all == (set c | c in cs) && Unresolved !in outcomes
    ensures CountVerdicts(s, cs, |cs|, cutoff, outcomes) == |Ended(s, all, cutoff, outcomes)|
  {
    hide *;
    CountsAreKept(s, cs, |cs|, cutoff, outcomes);
    forall c ensures c in Ended(s, all, cutoff, outcomes) <==> c in cs && EndedIn(s, cutoff, outcomes)(c) {
      EndedAre(s, c, all, cutoff, outcomes);
    }
    KeptAre(cs, EndedIn(s, cutoff, outcomes), Ended(s, all, cutoff, outcomes));
  }

  lemma SetOfOpen(s: Store, cs: seq<Claim>, all: set<Claim>, cutoff: Time)
    requires NoneTwice(cs) && cs[..|cs|] == cs && all == set c | c in cs
    ensures CountVerdicts(s, cs, |cs|, cutoff, {Unresolved}) == |Open(s, all, cutoff)|
  {
    hide *;
    CountsAreKept(s, cs, |cs|, cutoff, {Unresolved});
    forall c ensures c in Open(s, all, cutoff) <==> c in cs && EndedIn(s, cutoff, {Unresolved})(c) {
      EndedAre(s, c, all, cutoff, {Unresolved});
    }
    KeptAre(cs, EndedIn(s, cutoff, {Unresolved}), Open(s, all, cutoff));
  }

  // ---------------------------------------------------------------------------------------------
  // Ranks and leads
  // ---------------------------------------------------------------------------------------------

  /** How many of the values are below v. */
  function Below(xs: seq<int>, v: int): nat {
    if xs == [] then 0 else (if xs[0] < v then 1 else 0) + Below(xs[1..], v)
  }

  /** v is the value of rank k, counted from zero: at most k values are below it, and more than k not above it. */
  ghost predicate HasRank(xs: seq<int>, k: nat, v: int) {
    v in xs && Below(xs, v) <= k < Below(xs, v + 1)
  }

  /** The value in the middle, or for an even number half of the sum of the two in the middle. */
  ghost predicate IsMedian(xs: seq<int>, m: int) {
    if |xs| % 2 == 1 then HasRank(xs, |xs| / 2, m) else |xs| > 0 && IsHalfOfRanks(xs, |xs| / 2 - 1, |xs| / 2, m)
  }

  ghost predicate IsHalfOfRanks(xs: seq<int>, j: nat, k: nat, m: int) {
    exists low, high :: HasRank(xs, j, low) && HasRank(xs, k, high) && IsHalf(low + high, m)
  }

  /** m is half of the sum, rounded toward zero. */
  ghost predicate IsHalf(sum: int, m: int) {
    if sum >= 0 then 2 * m <= sum < 2 * m + 2 else 2 * m - 2 < sum <= 2 * m
  }

  lemma {:induction false} InsertBelow(x: int, xs: seq<int>, v: int)
    ensures Below(Insert(x, xs, AtMost()), v) == (if x < v then 1 else 0) + Below(xs, v)
  {
    if xs == [] || x <= xs[0] {
      assert ([x] + xs)[1..] == xs;
    } else {
      InsertBelow(x, xs[1..], v);
      var rest := Insert(x, xs[1..], AtMost());
      assert ([xs[0]] + rest)[1..] == rest;
    }
  }

  lemma {:induction false} SortKeepsBelow(xs: seq<int>, v: int)
    ensures Below(SortBy(xs, AtMost()), v) == Below(xs, v)
  {
    if xs != [] {
      SortKeepsBelow(xs[1..], v);
      InsertBelow(xs[0], SortBy(xs[1..], AtMost()), v);
    }
  }

  lemma {:induction false} RankInOrder(ys: seq<int>, k: nat, v: int)
    requires Sorted(ys, AtMost()) && k < |ys|
    ensures v <= ys[k] ==> Below(ys, v) <= k
    ensures v > ys[k] ==> Below(ys, v) > k
  {
    if k > 0 {
      RankInOrder(ys[1..], k - 1, v);
      assert AtMost()(ys[0], ys[k]);
    } else if v <= ys[0] {
      assert forall i :: 0 < i < |ys| ==> AtMost()(ys[0], ys[i]);
      NoneBelow(ys, v);
    }
  }

  lemma {:induction false} NoneBelow(ys: seq<int>, v: int)
    requires forall i :: 0 <= i < |ys| ==> v <= ys[i]
    ensures Below(ys, v) == 0
  {
    if ys != [] {
      NoneBelow(ys[1..], v);
    }
  }

  lemma RankFrom(xs: seq<int>, ys: seq<int>, k: nat)
    requires k < |ys| && ys[k] in xs && Below(xs, ys[k]) == Below(ys, ys[k])
    requires Below(xs, ys[k] + 1) == Below(ys, ys[k] + 1) && Below(ys, ys[k]) <= k < Below(ys, ys[k] + 1)
    ensures HasRank(xs, k, ys[k])
  {
    hide Below;
  }

  lemma SortedHasRanks(xs: seq<int>, k: nat)
    requires k < |xs|
    ensures HasRank(xs, k, SortBy(xs, AtMost())[k])
  {
    AtMostIsTotal();
    hide *;
    var ys := SortBy(xs, AtMost());
    SortBySorted(xs, AtMost());
    SortByMembers(xs, AtMost());
    assert ys[k] in ys;
    SortKeepsBelow(xs, ys[k]);
    SortKeepsBelow(xs, ys[k] + 1);
    RankInOrder(ys, k, ys[k]);
    RankInOrder(ys, k, ys[k] + 1);
    RankFrom(xs, ys, k);
  }

  lemma AtMostIsTotal()
    ensures TotalPreorder(AtMost())
  {
  }

  lemma TruncateIsHalf(sum: int)
    ensures IsHalf(sum, Truncate(sum, 2))
  {
  }

  /** The median of any values is the one in the middle by rank. */
  lemma MedianIsMedian(xs: seq<int>)
    requires xs != []
    ensures IsMedian(xs, Median(xs))
  {
    var n, ys := |xs|, SortBy(xs, AtMost());
    hide HasRank, SortBy, IsHalf, Truncate;
    SortedHasRanks(xs, n / 2);
    if n % 2 == 0 {
      SortedHasRanks(xs, n / 2 - 1);
      TruncateIsHalf(ys[n / 2 - 1] + ys[n / 2]);
      assert IsHalfOfRanks(xs, n / 2 - 1, n / 2, Median(xs));
    }
  }

  // ---------------------------------------------------------------------------------------------
  // The reputation
  // ---------------------------------------------------------------------------------------------

  /** The leads belong to the claims, one each: the whole seconds from its first observation to its resolution. */
  ghost predicate LeadsOf(s: Store, cs: seq<Claim>, cutoff: Time, leads: seq<int>) {
    |leads| == |cs| && forall i :: 0 <= i < |cs| ==> LeadOf(s, cs[i], cutoff, leads[i])
  }

  ghost predicate LeadOf(s: Store, c: Claim, cutoff: Time, lead: int) {
    && LatestResolution(s, c.id, cutoff).Some?
    && var late := LatestResolution(s, c.id, cutoff).value.resolvedAt - c.firstObservedAt;
       lead * 1_000_000 <= late < (lead + 1) * 1_000_000
  }

  lemma {:induction false} LeadsAreOfConfirmed(s: Store, cs: seq<Claim>, n: nat, cutoff: Time)
    requires Sound(s) && n <= |cs| && forall c :: c in cs ==> c in s.claims
    ensures LeadsOf(s, Filter(cs[..n], EndedIn(s, cutoff, CONFIRMING)), cutoff, Leads(s, cs, n, cutoff))
  {
    hide LatestResolution, Sound, LeadOf;
    if n > 0 {
      LeadsAreOfConfirmed(s, cs, n - 1, cutoff);
      assert cs[..n][..n - 1] == cs[..n - 1];
      if Verdict(s, cs[n - 1], cutoff) in CONFIRMING {
        WholeSeconds(s, cs[n - 1], cutoff);
      }
    }
  }

  lemma WholeSeconds(s: Store, c: Claim, cutoff: Time)
    requires Sound(s) && c in s.claims && LatestResolution(s, c.id, cutoff).Some?
    ensures LeadOf(s, c, cutoff, Lead(s, c, cutoff))
  {
    LatestResolutionIsNewest(s, c.id, cutoff);
    var latest := LatestResolution(s, c.id, cutoff).value;
    assert SoundResolution(s, latest) && About(s, latest, c);
    hide LatestResolution;
    var late := latest.resolvedAt - c.firstObservedAt;
    assert late == (late / 1_000_000) * 1_000_000 + late % 1_000_000;
  }

  /** A reputation in terms of the claims, resolutions and edges of the store. */
  ghost predicate Describes(s: Store, source: string, domain: string, cutoff: Time, window: int, r: Snapshot) {
    var all := Sampled(s, source, domain, cutoff, window);
    var confirmed := Ended(s, all, cutoff, {Confirmed, PartiallyConfirmed});
    && r.source == source && r.domain == domain && r.windowStart == cutoff - window && r.cutoff == cutoff
    && r.sample == |all| && r.confirmed == |confirmed|
    && r.contradicted == |Ended(s, all, cutoff, {Contradicted})| && r.unresolved == |Open(s, all, cutoff)|
    && IsShare(r.precision, r.confirmed, r.confirmed + r.contradicted)
    && IsShare(r.contradictionRate, r.contradicted, r.confirmed + r.contradicted)
    && IsShare(r.copyRate, |Copied(s, all, cutoff)|, r.sample) && r.originalRate == 1.0 - r.copyRate
    && HasMedianLead(s, confirmed, cutoff, r.medianLead)
  }

  /** The median of the leads of the claims, each taken once; none if there is no claim. */
  ghost predicate HasMedianLead(s: Store, confirmed: set<Claim>, cutoff: Time, median: Option<int>) {
    if confirmed == {} then median == None
    else exists cs, leads :: && LeadsOf(s, cs, cutoff, leads) && (forall c :: c in cs <==> c in confirmed)
                             && |cs| == |confirmed| && median.Some? && IsMedian(leads, median.value)
  }

  /** The part of a whole, and nothing of an empty whole. */
  ghost predicate IsShare(rate: real, part: int, whole: int) {
    if whole == 0 then rate == 0.0 else rate * whole as real == part as real
  }

  lemma RateIsShare(part: nat, whole: nat)
    ensures IsShare(Rate(part, whole), part, whole)
  {
    if whole != 0 {
      RealFacts.QuotientTimes(part as real, whole as real);
    }
  }

  lemma LeadsOfConfirmed(s: Store, source: string, domain: string, cutoff: Time, window: int)
      returns (cs: seq<Claim>)
    requires Sound(s)
    ensures var ws := ClaimsInWindow(s, source, domain, cutoff - window, cutoff);
            var all := Sampled(s, source, domain, cutoff, window);
            var confirmed := Ended(s, all, cutoff, {Confirmed, PartiallyConfirmed});
            && LeadsOf(s, cs, cutoff, Leads(s, ws, |ws|, cutoff)) && (forall c :: c in cs <==> c in confirmed)
            && |cs| == |confirmed|
  {
    var ws := ClaimsInWindow(s, source, domain, cutoff - window, cutoff);
    assert ws[..|ws|] == ws;
    cs := Filter(ws, EndedIn(s, cutoff, CONFIRMING));
    hide *;
    forall c | c in ws ensures c in s.claims {
      InWindowIsStored(s, source, domain, cutoff, window, c);
    }
    LeadsAreOfConfirmed(s, ws, |ws|, cutoff);
    WindowRepeatsNone(s, source, domain, cutoff, window);
    WindowIsSample(s, source, domain, cutoff, window);
    var all := Sampled(s, source, domain, cutoff, window);
    forall c ensures c in cs <==> c in Ended(s, all, cutoff, {Confirmed, PartiallyConfirmed}) {
      EndedAre(s, c, all, cutoff, {Confirmed, PartiallyConfirmed});
    }
    KeptAre(ws, EndedIn(s, cutoff, CONFIRMING), Ended(s, all, cutoff, {Confirmed, PartiallyConfirmed}));
  }

  lemma SummaryFields(source: string, domain: string, start: Time, cutoff: Time, n: nat, k: Counters)
    ensures var r := Summary(source, domain, start, cutoff, n, k);
            && r.source == source && r.domain == domain && r.windowStart == start && r.cutoff == cutoff && r.sample == n
            && r.confirmed == k.confirmed && r.contradicted == k.contradicted && r.unresolved == k.unresolved
            && IsShare(r.precision, k.confirmed, k.confirmed + k.contradicted)
            && IsShare(r.contradictionRate, k.contradicted, k.confirmed + k.contradicted)
            && IsShare(r.copyRate, k.copies, n) && r.originalRate == 1.0 - r.copyRate
            && (if k.leads == [] then r.medianLead == None
                else r.medianLead.Some? && IsMedian(k.leads, r.medianLead.value))
  {
    RateIsShare(k.confirmed, k.confirmed + k.contradicted);
    RateIsShare(k.contradicted, k.confirmed + k.contradicted);
    RateIsShare(k.copies, n);
    if k.leads != [] {
      MedianIsMedian(k.leads);
    }
    hide Median, IsMedian, Rate, IsShare;
  }

  lemma CountedFields(s: Store, cs: seq<Claim>, cutoff: Time)
    ensures var k := Counted(s, cs, |cs|, cutoff);
            && k.confirmed == CountVerdicts(s, cs, |cs|, cutoff, CONFIRMING)
            && k.contradicted == CountVerdicts(s, cs, |cs|, cutoff, {Contradicted})
            && k.unresolved == CountVerdicts(s, cs, |cs|, cutoff, {Unresolved})
            && k.copies == CountCopies(s, cs, |cs|, cutoff) && k.leads == Leads(s, cs, |cs|, cutoff)
  {
  }

  lemma MedianOfLeads(s: Store, cs: seq<Claim>, leads: seq<int>, confirmed: set<Claim>, cutoff: Time,
                      median: Option<int>)
    requires LeadsOf(s, cs, cutoff, leads) && (forall c :: c in cs <==> c in confirmed) && |cs| == |confirmed|
    requires if leads == [] then median == None else median.Some? && IsMedian(leads, median.value)
    ensures HasMedianLead(s, confirmed, cutoff, median)
  {
    assert |leads| == |cs|;
    hide LeadsOf, IsMedian;
    if leads != [] {
      assert cs[0] in confirmed;
    }
  }

  lemma DescribedBy(s: Store, source: string, domain: string, cutoff: Time, window: int, r: Snapshot, copies: int)
    requires r.source == source && r.domain == domain && r.windowStart == cutoff - window && r.cutoff == cutoff
    requires var all := Sampled(s, source, domain, cutoff, window);
             && r.sample == |all| && copies == |Copied(s, all, cutoff)|
             && r.confirmed == |Ended(s, all, cutoff, {Confirmed, PartiallyConfirmed})|
             && r.contradicted == |Ended(s, all, cutoff, {Contradicted})| && r.unresolved == |Open(s, all, cutoff)|
             && HasMedianLead(s, Ended(s, all, cutoff, {Confirmed, PartiallyConfirmed}), cutoff, r.medianLead)
    requires IsShare(r.precision, r.confirmed, r.confirmed + r.contradicted)
    requires IsShare(r.contradictionRate, r.contradicted, r.confirmed + r.contradicted)
    requires IsShare(r.copyRate, copies, r.sample) && r.originalRate == 1.0 - r.copyRate
    ensures Describes(s, source, domain, cutoff, window, r)
  {
    hide Sampled, Ended, Open, Copied, IsShare, HasMedianLead;
  }

  /** The reported figures are the sizes of these sets and the median of these leads. */
  lemma ReputationDescribesClaims(s: Store, source: string, domain: string, cutoff: Time, window: int)
    requires Sound(s)
    ensures Describes(s, source, domain, cutoff, window, ReputationOf(s, source, domain, cutoff, window))
  {
    hide *;
    var ws := ClaimsInWindow(s, source, domain, cutoff - window, cutoff);
    var k, all := Counted(s, ws, |ws|, cutoff), Sampled(s, source, domain, cutoff, window);
    ReputationIsSummary(s, source, domain, cutoff, window);
    CountersAreSizes(s, source, domain, cutoff, window);
    CountedFields(s, ws, cutoff);
    SummaryFields(source, domain, cutoff - window, cutoff, |ws|, k);
    var cs := LeadsOfConfirmed(s, source, domain, cutoff, window);
    var r := ReputationOf(s, source, domain, cutoff, window);
    MedianOfLeads(s, cs, k.leads, Ended(s, all, cutoff, {Confirmed, PartiallyConfirmed}), cutoff, r.medianLead);
    DescribedBy(s, source, domain, cutoff, window, r, k.copies);
  }
}
