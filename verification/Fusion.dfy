/** The claim-fusion repository: causal, append-only records about claims. */
module Fusion {
  import opened Prelude
  import opened Ordering
  import opened ClaimRevisions

  datatype LineageType =
    | OriginatedFrom | CopiedFrom | ForwardedFrom | DerivedFrom
    | CorroboratedBy | ContradictedBy | SupersededBy | CorrectedBy

  datatype Outcome = Confirmed | PartiallyConfirmed | Contradicted | Unresolved | Expired

  datatype CorroborationState =
    | Uncorroborated | WeaklyCorroborated | IndependentlyCorroborated | OfficiallyConfirmed
    | Disputed | StateContradicted | Resolved

  // Content identifiers are injective, so a lineage or resolution row stands for its identifier.
  datatype Lineage = Lineage(
    source: string, target: string, relationship: LineageType, observedAt: Time, evidence: seq<string>,
    rationale: string)
  datatype Resolution = Resolution(
    claimId: string, outcome: Outcome, state: CorroborationState, evidence: seq<string>, sources: seq<string>,
    resolvedAt: Time, rationale: string)

  datatype Store = Store(claims: seq<Claim>, lineages: seq<Lineage>, resolutions: seq<Resolution>)

  /** What the constructors check. */
  predicate ValidLineage(e: Lineage) {
    e.source != e.target && e.rationale != ""
  }

  predicate ValidResolution(r: Resolution) {
    r.rationale != "" && (r.outcome != Unresolved ==> r.evidence != [])
  }

  function FirstObserved(s: Store, id: string): Option<Time> {
    var i := IndexOf(s.claims, id);
    if i < |s.claims| then Some(s.claims[i].firstObservedAt) else None
  }

  // ---------------------------------------------------------------------------------------------
  // Adding records
  // ---------------------------------------------------------------------------------------------

  function AddLineage(s: Store, e: Lineage): Result<(Store, bool), Violation> {
    if e in s.lineages then Ok((s, false))
    else
      var a, b := FirstObserved(s, e.source), FirstObserved(s, e.target);
      if a.None? || b.None? then Err(IntegrityViolation)
      else if e.observedAt < a.value || e.observedAt < b.value then Err(IntegrityViolation)
      else Ok((s.(lineages := s.lineages + [e]), true))
  }

  /** Claim types that an authoritative primary source may settle by itself. */
  const PRIMARY_TYPES := {FactualEvent, PolicyAction, CompanyDisclosure, MacroRelease, GeopoliticalEvent}

  /** The only source that decides the claim is the one that made it. */
  predicate DecidesItself(c: Claim, r: Resolution) {
    r.outcome != Unresolved && c.source in r.sources && |(set source | source in r.sources)| == 1
  }

  /** Counting the set of resolving sources asks whether they are all the claim's own. */
  lemma OnlySourceIff(c: Claim, r: Resolution)
    ensures DecidesItself(c, r) <==>
              r.outcome != Unresolved && c.source in r.sources && forall other :: other in r.sources ==>
                  other == c.source
  {
    var sources := set source | source in r.sources;
    assert c.source in r.sources ==> c.source in sources;
    if c.source in sources {
      var rest := sources - {c.source};
      assert sources == rest + {c.source} && |sources| == |rest| + 1;
      assert forall other :: other in rest <==> other in r.sources && other != c.source;
    }
  }

  function AddResolution(s: Store, r: Resolution, authoritativePrimary: bool): Result<(Store, bool), Violation> {
    if r in s.resolutions then Ok((s, false))
    else
      var i := IndexOf(s.claims, r.claimId);
      if i == |s.claims| then Err(IntegrityViolation)
      else
        var c := s.claims[i];
        if r.resolvedAt < c.firstObservedAt then Err(IntegrityViolation)
        else if DecidesItself(c, r) && !(authoritativePrimary && c.claimType in PRIMARY_TYPES) then
          Err(IntegrityViolation)
        else Ok((s.(resolutions := s.resolutions + [r]), true))
  }

  datatype Op =
    | OpClaim(claim: Claim)
    | OpLineage(edge: Lineage)
    | OpResolution(resolution: Resolution, authoritativePrimary: bool)
  {
    function At(): Time {
      match this
      case OpClaim(c) => c.firstObservedAt
      case OpLineage(e) => e.observedAt
      case OpResolution(r, _) => r.resolvedAt
    }

    /** Its record could be constructed. */
    predicate Constructible() {
      match this
      case OpClaim(c) => WellFormed(c)
      case OpLineage(e) => ValidLineage(e)
      case OpResolution(r, _) => ValidResolution(r)
    }
  }

  function Apply(s: Store, op: Op): Result<(Store, bool), Violation> {
    match op
    case OpClaim(c) =>
      (match StoreClaim(s.claims, c)
       case Ok((claims, added)) => Ok((s.(claims := claims), added))
       case Err(e) => Err(e))
    case OpLineage(e) => AddLineage(s, e)
    case OpResolution(r, primary) => AddResolution(s, r, primary)
  }

  /** The store after a series of operations, each flushed; one that raises leaves it as it was. */
  function Run(s: Store, ops: seq<Op>): Store {
    if ops == [] then s
    else
      var before := Run(s, ops[..|ops| - 1]);
      var r := Apply(before, ops[|ops| - 1]);
      if r.Ok? then r.value.0 else before
  }

  // ---------------------------------------------------------------------------------------------
  // What every run keeps
  // ---------------------------------------------------------------------------------------------

  /** The claim a resolution is about. */
  ghost predicate About(s: Store, r: Resolution, c: Claim) {
    c in s.claims && c.id == r.claimId
  }

  /**
   Resolutions follow the claim they are about; a claim outside the primary types is never decided by its own
   source alone.
   */
  ghost predicate SoundResolution(s: Store, r: Resolution) {
    && Known(s.claims, r.claimId)
    && forall c :: About(s, r, c) ==>
         && c.firstObservedAt <= r.resolvedAt
         && (DecidesItself(c, r) ==> c.claimType in PRIMARY_TYPES)
  }

  /** Lineage edges join two different known claims, neither observed after the edge. */
  ghost predicate SoundLineage(s: Store, e: Lineage) {
    && e.source != e.target && Known(s.claims, e.source) && Known(s.claims, e.target)
    && FirstObserved(s, e.source).value <= e.observedAt && FirstObserved(s, e.target).value <= e.observedAt
  }

  ghost predicate Sound(s: Store) {
    && Forest(s.claims)
    && (forall r :: r in s.resolutions ==> SoundResolution(s, r))
    && (forall e :: e in s.lineages ==> SoundLineage(s, e))
  }

  lemma AppendKeepsIndex(cs: seq<Claim>, c: Claim, id: string)
    ensures Known(cs, id) ==> IndexOf(cs + [c], id) == IndexOf(cs, id)
  {
    assert forall k :: 0 <= k < |cs| ==> (cs + [c])[k] == cs[k];
  }

  lemma NewClaimKeepsSound(s: Store, c: Claim)
    requires Sound(s) && WellFormed(c) && StoreClaim(s.claims, c).Ok?
    ensures Sound(s.(claims := StoreClaim(s.claims, c).value.0))
  {
    StoreClaimKeepsForest(s.claims, c);
    var t := s.(claims := StoreClaim(s.claims, c).value.0);
    if !Known(s.claims, c.id) {
      forall r | r in s.resolutions ensures SoundResolution(t, r) {
        assert SoundResolution(s, r);
        AppendKeepsIndex(s.claims, c, r.claimId);
        forall d | About(t, r, d) ensures d.firstObservedAt <= r.resolvedAt
            && (DecidesItself(d, r) ==> d.claimType in PRIMARY_TYPES) {
          assert d != c;
          assert About(s, r, d);
        }
      }
      forall e | e in s.lineages ensures SoundLineage(t, e) {
        assert SoundLineage(s, e);
        AppendKeepsIndex(s.claims, c, e.source);
        AppendKeepsIndex(s.claims, c, e.target);
      }
    }
  }

  /** Identifiers are unique, so the claim found is the only one a resolution can be about. */
  lemma FoundClaimIsUnique(cs: seq<Claim>, c: Claim)
    requires Forest(cs) && c in cs
    ensures Known(cs, c.id) && cs[IndexOf(cs, c.id)] == c
  {
    var i :| 0 <= i < |cs| && cs[i] == c;
    if IndexOf(cs, c.id) < i {
      IdsAreUnique(cs, IndexOf(cs, c.id), i);
    }
  }

  lemma NewResolutionKeepsSound(s: Store, r: Resolution, primary: bool)
    requires Sound(s) && AddResolution(s, r, primary).Ok?
    ensures Sound(AddResolution(s, r, primary).value.0)
  {
    var t := AddResolution(s, r, primary).value.0;
    forall q | q in t.resolutions ensures SoundResolution(t, q) {
      if q in s.resolutions {
        assert SoundResolution(s, q);
        assert forall c :: About(t, q, c) ==> About(s, q, c);
      } else {
        forall c | About(t, q, c) ensures c.firstObservedAt <= q.resolvedAt
            && (DecidesItself(c, q) ==> c.claimType in PRIMARY_TYPES) {
          FoundClaimIsUnique(s.claims, c);
        }
      }
    }
    forall e | e in t.lineages ensures SoundLineage(t, e) {
      assert SoundLineage(s, e);
    }
  }

  lemma NewLineageKeepsSound(s: Store, e: Lineage)
    requires Sound(s) && ValidLineage(e) && AddLineage(s, e).Ok?
    ensures Sound(AddLineage(s, e).value.0)
  {
    var t := AddLineage(s, e).value.0;
    forall r | r in t.resolutions ensures SoundResolution(t, r) {
      assert SoundResolution(s, r);
      assert forall c :: About(t, r, c) ==> About(s, r, c);
    }
    forall d | d in t.lineages ensures SoundLineage(t, d) {
      assert d in s.lineages ==> SoundLineage(s, d);
    }
  }

  /** Causality and the rule on self-resolution survive every run. */
  lemma {:induction false} RunsKeepSound(s: Store, ops: seq<Op>)
    requires Sound(s) && forall op: Op :: op in ops ==> op.Constructible()
    ensures Sound(Run(s, ops))
  {
    if ops != [] {
      var n := |ops| - 1;
      RunsKeepSound(s, ops[..n]);
      var before := Run(s, ops[..n]);
      assert ops[n].Constructible();
      hide Sound, StoreClaim, AddLineage, AddResolution;
      if Apply(before, ops[n]).Ok? {
        match ops[n]
        case OpClaim(c) => NewClaimKeepsSound(before, c);
        case OpLineage(e) => NewLineageKeepsSound(before, e);
        case OpResolution(r, primary) => NewResolutionKeepsSound(before, r, primary);
      }
    }
  }

  /** A rumour is never confirmed or contradicted by its own source alone, whatever flags callers pass. */
  lemma RumoursNeedAnotherSource(ops: seq<Op>, r: Resolution, c: Claim)
    requires forall op: Op :: op in ops ==> op.Constructible()
    requires var s := Run(Store([], [], []), ops);
             r in s.resolutions && About(s, r, c) && c.claimType !in PRIMARY_TYPES && r.outcome != Unresolved
    ensures c.firstObservedAt <= r.resolvedAt
    ensures c.source in r.sources ==> exists other :: other in r.sources && other != c.source
  {
    RunsKeepSound(Store([], [], []), ops);
    assert SoundResolution(Run(Store([], [], []), ops), r);
    OnlySourceIff(c, r);
  }

  // ---------------------------------------------------------------------------------------------
  // What is accepted
  // ---------------------------------------------------------------------------------------------

  /** The claim of the identifier was first observed by the given time. */
  ghost predicate ClaimedBy(s: Store, id: string, at: Time) {
    exists c :: c in s.claims && c.id == id && c.firstObservedAt <= at
  }

  lemma ClaimedIff(s: Store, id: string, at: Time)
    requires Sound(s)
    ensures ClaimedBy(s, id, at) <==> Known(s.claims, id) && s.claims[IndexOf(s.claims, id)].firstObservedAt <= at
  {
    if c :| c in s.claims && c.id == id && c.firstObservedAt <= at {
      FoundClaimIsUnique(s.claims, c);
    }
  }

  /** An edge is added just when it is new and neither of its claims was first observed after it. */
  lemma LineageIff(s: Store, e: Lineage)
    requires Sound(s)
    ensures AddLineage(s, e) ==
              if e in s.lineages then Ok((s, false))
              else if ClaimedBy(s, e.source, e.observedAt) && ClaimedBy(s, e.target, e.observedAt)
                then Ok((s.(lineages := s.lineages + [e]), true))
              else Err(IntegrityViolation)
  {
    ClaimedIff(s, e.source, e.observedAt);
    ClaimedIff(s, e.target, e.observedAt);
    hide Sound, ClaimedBy;
  }

  /** The resolution may stand: it decides nothing, another source has its say, or an official claim settles itself. */
  ghost predicate MayDecide(c: Claim, r: Resolution, authoritativePrimary: bool) {
    || r.outcome == Unresolved || c.source !in r.sources || (exists other :: other in r.sources && other != c.source)
    || (authoritativePrimary
        && c.claimType in {FactualEvent, PolicyAction, CompanyDisclosure, MacroRelease, GeopoliticalEvent})
  }

  /** A resolution is added just when it is new, does not precede the claim it is about and may stand. */
  lemma ResolutionIff(s: Store, r: Resolution, authoritativePrimary: bool)
    requires Sound(s)
    ensures AddResolution(s, r, authoritativePrimary) ==
              if r in s.resolutions then Ok((s, false))
              else if exists c :: && c in s.claims && c.id == r.claimId && c.firstObservedAt <= r.resolvedAt
                                  && MayDecide(c, r, authoritativePrimary)
                then Ok((s.(resolutions := s.resolutions + [r]), true))
              else Err(IntegrityViolation)
  {
    var i := IndexOf(s.claims, r.claimId);
    if i < |s.claims| {
      OnlySourceIff(s.claims[i], r);
    }
    forall c | c in s.claims && c.id == r.claimId ensures i < |s.claims| && c == s.claims[i] {
      FoundClaimIsUnique(s.claims, c);
    }
    hide Sound, IndexOf;
  }

  /** The claim names no prior, or a stored one that is a version lower and was first observed earlier. */
  ghost predicate MayFollow(s: Store, c: Claim) {
    c.revisionOf == None || exists d :: && d in s.claims && c.revisionOf == Some(d.id) && d.version + 1 == c.version
                                        && d.firstObservedAt < c.firstObservedAt
  }

  /** A claim is stored just when its identifier is new and it may follow the prior it names. */
  lemma ClaimIff(s: Store, c: Claim)
    requires Sound(s) && WellFormed(c)
    ensures var r := StoreClaim(s.claims, c);
            if exists d :: d in s.claims && d.id == c.id then r == Ok((s.claims, false))
            else if MayFollow(s, c) then r == Ok((s.claims + [c], true)) else r.Err?
  {
    forall d | d in s.claims ensures Known(s.claims, d.id) && s.claims[IndexOf(s.claims, d.id)] == d {
      FoundClaimIsUnique(s.claims, d);
    }
    NoEmptyId(s.claims);
    hide Sound, IndexOf, Forest;
  }

  // ---------------------------------------------------------------------------------------------
  // Queries as of a cutoff
  // ---------------------------------------------------------------------------------------------

  function ResolutionVisible(id: string, cutoff: Time): Resolution -> bool {
    (r: Resolution) => r.claimId == id && r.resolvedAt <= cutoff
  }

  function LineageVisible(cutoff: Time): Lineage -> bool {
    (e: Lineage) => e.observedAt <= cutoff
  }

  function ByResolvedAt(): (Resolution, Resolution) -> bool {
    (a: Resolution, b: Resolution) => a.resolvedAt <= b.resolvedAt
  }

  function ResolutionsVisibleAt(s: Store, id: string, cutoff: Time): seq<Resolution> {
    SortBy(Filter(s.resolutions, ResolutionVisible(id, cutoff)), ByResolvedAt())
  }

  function LatestResolution(s: Store, id: string, cutoff: Time): Option<Resolution> {
    var rs := ResolutionsVisibleAt(s, id, cutoff);
    if rs == [] then None else Some(rs[|rs| - 1])
  }

  /** The latest resolution is one of the visible ones and none of them is later. */
  lemma LatestResolutionIsNewest(s: Store, id: string, cutoff: Time)
    ensures
      match LatestResolution(s, id, cutoff)
      case None => forall r :: r in s.resolutions && r.claimId == id ==> r.resolvedAt > cutoff
      case Some(latest) =>
        && latest in s.resolutions && latest.claimId == id && latest.resolvedAt <= cutoff
        && forall r :: r in s.resolutions && r.claimId == id && r.resolvedAt <= cutoff ==>
            r.resolvedAt <= latest.resolvedAt
  {
    var visible := Filter(s.resolutions, ResolutionVisible(id, cutoff));
    var rs := ResolutionsVisibleAt(s, id, cutoff);
    SortBySorted(visible, ByResolvedAt());
    SortByMembers(visible, ByResolvedAt());
    forall r | r in s.resolutions && r.claimId == id && r.resolvedAt <= cutoff ensures r in rs {
      assert r in visible;
    }
    if rs != [] {
      assert rs[|rs| - 1] in rs;
    }
  }

  // ---------------------------------------------------------------------------------------------
  // The repository
  // ---------------------------------------------------------------------------------------------

  /** The session's claims after a flush of the claim that is pending, if any. */
  function Flushed(s: Store, pending: Option<Claim>): Result<Store, Violation> {
    match pending
    case None => Ok(s)
    case Some(c) =>
      match FlushClaim(s.claims, c)
      case Err(e) => Err(e)
      case Ok(claims) => Ok(s.(claims := claims))
  }

  /** What the caller of an add sees: whether a row was added. */
  function Reply(r: Result<(Store, bool), Violation>): Result<bool, Violation> {
    match r
    case Ok((_, added)) => Ok(added)
    case Err(e) => Err(e)
  }

  /** Adding a claim and flushing it is the operation of the runs above. */
  lemma AddThenFlush(s: Store, c: Claim)
    ensures Apply(s, OpClaim(c)) ==
      match ClaimRevisions.AddClaim(s.claims, c)
      case Err(e) => Err(e)
      case Ok(added) =>
        match Flushed(s, if added then Some(c) else None)
        case Err(e) => Err(e)
        case Ok(after) => Ok((after, added))
  {
  }

  /**
   The repository over a session. A new claim stays pending until the next flush, which every call starts
   with because its first look-up flushes the session. A refused row is dropped.
   */
  class SqlFusionRepository {
    var claims: seq<Claim>
    var lineages: seq<Lineage>
    var resolutions: seq<Resolution>
    var pending: Option<Claim>

    function Contents(): Store
      reads this
    {
      Store(claims, lineages, resolutions)
    }

    ghost predicate Valid()
      reads this
    {
      && Sound(Contents())
      && (pending.Some? ==> WellFormed(pending.value) && ClaimRevisions.AddClaim(claims, pending.value) == Ok(true))
    }

    constructor ()
      ensures Valid() && Contents() == Store([], [], []) && pending == None
    {
      claims, lineages, resolutions := [], [], [];
      pending := None;
    }

    method Flush() returns (r: Result<(), Violation>)
      requires Valid()
      modifies this`claims, this`pending
      ensures Valid() && pending == None
      ensures match Flushed(old(Contents()), old(pending))
              case Ok(s) => r == Ok(()) && Contents() == s && Sound(s)
              case Err(e) => r == Err(e) && Contents() == old(Contents())
    {
      if pending == None {
        return Ok(());
      }
      var c := pending.value;
      RunsKeepSound(Contents(), [OpClaim(c)]);
      AddThenFlush(Contents(), c);
      assert Run(Contents(), []) == Contents() && [OpClaim(c)][..0] == [];
      hide Sound;
      pending := None;
      if c.revisionOf.Some? && !Known(claims, c.revisionOf.value) {
        return Err(ConstraintViolation);
      }
      claims := claims + [c];
      return Ok(());
    }

    method AddClaim(c: Claim) returns (r: Result<bool, Violation>)
      requires Valid() && WellFormed(c)
      modifies this`claims, this`pending
      ensures Valid()
      ensures match Flushed(old(Contents()), old(pending))
              case Err(e) => r == Err(e) && Contents() == old(Contents()) && pending == None
              case Ok(s) => && Contents() == s && r == ClaimRevisions.AddClaim(s.claims, c)
                            && pending == if r == Ok(true) then Some(c) else None
    {
      var flush := Flush();
      if flush.Err? {
        return Err(flush.error);
      }
      hide Sound;
      for i := 0 to |claims|
        invariant forall j :: 0 <= j < i ==> claims[j].id != c.id
      {
        if claims[i].id == c.id {
          return Ok(false);
        }
      }
      if c.revisionOf.Some? && c.revisionOf.value != "" {
        var i := IndexOf(claims, c.revisionOf.value);
        if i == |claims| || claims[i].version + 1 != c.version || claims[i].firstObservedAt >= c.firstObservedAt {
          return Err(IntegrityViolation);
        }
      }
      pending := Some(c);
      return Ok(true);
    }

    method AddLineage(e: Lineage) returns (r: Result<bool, Violation>)
      requires Valid() && ValidLineage(e)
      modifies this`claims, this`pending, this`lineages
      ensures Valid() && pending == None
      ensures match Flushed(old(Contents()), old(pending))
              case Err(x) => r == Err(x) && Contents() == old(Contents())
              case Ok(s) => r == Reply(Apply(s, OpLineage(e))) && Contents() == Run(s, [OpLineage(e)])
    {
      var flush := Flush();
      if flush.Err? {
        return Err(flush.error);
      }
      RunsKeepSound(Contents(), [OpLineage(e)]);
      hide Sound;
      if e in lineages {
        return Ok(false);
      }
      var source, target := IndexOf(claims, e.source), IndexOf(claims, e.target);
      if source == |claims| || target == |claims| {
        return Err(IntegrityViolation);
      }
      var a, b := claims[source].firstObservedAt, claims[target].firstObservedAt;
      if e.observedAt < (if a < b then b else a) {
        return Err(IntegrityViolation);
      }
      lineages := lineages + [e];
      return Ok(true);
    }

    method AddResolution(q: Resolution, authoritativePrimary: bool) returns (r: Result<bool, Violation>)
      requires Valid() && ValidResolution(q)
      modifies this`claims, this`pending, this`resolutions
      ensures Valid() && pending == None
      ensures match Flushed(old(Contents()), old(pending))
              case Err(x) => r == Err(x) && Contents() == old(Contents())
              case Ok(s) => && r == Reply(Apply(s, OpResolution(q, authoritativePrimary)))
                            && Contents() == Run(s, [OpResolution(q, authoritativePrimary)])
    {
      var flush := Flush();
      if flush.Err? {
        return Err(flush.error);
      }
      RunsKeepSound(Contents(), [OpResolution(q, authoritativePrimary)]);
      hide Sound;
      if q in resolutions {
        return Ok(false);
      }
      var i := IndexOf(claims, q.claimId);
      if i == |claims| || q.resolvedAt < claims[i].firstObservedAt {
        return Err(IntegrityViolation);
      }
      if DecidesItself(claims[i], q) && !(authoritativePrimary && claims[i].claimType in PRIMARY_TYPES) {
        return Err(IntegrityViolation);
      }
      resolutions := resolutions + [q];
      return Ok(true);
    }
  }
}
