/** What copied and forwarded claims are credited with. */
module Copies {
  import opened Prelude
  import opened Ordering
  import opened ClaimRevisions
  import opened Fusion
  import opened Reputation

  function NotCopied(s: Store, cutoff: Time): Claim -> bool {
    (c: Claim) => !IsCopy(s, c, cutoff)
  }

  function Originals(s: Store, cs: seq<Claim>, cutoff: Time): seq<Claim> {
    Filter(cs, NotCopied(s, cutoff))
  }

  /**
   The documented reputation: copied and forwarded claims receive no origination credit, so the sample, the
   outcomes and the lead are those of the other claims; the copy rate is over all claims in the window.
   */
  function Documented(s: Store, source: string, domain: string, cutoff: Time, window: int): Snapshot {
    var cs := ClaimsInWindow(s, source, domain, cutoff - window, cutoff);
    var credited := Originals(s, cs, cutoff);
    var copyRate := Rate(CountCopies(s, cs, |cs|, cutoff), |cs|);
    Summary(source, domain, cutoff - window, cutoff, |credited|, Counted(s, credited, |credited|, cutoff))
      .(copyRate := copyRate, originalRate := 1.0 - copyRate)
  }

  /** The copied claims among the first n that ended with one of the outcomes. */
  function CountCopied(s: Store, cs: seq<Claim>, n: nat, cutoff: Time, outcomes: set<Outcome>): nat
    requires n <= |cs|
  {
    if n == 0 then 0
    else CountCopied(s, cs, n - 1, cutoff, outcomes)
         + if IsCopy(s, cs[n - 1], cutoff) && Verdict(s, cs[n - 1], cutoff) in outcomes then 1 else 0
  }

  lemma {:induction false} CountsOfPrefix(s: Store, cs: seq<Claim>, ds: seq<Claim>, n: nat, cutoff: Time,
                                          outcomes: set<Outcome>)
    requires n <= |cs| && n <= |ds| && cs[..n] == ds[..n]
    ensures CountVerdicts(s, cs, n, cutoff, outcomes) == CountVerdicts(s, ds, n, cutoff, outcomes)
    ensures CountCopies(s, cs, n, cutoff) == CountCopies(s, ds, n, cutoff)
    ensures CountCopied(s, cs, n, cutoff, outcomes) == CountCopied(s, ds, n, cutoff, outcomes)
  {
    hide Verdict, IsCopy;
    if n > 0 {
      assert cs[..n][n - 1] == cs[n - 1] && ds[..n][n - 1] == ds[n - 1];
      assert cs[..n - 1] == cs[..n][..n - 1] && ds[..n - 1] == ds[..n][..n - 1];
      CountsOfPrefix(s, cs, ds, n - 1, cutoff, outcomes);
    }
  }

  /** Claims are originals or copies, and so are those of each outcome. */
  lemma {:induction false} CreditSplits(s: Store, cs: seq<Claim>, cutoff: Time, outcomes: set<Outcome>)
    ensures var credited := Originals(s, cs, cutoff);
            && |cs| == |credited| + CountCopies(s, cs, |cs|, cutoff)
            && CountVerdicts(s, cs, |cs|, cutoff, outcomes)
               == CountVerdicts(s, credited, |credited|, cutoff, outcomes) + CountCopied(s, cs, |cs|, cutoff, outcomes)
  {
    hide Verdict, IsCopy;
    if cs != [] {
      var n := |cs| - 1;
      CreditSplits(s, cs[..n], cutoff, outcomes);
      CountsOfPrefix(s, cs, cs[..n], n, cutoff, outcomes);
      var before := Originals(s, cs[..n], cutoff);
      CountsOfPrefix(s, before + [cs[n]], before, |before|, cutoff, outcomes);
      assert (before + [cs[n]])[..|before|] == before;
    }
  }

  /** No claim in the window is the target of a visible copied_from or forwarded_from edge. */
  predicate NothingCopied(s: Store, source: string, domain: string, cutoff: Time, window: int) {
    forall c :: c in ClaimsInWindow(s, source, domain, cutoff - window, cutoff) ==> !IsCopy(s, c, cutoff)
  }

  /**
   The code credits copies like any other claim: the reported sample and the reported outcomes exceed the
   documented ones by the copies among them.
   */
  lemma CopiesAreCredited(s: Store, source: string, domain: string, cutoff: Time, window: int)
    ensures
      var r, d := ReputationOf(s, source, domain, cutoff, window), Documented(s, source, domain, cutoff, window);
      var cs := ClaimsInWindow(s, source, domain, cutoff - window, cutoff);
      && r.sample == d.sample + CountCopies(s, cs, |cs|, cutoff)
      && r.confirmed == d.confirmed + CountCopied(s, cs, |cs|, cutoff, CONFIRMING)
      && r.contradicted == d.contradicted + CountCopied(s, cs, |cs|, cutoff, {Contradicted})
      && r.unresolved == d.unresolved + CountCopied(s, cs, |cs|, cutoff, {Unresolved})
      && r.copyRate == d.copyRate && r.originalRate == d.originalRate
  {
    var cs := ClaimsInWindow(s, source, domain, cutoff - window, cutoff);
    CreditSplits(s, cs, cutoff, CONFIRMING);
    CreditSplits(s, cs, cutoff, {Contradicted});
    CreditSplits(s, cs, cutoff, {Unresolved});
    hide ClaimsInWindow, CountVerdicts, CountCopies, CountCopied, Leads, Originals, Rate, Median;
  }

  /**
   The reported reputation is the documented one, and even its sample size is, if and only if nothing in
   the window is a copied or forwarded claim.
   */
  lemma DocumentedIffNothingCopied(s: Store, source: string, domain: string, cutoff: Time, window: int)
    ensures
      var r, d := ReputationOf(s, source, domain, cutoff, window), Documented(s, source, domain, cutoff, window);
      && (r == d <==> NothingCopied(s, source, domain, cutoff, window))
      && (r.sample == d.sample <==> NothingCopied(s, source, domain, cutoff, window))
  {
    var cs := ClaimsInWindow(s, source, domain, cutoff - window, cutoff);
    FilterAll(cs, NotCopied(s, cutoff));
    assert Originals(s, cs, cutoff) == cs <==> NothingCopied(s, source, domain, cutoff, window);
    assert |Originals(s, cs, cutoff)| == |cs| <==> NothingCopied(s, source, domain, cutoff, window);
    hide ClaimsInWindow, Counted, CountCopies, Originals, NothingCopied, Rate, Median;
    CountedCopies(s, cs, cutoff);
  }

  lemma CountedCopies(s: Store, cs: seq<Claim>, cutoff: Time)
    ensures Counted(s, cs, |cs|, cutoff).copies == CountCopies(s, cs, |cs|, cutoff)
  {
  }

  // ---------------------------------------------------------------------------------------------
  // Lineage and credit
  // ---------------------------------------------------------------------------------------------

  lemma {:induction false} VerdictsIgnoreLineage(s: Store, edges: seq<Lineage>, cs: seq<Claim>, n: nat, cutoff: Time,
                                                 outcomes: set<Outcome>)
    requires n <= |cs|
    ensures CountVerdicts(s.(lineages := edges), cs, n, cutoff, outcomes) == CountVerdicts(s, cs, n, cutoff, outcomes)
    ensures Leads(s.(lineages := edges), cs, n, cutoff) == Leads(s, cs, n, cutoff)
  {
    hide ResolutionsVisibleAt, Truncate;
    if n != 0 {
      VerdictsIgnoreLineage(s, edges, cs, n - 1, cutoff, outcomes);
      assert ResolutionsVisibleAt(s.(lineages := edges), cs[n - 1].id, cutoff)
          == ResolutionsVisibleAt(s, cs[n - 1].id, cutoff) by {
        ResolutionsIgnoreLineage(s, edges, cs[n - 1].id, cutoff);
      }
    }
  }

  lemma ResolutionsIgnoreLineage(s: Store, edges: seq<Lineage>, id: string, cutoff: Time)
    ensures ResolutionsVisibleAt(s.(lineages := edges), id, cutoff) == ResolutionsVisibleAt(s, id, cutoff)
  {
  }

  lemma CountersIgnoreLineage(s: Store, edges: seq<Lineage>, cs: seq<Claim>, cutoff: Time)
    ensures var k, l := Counted(s, cs, |cs|, cutoff), Counted(s.(lineages := edges), cs, |cs|, cutoff);
            l == k.(copies := l.copies)
  {
    VerdictsIgnoreLineage(s, edges, cs, |cs|, cutoff, CONFIRMING);
    VerdictsIgnoreLineage(s, edges, cs, |cs|, cutoff, {Contradicted});
    VerdictsIgnoreLineage(s, edges, cs, |cs|, cutoff, {Unresolved});
    hide CountVerdicts, CountCopies, Leads;
  }

  lemma CopiesMoveCopyRates(source: string, domain: string, start: Time, cutoff: Time, n: nat, k: Counters, l: Counters)
    requires l == k.(copies := l.copies)
    ensures var r, t := Summary(source, domain, start, cutoff, n, k), Summary(source, domain, start, cutoff, n, l);
            t == r.(copyRate := t.copyRate, originalRate := t.originalRate)
  {
    hide Rate, Median;
  }

  /** Whatever the lineage says, it moves the copy rate and the original-content rate and nothing else. */
  lemma CopiesKeepTheirCredit(s: Store, edges: seq<Lineage>, source: string, domain: string, cutoff: Time, window: int)
    ensures
      var r, t := ReputationOf(s, source, domain, cutoff, window),
          ReputationOf(s.(lineages := edges), source, domain, cutoff, window);
      t == r.(copyRate := t.copyRate, originalRate := t.originalRate)
  {
    var cs := ClaimsInWindow(s, source, domain, cutoff - window, cutoff);
    assert ClaimsInWindow(s.(lineages := edges), source, domain, cutoff - window, cutoff) == cs;
    CountersIgnoreLineage(s, edges, cs, cutoff);
    hide Counted, ClaimsInWindow, Summary;
    CopiesMoveCopyRates(source, domain, cutoff - window, cutoff, |cs|, Counted(s, cs, |cs|, cutoff),
                        Counted(s.(lineages := edges), cs, |cs|, cutoff));
  }

  // ---------------------------------------------------------------------------------------------
  // A copied claim that is credited
  // ---------------------------------------------------------------------------------------------

  const NOTHING := Store([], [], [])

  /** A claim, a copy of it by another source, the edge that says so, and a confirmation of the copy by a third. */
  predicate CopyScenario(original: Claim, copy: Claim, edge: Lineage, q: Resolution) {
    && WellFormed(original) && WellFormed(copy) && original.id != copy.id && original.source != copy.source
    && original.revisionOf.None? && copy.revisionOf.None?
    && edge.source == original.id && edge.target == copy.id
        && (edge.relationship == CopiedFrom || edge.relationship == ForwardedFrom)
    && original.firstObservedAt <= copy.firstObservedAt <= edge.observedAt
    && q.claimId == copy.id && q.outcome in CONFIRMING && copy.source !in q.sources
        && copy.firstObservedAt <= q.resolvedAt
  }

  function CopyOps(original: Claim, copy: Claim, edge: Lineage, q: Resolution): seq<Op> {
    [OpClaim(original), OpClaim(copy), OpLineage(edge), OpResolution(q, false)]
  }

  lemma ClaimsAreStored(original: Claim, copy: Claim)
    requires original.id != copy.id && original.revisionOf.None? && copy.revisionOf.None?
    ensures Apply(NOTHING, OpClaim(original)) == Ok((Store([original], [], []), true))
    ensures Apply(Store([original], [], []), OpClaim(copy)) == Ok((Store([original, copy], [], []), true))
    ensures IndexOf([original, copy], original.id) == 0 && IndexOf([original, copy], copy.id) == 1
  {
    assert [] + [original] == [original] && [original] + [copy] == [original, copy];
    assert [original][1..] == [] && [original, copy][1..] == [copy];
  }

  lemma EdgeAndOutcomeAreStored(original: Claim, copy: Claim, edge: Lineage, q: Resolution)
    requires CopyScenario(original, copy, edge, q)
    ensures var s := Store([original, copy], [], []);
            && Apply(s, OpLineage(edge)) == Ok((s.(lineages := [edge]), true))
            && Apply(s.(lineages := [edge]), OpResolution(q, false)) == Ok((Store([original, copy], [edge], [q]), true))
  {
    ClaimsAreStored(original, copy);
    assert [] + [edge] == [edge] && [] + [q] == [q];
    assert !DecidesItself(copy, q);
    hide IndexOf, DecidesItself;
  }

  lemma RunOfFour(ops: seq<Op>, a: Store, b: Store, c: Store, d: Store)
    requires |ops| == 4
    requires Apply(NOTHING, ops[0]) == Ok((a, true)) && Apply(a, ops[1]) == Ok((b, true))
    requires Apply(b, ops[2]) == Ok((c, true)) && Apply(c, ops[3]) == Ok((d, true))
    ensures Run(NOTHING, ops) == d
  {
    hide Apply;
    assert ops[..3][..2] == ops[..2] && ops[..2][..1] == ops[..1] && ops[..1][..0] == [];
    assert Run(NOTHING, []) == NOTHING;
    assert Run(NOTHING, ops[..1]) == a;
    assert Run(NOTHING, ops[..2]) == b;
    assert Run(NOTHING, ops[..3]) == c;
  }

  lemma CopyRun(original: Claim, copy: Claim, edge: Lineage, q: Resolution)
    requires CopyScenario(original, copy, edge, q)
    ensures Run(NOTHING, CopyOps(original, copy, edge, q)) == Store([original, copy], [edge], [q])
  {
    var s := Store([original, copy], [], []);
    ClaimsAreStored(original, copy);
    EdgeAndOutcomeAreStored(original, copy, edge, q);
    RunOfFour(CopyOps(original, copy, edge, q), Store([original], [], []), s, s.(lineages := [edge]),
              Store([original, copy], [edge], [q]));
  }

  lemma BothVisible(original: Claim, copy: Claim, cutoff: Time)
    requires original.revisionOf.None? && copy.revisionOf.None?
    requires original.firstObservedAt <= cutoff && copy.firstObservedAt <= cutoff
    ensures ClaimsVisibleAt([original, copy], cutoff) == [original, copy]
  {
    var both := [original, copy];
    assert RevisedIds(both) == {};
    FilterAll(both, ClaimRevisions.ObservedBy(cutoff));
    FilterAll(both, NotAmong(RevisedIds(both)));
  }

  lemma OnlySecond(first: Claim, second: Claim, p: Claim -> bool)
    requires !p(first) && p(second)
    ensures Filter([first, second], p) == [second]
  {
    assert [first, second][..1] == [first] && [first][..0] == [];
    assert Filter([first], p) == [];
  }

  lemma CopyInWindow(s: Store, original: Claim, copy: Claim, cutoff: Time, start: Time)
    requires s.claims == [original, copy] && original.revisionOf.None? && copy.revisionOf.None?
             && original.source != copy.source
    requires original.firstObservedAt <= copy.firstObservedAt <= cutoff && start <= copy.firstObservedAt
    ensures ClaimsInWindow(s, copy.source, copy.domain, start, cutoff) == [copy]
  {
    hide ClaimsVisibleAt, Filter;
    BothVisible(original, copy, cutoff);
    OnlySecond(original, copy, InWindow(copy.source, copy.domain, start, cutoff));
  }

  lemma OnlyResolution(s: Store, q: Resolution, cutoff: Time)
    requires s.resolutions == [q] && q.resolvedAt <= cutoff
    ensures LatestResolution(s, q.claimId, cutoff) == Some(q)
  {
    assert [q][..0] == [];
    FilterAll([q], ResolutionVisible(q.claimId, cutoff));
    assert SortBy([q], ByResolvedAt()) == [q];
  }

  lemma CountOne(s: Store, c: Claim, cutoff: Time)
    requires Verdict(s, c, cutoff) in CONFIRMING && IsCopy(s, c, cutoff)
    ensures var k := Counted(s, [c], 1, cutoff);
            k.confirmed == 1 && k.contradicted == 0 && k.unresolved == 0 && k.copies == 1 && |k.leads| == 1
    ensures Originals(s, [c], cutoff) == []
  {
    hide Verdict, IsCopy, Lead;
    assert CountVerdicts(s, [c], 0, cutoff, CONFIRMING) == 0 && CountVerdicts(s, [c], 0, cutoff, {Contradicted}) == 0;
    assert CountVerdicts(s, [c], 0, cutoff, {Unresolved}) == 0 && CountCopies(s, [c], 0, cutoff) == 0
        && Leads(s, [c], 0, cutoff) == [];
    assert [c][..0] == [];
  }

  /**
   A source that only copies is credited with a confirmed claim and full precision; the documented reputation is
   empty.
   */
  ghost predicate CreditedForCopy(r: Snapshot, d: Snapshot) {
    && r.sample == 1 && r.confirmed == 1 && r.precision == 1.0 && r.medianLead.Some? && r.copyRate == 1.0
    && d.sample == 0 && d.confirmed == 0 && d.precision == 0.0 && d.medianLead.None? && d.copyRate == 1.0
  }

  lemma CreditOne(s: Store, c: Claim, cutoff: Time, window: int)
    requires ClaimsInWindow(s, c.source, c.domain, cutoff - window, cutoff) == [c]
    requires Verdict(s, c, cutoff) in CONFIRMING && IsCopy(s, c, cutoff)
    ensures CreditedForCopy(ReputationOf(s, c.source, c.domain, cutoff, window),
                            Documented(s, c.source, c.domain, cutoff, window))
  {
    CountOne(s, c, cutoff);
    CountedCopies(s, [c], cutoff);
    NothingCounted(s, [], cutoff);
    assert Rate(1, 1) == 1.0 && Rate(0, 0) == 0.0;
    hide ClaimsInWindow, Verdict, IsCopy, Median, Counted, Originals, CountCopies, Rate;
  }

  lemma CopyIsVisible(s: Store, c: Claim, edge: Lineage, q: Resolution, cutoff: Time)
    requires s.lineages == [edge] && CopyEdge(edge, c.id, cutoff)
    requires s.resolutions == [q] && q.claimId == c.id && q.resolvedAt <= cutoff && q.outcome in CONFIRMING
    ensures Verdict(s, c, cutoff) in CONFIRMING && IsCopy(s, c, cutoff)
  {
    OnlyResolution(s, q, cutoff);
    hide LatestResolution, CopyEdge;
    assert edge in s.lineages;
  }

  lemma ScenarioParts(original: Claim, copy: Claim, edge: Lineage, q: Resolution, cutoff: Time)
    requires CopyScenario(original, copy, edge, q) && edge.observedAt <= cutoff
    ensures original.revisionOf.None? && copy.revisionOf.None? && original.source != copy.source
    ensures original.firstObservedAt <= copy.firstObservedAt <= cutoff
    ensures CopyEdge(edge, copy.id, cutoff) && q.claimId == copy.id && q.outcome in CONFIRMING
  {
  }

  /** Such a copy is credited at every cutoff from its confirmation on, in every window that still holds it. */
  lemma CopiedClaimIsCredited(original: Claim, copy: Claim, edge: Lineage, q: Resolution, cutoff: Time, window: int)
    requires CopyScenario(original, copy, edge, q)
    requires edge.observedAt <= cutoff && q.resolvedAt <= cutoff && cutoff - window <= copy.firstObservedAt
    ensures var s := Run(NOTHING, CopyOps(original, copy, edge, q));
            CreditedForCopy(ReputationOf(s, copy.source, copy.domain, cutoff, window),
                            Documented(s, copy.source, copy.domain, cutoff, window))
  {
    hide *;
    var s := Store([original, copy], [edge], [q]);
    CopyRun(original, copy, edge, q);
    ScenarioParts(original, copy, edge, q, cutoff);
    CopyInWindow(s, original, copy, cutoff, cutoff - window);
    CopyIsVisible(s, copy, edge, q, cutoff);
    CreditOne(s, copy, cutoff, window);
  }

  /** Such a scenario exists. */
  lemma ACreditedCopy()
    ensures
      var original := Claim("original", "agency", "macro", FactualEvent, 0, 1, None);
      var copy := Claim("copy", "blog", "macro", Rumor, 1, 1, None);
      var edge := Lineage("original", "copy", CopiedFrom, 1, [], "declared");
      var q := Resolution("copy", Confirmed, OfficiallyConfirmed, ["release"], ["ministry"], 2, "confirmed");
      var s := Run(NOTHING, CopyOps(original, copy, edge, q));
      && ValidLineage(edge) && ValidResolution(q)
      && CreditedForCopy(ReputationOf(s, "blog", "macro", 2, 10), Documented(s, "blog", "macro", 2, 10))
  {
    var original := Claim("original", "agency", "macro", FactualEvent, 0, 1, None);
    var copy := Claim("copy", "blog", "macro", Rumor, 1, 1, None);
    var edge := Lineage("original", "copy", CopiedFrom, 1, [], "declared");
    var q := Resolution("copy", Confirmed, OfficiallyConfirmed, ["release"], ["ministry"], 2, "confirmed");
    assert "original"[0] != "copy"[0] && "agency"[0] != "blog"[0] && "ministry"[0] != "blog"[0];
    assert CopyScenario(original, copy, edge, q);
    hide *;
    CopiedClaimIsCredited(original, copy, edge, q, 2, 10);
  }
}
