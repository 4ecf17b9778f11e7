/** The append-only claim table: revisions point back at the claim they replace. */
module ClaimRevisions {
  import opened Prelude

  datatype ClaimType =
    | FactualEvent | PolicyAction | CompanyDisclosure | MacroRelease | GeopoliticalEvent
    | Rumor | Narrative | Forecast | Interpretation

  datatype Claim = Claim(
    id: string,
    source: string,
    domain: string,
    claimType: ClaimType,
    firstObservedAt: Time,
    version: int,
    revisionOf: Option<string>
  )

  const DOMAINS := {
    "technology", "real_estate", "banking", "defense", "energy", "tourism", "macro", "policy", "geopolitics",
        "company_specific"
  }

  /** What the constructor of a claim checks, and that content identifiers are never empty. */
  predicate WellFormed(c: Claim) {
    && c.id != "" && c.source != "" && c.domain in DOMAINS
    && c.version >= 1 && (c.version == 1 <==> c.revisionOf.None?)
  }

  /** The truth value of `revision_of`: an empty identifier counts as no revision at all. */
  predicate Revision(c: Claim) {
    c.revisionOf.Some? && c.revisionOf.value != ""
  }

  function IndexOf(cs: seq<Claim>, id: string): (i: nat)
    ensures i <= |cs| && (i < |cs| ==> cs[i].id == id)
    ensures forall j :: 0 <= j < i ==> cs[j].id != id
  {
    if cs == [] then 0
    else if cs[0].id == id then 0
    else 1 + IndexOf(cs[1..], id)
  }

  predicate Known(cs: seq<Claim>, id: string) {
    IndexOf(cs, id) < |cs|
  }

  /** The prior claim is stored, one version lower and observed strictly earlier. */
  predicate ExtendsPrior(cs: seq<Claim>, c: Claim)
    requires Revision(c)
  {
    var i := IndexOf(cs, c.revisionOf.value);
    i < |cs| && cs[i].version + 1 == c.version && cs[i].firstObservedAt < c.firstObservedAt
  }

  /** The answer of `add_claim`: whether the row became pending in the session. */
  function AddClaim(cs: seq<Claim>, c: Claim): Result<bool, Violation> {
    if Known(cs, c.id) then Ok(false)
    else if Revision(c) && !ExtendsPrior(cs, c) then Err(IntegrityViolation)
    else Ok(true)
  }

  /** The foreign key of the table: the claim named by `revision_of`, if any, is stored. */
  predicate Referenced(cs: seq<Claim>, c: Claim) {
    c.revisionOf.Some? ==> Known(cs, c.revisionOf.value)
  }

  /** A flush writes a pending row unless the foreign key refuses it. */
  function FlushClaim(cs: seq<Claim>, c: Claim): Result<seq<Claim>, Violation> {
    if Referenced(cs, c) then Ok(cs + [c]) else Err(ConstraintViolation)
  }

  /** `add_claim` and the flush after it: the new table and whether a row was added. */
  function StoreClaim(cs: seq<Claim>, c: Claim): Result<(seq<Claim>, bool), Violation> {
    match AddClaim(cs, c)
    case Err(e) => Err(e)
    case Ok(added) =>
      if !added then Ok((cs, false))
      else
        match FlushClaim(cs, c)
        case Err(e) => Err(e)
        case Ok(all) => Ok((all, true))
  }

  /** The table after a series of adds, each flushed; one that raises leaves it as it was. */
  function StoreClaims(cs: seq<Claim>, adds: seq<Claim>): seq<Claim> {
    if adds == [] then cs
    else
      var before := StoreClaims(cs, adds[..|adds| - 1]);
      var r := StoreClaim(before, adds[|adds| - 1]);
      if r.Ok? then r.value.0 else before
  }

  /** Identifiers are unique and every claim that names a prior extends one stored before it. */
  ghost predicate Forest(cs: seq<Claim>) {
    forall i :: 0 <= i < |cs| ==> Planted(cs, i)
  }

  ghost predicate Planted(cs: seq<Claim>, i: nat)
    requires i < |cs|
  {
    && WellFormed(cs[i]) && !Known(cs[..i], cs[i].id)
    && (cs[i].revisionOf.Some? ==> Revision(cs[i]) && ExtendsPrior(cs[..i], cs[i]))
  }

  lemma NoEmptyId(cs: seq<Claim>)
    requires Forest(cs)
    ensures !Known(cs, "")
  {
    var i := IndexOf(cs, "");
    assert i < |cs| ==> Planted(cs, i);
  }

  /** A flushed add keeps the forest: the foreign key refuses what the check of the prior lets through. */
  lemma StoreClaimKeepsForest(cs: seq<Claim>, c: Claim)
    requires Forest(cs) && WellFormed(c)
    ensures StoreClaim(cs, c).Ok? ==> Forest(StoreClaim(cs, c).value.0)
  {
    var r := StoreClaim(cs, c);
    if r.Ok? && r.value.1 {
      NoEmptyId(cs);
      var all := r.value.0;
      forall i | 0 <= i < |all| ensures Planted(all, i) {
        if i < |cs| {
          assert Planted(cs, i) && all[..i] == cs[..i] && all[i] == cs[i];
        } else {
          assert all[..i] == cs;
        }
      }
    }
  }

  lemma {:induction false} RunsKeepForest(cs: seq<Claim>, adds: seq<Claim>)
    requires Forest(cs) && forall c :: c in adds ==> WellFormed(c)
    ensures Forest(StoreClaims(cs, adds))
  {
    if adds != [] {
      var n := |adds| - 1;
      RunsKeepForest(cs, adds[..n]);
      StoreClaimKeepsForest(StoreClaims(cs, adds[..n]), adds[n]);
    }
  }

  /** A claim that `add_claim` lets through is flushed if and only if it does not name the empty identifier. */
  lemma AcceptedClaimIsStoredIff(cs: seq<Claim>, c: Claim)
    requires Forest(cs) && AddClaim(cs, c) == Ok(true)
    ensures StoreClaim(cs, c) == if c.revisionOf == Some("") then Err(ConstraintViolation) else Ok((cs + [c], true))
  {
    NoEmptyId(cs);
  }

  /** A seventh version of nothing is constructed and accepted, and then refused at the flush. */
  lemma EmptyRevisionIsRefusedLate()
    ensures
      var c := Claim("claim", "source", "macro", Rumor, 0, 7, Some(""));
      WellFormed(c) && AddClaim([], c) == Ok(true) && StoreClaim([], c) == Err(ConstraintViolation)
  {
    AcceptedClaimIsStoredIff([], Claim("claim", "source", "macro", Rumor, 0, 7, Some("")));
  }

  lemma IdsAreUnique(cs: seq<Claim>, i: nat, j: nat)
    requires Forest(cs) && i < j < |cs|
    ensures cs[i].id != cs[j].id
  {
    assert Planted(cs, j);
    assert cs[..j][i] == cs[i];
  }

  // ---------------------------------------------------------------------------------------------
  // Lines of descent
  // ---------------------------------------------------------------------------------------------

  /** The claims from the root down to claim n, along `revision_of`. */
  function Line(cs: seq<Claim>, n: nat): (line: seq<Claim>)
    requires Forest(cs) && n < |cs|
    ensures line != [] && line[|line| - 1] == cs[n]
    decreases n
  {
    assert Planted(cs, n);
    if cs[n].revisionOf.Some? then Line(cs, IndexOf(cs[..n], cs[n].revisionOf.value)) + [cs[n]] else [cs[n]]
  }

  /** Down a line every step names the claim before it, is one version up and strictly later. */
  lemma {:induction false} LinesDescend(cs: seq<Claim>, n: nat)
    requires Forest(cs) && n < |cs|
    ensures Line(cs, n)[0].revisionOf.None?
    ensures forall i :: 0 < i < |Line(cs, n)| ==> Line(cs, n)[i].revisionOf == Some(Line(cs, n)[i - 1].id)
    ensures forall i, j :: 0 <= i < j < |Line(cs, n)| ==>
      && Line(cs, n)[i].firstObservedAt < Line(cs, n)[j].firstObservedAt
      && Line(cs, n)[j].version == Line(cs, n)[i].version + (j - i)
    ensures forall c :: c in Line(cs, n) ==> c in cs[..n + 1]
    decreases n
  {
    assert Planted(cs, n);
    if cs[n].revisionOf.Some? {
      var p := IndexOf(cs[..n], cs[n].revisionOf.value);
      LinesDescend(cs, p);
      assert cs[..n][p] == cs[p];
      assert cs[n].version == cs[p].version + 1 && cs[p].firstObservedAt < cs[n].firstObservedAt;
      assert Line(cs, n) == Line(cs, p) + [cs[n]];
      hide Line, Planted, Forest, IndexOf;
      DescentExtends(Line(cs, p), cs[n]);
      forall c | c in Line(cs, n) ensures c in cs[..n + 1] {
        if c in Line(cs, p) {
          assert c in cs[..p + 1];
        } else {
          assert cs[..n + 1][n] == c;
        }
      }
    }
  }

  lemma DescentExtends(line: seq<Claim>, c: Claim)
    requires line != [] && line[|line| - 1].firstObservedAt < c.firstObservedAt
             && c.version == line[|line| - 1].version + 1
    requires forall i, j :: 0 <= i < j < |line| ==>
      line[i].firstObservedAt < line[j].firstObservedAt && line[j].version == line[i].version + (j - i)
    ensures forall i, j :: 0 <= i < j <= |line| ==>
      (line + [c])[i].firstObservedAt < (line + [c])[j].firstObservedAt
          && (line + [c])[j].version == (line + [c])[i].version + (j - i)
  {
  }

  /** In a table that can be flushed a claim's version is the length of its line. */
  lemma VersionIsLineLength(cs: seq<Claim>, n: nat)
    requires Forest(cs) && n < |cs|
    ensures cs[n].version == |Line(cs, n)|
  {
    LinesDescend(cs, n);
    var line := Line(cs, n);
    assert line[0] in line && line[0] in cs[..n + 1];
    var i :| 0 <= i <= n && cs[i] == line[0];
    assert Planted(cs, i);
    if |line| > 1 {
      assert line[|line| - 1].version == line[0].version + (|line| - 1);
    }
  }

  /** Versions count revisions after every series of adds. */
  lemma VersionsCountRevisions(adds: seq<Claim>, n: nat)
    requires (forall c :: c in adds ==> WellFormed(c)) && n < |StoreClaims([], adds)|
    ensures var cs := StoreClaims([], adds);
            Forest(cs) && cs[n].version == |Line(cs, n)| && Line(cs, n)[0].version == 1
  {
    RunsKeepForest([], adds);
    var cs := StoreClaims([], adds);
    VersionIsLineLength(cs, n);
    LinesDescend(cs, n);
    hide StoreClaims, Forest, Line;
    if |Line(cs, n)| > 1 {
      assert cs[n].version == Line(cs, n)[0].version + (|Line(cs, n)| - 1);
    }
  }

  // ---------------------------------------------------------------------------------------------
  // Claims visible at a cutoff
  // ---------------------------------------------------------------------------------------------

  function ObservedBy(cutoff: Time): Claim -> bool {
    (c: Claim) => c.firstObservedAt <= cutoff
  }

  function RevisedIds(cs: seq<Claim>): set<string> {
    set c | c in cs && Revision(c) :: c.revisionOf.value
  }

  function NotAmong(revised: set<string>): Claim -> bool {
    (c: Claim) => c.id !in revised
  }

  function ClaimsVisibleAt(cs: seq<Claim>, cutoff: Time): seq<Claim> {
    var rows := Filter(cs, ObservedBy(cutoff));
    Filter(rows, NotAmong(RevisedIds(rows)))
  }

  ghost predicate RevisedBy(cs: seq<Claim>, cutoff: Time, c: Claim, r: Claim) {
    r in cs && r.firstObservedAt <= cutoff && c.id != "" && r.revisionOf == Some(c.id)
  }

  /** Visible are the claims observed by the cutoff that nothing observed by the cutoff revises. */
  lemma VisibleMeansUnrevised(cs: seq<Claim>, cutoff: Time, c: Claim)
    requires c.id != ""
    ensures c in ClaimsVisibleAt(cs, cutoff) <==>
              c in cs && c.firstObservedAt <= cutoff && forall r :: !RevisedBy(cs, cutoff, c, r)
  {
    var rows := Filter(cs, ObservedBy(cutoff));
    if c.id in RevisedIds(rows) {
      var r :| r in rows && Revision(r) && r.revisionOf.value == c.id;
      assert RevisedBy(cs, cutoff, c, r);
    }
    if r :| RevisedBy(cs, cutoff, c, r) {
      assert r in rows && Revision(r);
    }
  }

  /** Every claim observed by the cutoff is visible or has a visible later, higher descendant. */
  lemma {:induction false} VisibleDescendant(cs: seq<Claim>, cutoff: Time, n: nat) returns (h: nat)
    requires Forest(cs) && n < |cs| && cs[n].firstObservedAt <= cutoff
    ensures n <= h < |cs| && cs[h] in ClaimsVisibleAt(cs, cutoff) && cs[n] in Line(cs, h)
    ensures h == n || (cs[n].firstObservedAt < cs[h].firstObservedAt && cs[n].version < cs[h].version)
    decreases |cs| - n
  {
    assert Planted(cs, n);
    VisibleMeansUnrevised(cs, cutoff, cs[n]);
    if r :| RevisedBy(cs, cutoff, cs[n], r) {
      var i :| 0 <= i < |cs| && cs[i] == r;
      RevisionFollows(cs, n, i);
      h := VisibleDescendant(cs, cutoff, i);
      LineThrough(cs, n, i, h);
    } else {
      h := n;
    }
  }

  /** A revision is stored after the claim it names and extends its line. */
  lemma RevisionFollows(cs: seq<Claim>, n: nat, i: nat)
    requires Forest(cs) && n < |cs| && i < |cs| && Revision(cs[i]) && cs[i].revisionOf == Some(cs[n].id)
    ensures n < i && Line(cs, i) == Line(cs, n) + [cs[i]]
    ensures cs[n].firstObservedAt < cs[i].firstObservedAt && cs[i].version == cs[n].version + 1
  {
    assert Planted(cs, i);
    var p := IndexOf(cs[..i], cs[n].id);
    assert cs[..i][p] == cs[p];
    if p < n {
      IdsAreUnique(cs, p, n);
    } else if n < p {
      IdsAreUnique(cs, n, p);
    }
  }

  /** Whoever descends from a revision descends from what it revises. */
  lemma {:induction false} LineThrough(cs: seq<Claim>, n: nat, i: nat, h: nat)
    requires Forest(cs) && n < |cs| && i < |cs| && h < |cs|
    requires Revision(cs[i]) && cs[i].revisionOf == Some(cs[n].id) && cs[i] in Line(cs, h)
    ensures cs[n] in Line(cs, h)
    decreases h
  {
    assert Planted(cs, h);
    if cs[i] == cs[h] {
      SameClaimSameIndex(cs, i, h);
      RevisionFollows(cs, n, i);
      assert cs[n] == Line(cs, n)[|Line(cs, n)| - 1];
    } else {
      LineThrough(cs, n, i, IndexOf(cs[..h], cs[h].revisionOf.value));
    }
  }

  lemma SameClaimSameIndex(cs: seq<Claim>, i: nat, j: nat)
    requires Forest(cs) && i < |cs| && j < |cs| && cs[i] == cs[j]
    ensures i == j
  {
    if i < j {
      IdsAreUnique(cs, i, j);
    } else if j < i {
      IdsAreUnique(cs, j, i);
    }
  }

  /** A proper ancestor has been revised by the time its descendant was observed. */
  lemma AncestorIsRevised(cs: seq<Claim>, cutoff: Time, n: nat, c: Claim) returns (r: Claim)
    requires Forest(cs) && n < |cs| && c in Line(cs, n) && c != cs[n] && cs[n].firstObservedAt <= cutoff
    ensures RevisedBy(cs, cutoff, c, r)
  {
    var line := Line(cs, n);
    LinesDescend(cs, n);
    var k :| 0 <= k < |line| && line[k] == c;
    assert k + 1 < |line|;
    r := line[k + 1];
    assert r in line && r in cs[..n + 1] && line[k] in line && c in cs[..n + 1];
    var m :| 0 <= m <= n && cs[m] == c;
    assert Planted(cs, m);
  }

  /** No visible claim descends from another. */
  lemma VisibleClaimsAreUnrelated(cs: seq<Claim>, cutoff: Time, c: Claim, n: nat)
    requires Forest(cs) && n < |cs| && c != cs[n]
    requires c in ClaimsVisibleAt(cs, cutoff) && cs[n] in ClaimsVisibleAt(cs, cutoff)
    ensures c !in Line(cs, n)
  {
    var m :| 0 <= m < |cs| && cs[m] == c;
    assert Planted(cs, m) && Planted(cs, n);
    VisibleMeansUnrevised(cs, cutoff, cs[n]);
    VisibleMeansUnrevised(cs, cutoff, c);
    hide Line, ClaimsVisibleAt;
    if c in Line(cs, n) {
      var r := AncestorIsRevised(cs, cutoff, n, c);
      assert false;
    }
  }

  /** Claims first observed after the cutoff change no answer at the cutoff. */
  lemma {:induction false} LaterClaimsStayInvisible(cs: seq<Claim>, adds: seq<Claim>, cutoff: Time)
    requires forall c :: c in adds ==> c.firstObservedAt > cutoff
    ensures Filter(StoreClaims(cs, adds), ObservedBy(cutoff)) == Filter(cs, ObservedBy(cutoff))
    ensures ClaimsVisibleAt(StoreClaims(cs, adds), cutoff) == ClaimsVisibleAt(cs, cutoff)
  {
    if adds != [] {
      var n := |adds| - 1;
      LaterClaimsStayInvisible(cs, adds[..n], cutoff);
      var before, after := StoreClaims(cs, adds[..n]), StoreClaims(cs, adds);
      assert after == before || (after == before + [adds[n]] && after[..|after| - 1] == before);
    }
  }
}
