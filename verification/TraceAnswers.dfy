/** The answer of `trace_event` in terms of the fields of the event and of the stored rows. */
module TraceAnswers {
  import opened Prelude
  import opened Ordering
  import opened Bitemporal
  import opened KnowledgeGraph
  import opened EventTracing

  /** A version of the entity is current at the cutoff. */
  ghost predicate Present(g: Graph, id: string, cutoff: Time) {
    exists v :: v in g.entities && v.key == id && Current(v, cutoff)
  }

  /** Of the versions of its key that are current at the cutoff the edge is the highest, and it is active. */
  ghost predicate Live(g: Graph, e: Relationship, cutoff: Time) {
    e.data.status == Active && InForce(g.relationships, e, cutoff)
  }

  /** The event and all its evidence, of which there is some, were observed by the cutoff. */
  ghost predicate EventKnown(records: EventRecords, id: string, cutoff: Time) {
    && id in records.events && records.events[id].firstObservedAt <= cutoff
    && (exists e :: e in records.events[id].evidenceIds)
    && forall e :: e in records.events[id].evidenceIds ==> e in records.evidence && records.evidence[e] <= cutoff
  }

  lemma VisibleIsKnown(records: EventRecords, id: string, cutoff: Time)
    ensures EventAt(records, id, cutoff)
            == if EventKnown(records, id, cutoff) then Some(records.events[id]) else None
  {
  }

  /** Who is named: each named entity that is known, and each named mechanism whose entity is, as often as named. */
  ghost predicate NamesTheStarts(g: Graph, event: CanonicalEvent, cutoff: Time, t: EventTrace) {
    && (forall id :: id in t.directEntities <==> id in event.entities && Present(g, id, cutoff))
    && (forall id :: id in t.candidateMechanisms <==>
          Present(g, id, cutoff) && exists m :: m in event.causalMechanisms && id == "mechanism." + m)
    && (forall id :: Present(g, id, cutoff) ==> multiset(t.directEntities)[id] == multiset(event.entities)[id])
    && (forall m :: Present(g, "mechanism." + m, cutoff) ==>
          multiset(t.candidateMechanisms)["mechanism." + m] == multiset(event.causalMechanisms)[m])
    && (forall i, j :: 0 <= i < j < |t.directEntities| ==> StringLeq(t.directEntities[i], t.directEntities[j]))
    && (forall i, j :: 0 <= i < j < |t.candidateMechanisms| ==>
          StringLeq(t.candidateMechanisms[i], t.candidateMechanisms[j]))
  }

  /** A live edge joins the two nodes, in either direction. */
  ghost predicate Joined(g: Graph, e: Relationship, cutoff: Time, a: string, b: string) {
    Live(g, e, cutoff) && ((e.key.source == a && e.key.target == b) || (e.key.target == a && e.key.source == b))
  }

  /** From one of the starts, along live edges, to ever new nodes. */
  ghost predicate Reaches(g: Graph, cutoff: Time, t: EventTrace, nodes: seq<string>, edges: seq<Relationship>) {
    && |nodes| == |edges| + 1 && (nodes[0] in t.directEntities || nodes[0] in t.candidateMechanisms)
    && (forall i, j :: 0 <= i < j < |nodes| ==> nodes[i] != nodes[j])
    && forall i :: 0 <= i < |edges| ==> Joined(g, edges[i], cutoff, nodes[i], nodes[i + 1])
  }

  /** The product of the confidences, the first edge first. */
  function Trust(edges: seq<Relationship>): real {
    if edges == [] then 1.0 else edges[0].data.body.confidence * Trust(edges[1..])
  }

  /** What a path says about its edges. */
  ghost predicate Describes(event: CanonicalEvent, p: GraphPath) {
    var edges := p.relationshipIds;
    && |p.relationshipVersions| == |edges|
    && (forall i :: 0 <= i < |edges| ==> p.relationshipVersions[i] == edges[i].version)
    && (forall s :: s in p.provenance <==>
          s in event.evidenceIds || exists i :: 0 <= i < |edges| && s in edges[i].data.body.provenance)
    && p.confidence == event.confidence * Trust(edges)
  }

  /** Shorter paths first; among equally long ones the smaller identifier at the first difference. */
  ghost predicate Precedes(ids: Ids, p: GraphPath, q: GraphPath) {
    var a, b := p.relationshipIds, q.relationshipIds;
    || |a| < |b|
    || (|a| == |b| && ((forall i :: 0 <= i < |a| ==> ids(a[i]) == ids(b[i]))
                       || exists k: nat :: k < |a| && ids(a[k]) != ids(b[k]) && StringLeq(ids(a[k]), ids(b[k]))
                                           && forall i :: 0 <= i < k ==> ids(a[i]) == ids(b[i])))
  }

  /** The whole answer. */
  ghost predicate Answers(g: Graph, ids: Ids, event: CanonicalEvent, cutoff: Time, maxDepth: int, t: EventTrace) {
    && t.eventId == event.eventId && t.cutoff == cutoff && NamesTheStarts(g, event, cutoff, t)
    && (forall p :: p in t.paths ==> IsAnswer(g, event, cutoff, maxDepth, t, p))
    && (forall nodes, edges :: Reaches(g, cutoff, t, nodes, edges) && 1 <= |edges| <= maxDepth ==>
          HasIds(t.paths, edges))
    && (forall i, j :: 0 <= i < j < |t.paths| ==>
          t.paths[i].relationshipIds != t.paths[j].relationshipIds && Precedes(ids, t.paths[i], t.paths[j]))
    && (forall p :: p in t.paths ==> LeadsBack(t, p))
  }

  /** a occurs in front of every b. */
  ghost predicate OccursFirst(xs: seq<string>, a: string, b: string) {
    exists i :: 0 <= i < |xs| && xs[i] == a && b !in xs[..i]
  }

  /** A single edge between two starts leads to the one that is named first, entities before mechanisms. */
  ghost predicate LeadsBack(t: EventTrace, p: GraphPath) {
    var named := t.directEntities + t.candidateMechanisms;
    |p.relationshipIds| == 1 && |p.entityIds| == 2 && p.entityIds[1] in named ==>
      OccursFirst(named, p.entityIds[1], p.entityIds[0])
  }

  ghost predicate IsAnswer(g: Graph, event: CanonicalEvent, cutoff: Time, maxDepth: int, t: EventTrace, p: GraphPath) {
    && 1 <= |p.relationshipIds| <= maxDepth && Reaches(g, cutoff, t, p.entityIds, p.relationshipIds)
    && Describes(event, p)
  }

  // ---------------------------------------------------------------------------------------------
  // The starts
  // ---------------------------------------------------------------------------------------------

  lemma {:induction false} FilterCounts<T(!new)>(xs: seq<T>, p: T -> bool, x: T)
    ensures multiset(Filter(xs, p))[x] == if p(x) then multiset(xs)[x] else 0
  {
    if xs != [] {
      var n := |xs| - 1;
      FilterCounts(xs[..n], p, x);
      assert xs == xs[..n] + [xs[n]];
    }
  }

  lemma {:induction false} PrefixedCounts(names: seq<string>, m: string)
    ensures multiset(MechanismEntities(names))["mechanism." + m] == multiset(names)[m]
  {
    if names != [] {
      var n := |names| - 1;
      PrefixedCounts(names[..n], m);
      assert names == names[..n] + [names[n]];
      assert MechanismEntities(names) == MechanismEntities(names[..n]) + ["mechanism." + names[n]];
      SamePrefix(m, names[n]);
    }
  }

  lemma SamePrefix(a: string, b: string)
    ensures "mechanism." + a == "mechanism." + b <==> a == b
  {
    var n := |"mechanism."|;
    assert ("mechanism." + a)[n..] == a && ("mechanism." + b)[n..] == b;
  }

  lemma VisibleIsPresent(g: Graph, id: string, cutoff: Time)
    ensures LatestVisible(g.entities, id, cutoff).Some? <==> Present(g, id, cutoff)
  {
    LatestVisibleIsInForce(g.entities, id, cutoff);
  }

  /** Keeping the visible identifiers and sorting them. */
  lemma KnownSorted(g: Graph, cutoff: Time, ids: seq<string>, sorted: seq<string>)
    requires sorted == VisibleSorted(g.entities, cutoff, ids)
    ensures forall id :: id in sorted <==> id in ids && Present(g, id, cutoff)
    ensures forall id :: Present(g, id, cutoff) ==> multiset(sorted)[id] == multiset(ids)[id]
    ensures forall i, j :: 0 <= i < j < |sorted| ==> StringLeq(sorted[i], sorted[j])
  {
    var visible := Filter(ids, VisibleEntity(g.entities, cutoff));
    SortByMembers(visible, StringLeq);
    StringsAreOrdered();
    SortBySorted(visible, StringLeq);
    forall id ensures VisibleEntity(g.entities, cutoff)(id) == Present(g, id, cutoff)
              ensures Present(g, id, cutoff) ==> multiset(sorted)[id] == multiset(ids)[id] {
      VisibleIsPresent(g, id, cutoff);
      FilterCounts(ids, VisibleEntity(g.entities, cutoff), id);
    }
  }

  /** The mechanisms that are candidates: the prefixed names of which an entity is present. */
  lemma CandidatesAreNamed(g: Graph, cutoff: Time, names: seq<string>, candidates: seq<string>)
    requires candidates == VisibleSorted(g.entities, cutoff, MechanismEntities(names))
    ensures forall id :: id in candidates <==>
                         Present(g, id, cutoff) && exists m :: m in names && id == "mechanism." + m
    ensures forall m :: Present(g, "mechanism." + m, cutoff) ==>
                        multiset(candidates)["mechanism." + m] == multiset(names)[m]
    ensures forall i, j :: 0 <= i < j < |candidates| ==> StringLeq(candidates[i], candidates[j])
  {
    var named := MechanismEntities(names);
    assert forall i :: 0 <= i < |names| ==> named[i] == "mechanism." + names[i];
    hide *;
    KnownSorted(g, cutoff, named, candidates);
    forall id ensures id in named <==> exists m :: m in names && id == "mechanism." + m {
      if m :| m in names && id == "mechanism." + m {
        var i :| 0 <= i < |names| && names[i] == m;
        assert named[i] == id;
      }
    }
    forall m | Present(g, "mechanism." + m, cutoff)
      ensures multiset(candidates)["mechanism." + m] == multiset(names)[m]
    {
      PrefixedCounts(names, m);
    }
  }

  lemma TraceNamesTheStarts(g: Graph, ids: Ids, event: CanonicalEvent, cutoff: Time, maxDepth: int, t: EventTrace)
    requires TraceSpec(g, ids, event, cutoff, maxDepth, t)
    ensures NamesTheStarts(g, event, cutoff, t)
  {
    hide Present, StringLeq, VisibleSorted, Enumerated, SimplePath, HasIds, Sorted, StartsOf, PathOrder, Before,
        MechanismEntities;
    KnownSorted(g, cutoff, event.entities, t.directEntities);
    CandidatesAreNamed(g, cutoff, event.causalMechanisms, t.candidateMechanisms);
  }

  // ---------------------------------------------------------------------------------------------
  // The paths
  // ---------------------------------------------------------------------------------------------

  lemma {:induction false} TrustOfLonger(edges: seq<Relationship>, last: Relationship)
    ensures Trust(edges + [last]) == Trust(edges) * last.data.body.confidence
  {
    if edges == [] {
      assert ([] + [last])[1..] == [];
    } else {
      TrustOfLonger(edges[1..], last);
      assert (edges + [last])[1..] == edges[1..] + [last];
      assert edges[0].data.body.confidence * (Trust(edges[1..]) * last.data.body.confidence)
             == edges[0].data.body.confidence * Trust(edges[1..]) * last.data.body.confidence;
    }
  }

  lemma {:induction false} ConfidenceIsTrust(event: CanonicalEvent, edges: seq<Relationship>)
    ensures Confidence(event, edges) == event.confidence * Trust(edges)
  {
    if edges != [] {
      var n := |edges| - 1;
      ConfidenceIsTrust(event, edges[..n]);
      TrustOfLonger(edges[..n], edges[n]);
      assert edges == edges[..n] + [edges[n]];
      var last := edges[n].data.body.confidence;
      assert event.confidence * Trust(edges[..n]) * last == event.confidence * (Trust(edges[..n]) * last);
    }
  }

  lemma {:induction false} ProvenanceOfEdges(event: CanonicalEvent, edges: seq<Relationship>, s: string)
    ensures s in Provenance(event, edges) <==>
            s in event.evidenceIds || exists i :: 0 <= i < |edges| && s in edges[i].data.body.provenance
  {
    if edges != [] {
      var n := |edges| - 1;
      ProvenanceOfEdges(event, edges[..n], s);
      assert forall i :: 0 <= i < n ==> edges[..n][i] == edges[i];
      assert edges[n] == edges[|edges| - 1];
    }
  }

  lemma PathDescribes(event: CanonicalEvent, p: GraphPath)
    requires p == PathOf(event, p.entityIds, p.relationshipIds)
    ensures Describes(event, p)
  {
    var edges := p.relationshipIds;
    ConfidenceIsTrust(event, edges);
    forall s
      ensures s in p.provenance
              <==> s in event.evidenceIds || exists i :: 0 <= i < |edges| && s in edges[i].data.body.provenance
    {
      ProvenanceOfEdges(event, edges, s);
    }
    hide Confidence, Provenance, Trust;
  }

  lemma LiveIsActive(g: Graph, e: Relationship, cutoff: Time)
    requires Sequential(g.relationships)
    ensures Live(g, e, cutoff) <==> ActiveEdge(g.relationships, cutoff, e)
  {
    InForceIsLatestVisible(g.relationships, e, cutoff);
  }

  lemma JoinedIsConnected(g: Graph, e: Relationship, cutoff: Time, a: string, b: string)
    requires Sequential(g.relationships)
    ensures Joined(g, e, cutoff, a, b) <==> ActiveEdge(g.relationships, cutoff, e) && Connects(e, a, b)
  {
    LiveIsActive(g, e, cutoff);
    hide Live, ActiveEdge, Sequential;
  }

  lemma StartsAreNamed(t: EventTrace, id: string)
    ensures id in StartsOf(t.directEntities, t.candidateMechanisms) <==>
            id in t.directEntities || id in t.candidateMechanisms
  {
  }

  /** The simple paths from the starts are the sequences that reach new nodes along live edges. */
  lemma ReachesIsSimplePath(g: Graph, cutoff: Time, t: EventTrace, nodes: seq<string>, edges: seq<Relationship>)
    requires Sequential(g.relationships)
    ensures Reaches(g, cutoff, t, nodes, edges) <==>
            SimplePath(StartsOf(t.directEntities, t.candidateMechanisms), g.relationships, cutoff, nodes, edges)
  {
    hide StartsOf, Joined, ActiveEdge, Connects, Sequential;
    if |nodes| == |edges| + 1 {
      StartsAreNamed(t, nodes[0]);
      if Reaches(g, cutoff, t, nodes, edges) {
        forall i | 0 <= i < |edges|
          ensures ActiveEdge(g.relationships, cutoff, edges[i]) && Connects(edges[i], nodes[i], nodes[i + 1])
        {
          JoinedIsConnected(g, edges[i], cutoff, nodes[i], nodes[i + 1]);
        }
      } else {
        if i :| 0 <= i < |edges| && !Joined(g, edges[i], cutoff, nodes[i], nodes[i + 1]) {
          JoinedIsConnected(g, edges[i], cutoff, nodes[i], nodes[i + 1]);
        }
      }
    }
  }

  lemma OrderIsPrecedes(ids: Ids, p: GraphPath, q: GraphPath)
    requires PathOrder(ids)(p, q)
    ensures Precedes(ids, p, q)
  {
    var a, b := p.relationshipIds, q.relationshipIds;
    var x, y := PathIds(ids, p), PathIds(ids, q);
    hide TupleLeq, StringLeq;
    if |a| == |b| {
      TupleLeqMeaning(x, y);
      if x <= y {
        assert forall i :: 0 <= i < |a| ==> ids(a[i]) == x[i] == y[i] == ids(b[i]);
      } else {
        var k: nat :| DifferAt(x, y, k) && StringLeq(x[k], y[k]);
        assert ids(a[k]) == x[k] && ids(b[k]) == y[k];
        assert forall i :: 0 <= i < k ==> ids(a[i]) == x[i] == y[i] == ids(b[i]);
      }
    }
  }

  lemma PathIsAnswer(g: Graph, ids: Ids, event: CanonicalEvent, cutoff: Time, maxDepth: int, t: EventTrace,
                     p: GraphPath)
    requires Sequential(g.relationships) && TraceSpec(g, ids, event, cutoff, maxDepth, t) && p in t.paths
    ensures IsAnswer(g, event, cutoff, maxDepth, t, p)
  {
    var starts := StartsOf(t.directEntities, t.candidateMechanisms);
    assert Enumerated(starts, g.relationships, cutoff, event, maxDepth, p);
    hide TraceSpec, SimplePath, Reaches, Describes, PathOf, StartsOf, Sequential;
    PathDescribes(event, p);
    ReachesIsSimplePath(g, cutoff, t, p.entityIds, p.relationshipIds);
  }

  lemma AnswersAreComplete(g: Graph, ids: Ids, event: CanonicalEvent, cutoff: Time, maxDepth: int, t: EventTrace,
                           nodes: seq<string>, edges: seq<Relationship>)
    requires Sequential(g.relationships) && TraceSpec(g, ids, event, cutoff, maxDepth, t)
    requires Reaches(g, cutoff, t, nodes, edges) && 1 <= |edges| <= maxDepth
    ensures HasIds(t.paths, edges)
  {
    ReachesIsSimplePath(g, cutoff, t, nodes, edges);
    hide SimplePath, Reaches, StartsOf, Sequential, HasIds;
  }

  lemma AnswersAreOrdered(g: Graph, ids: Ids, event: CanonicalEvent, cutoff: Time, maxDepth: int, t: EventTrace,
                          i: nat, j: nat)
    requires TraceSpec(g, ids, event, cutoff, maxDepth, t) && i < j < |t.paths|
    ensures t.paths[i].relationshipIds != t.paths[j].relationshipIds && Precedes(ids, t.paths[i], t.paths[j])
  {
    assert PathOrder(ids)(t.paths[i], t.paths[j]);
    OrderIsPrecedes(ids, t.paths[i], t.paths[j]);
    hide Precedes, PathOrder;
  }

  lemma {:induction false} DistinctKeepsOrder(xs: seq<string>, a: string, b: string)
    requires Before(Distinct(xs), a, b)
    ensures OccursFirst(xs, a, b)
  {
    var n := |xs| - 1;
    var rest, all := Distinct(xs[..n]), Distinct(xs);
    var i, j :| 0 <= i < j < |all| && all[i] == a && all[j] == b;
    assert rest[i] == a && a in xs[..n];
    if j < |rest| {
      DistinctKeepsOrder(xs[..n], a, b);
      var k :| 0 <= k < n && xs[..n][k] == a && b !in xs[..n][..k];
      assert xs[..n][..k] == xs[..k];
    } else {
      var k :| 0 <= k < n && xs[..n][k] == a;
      assert forall x :: x in xs[..k] ==> x in xs[..n];
    }
  }

  lemma PathLeadsBack(g: Graph, ids: Ids, event: CanonicalEvent, cutoff: Time, maxDepth: int, t: EventTrace,
                      p: GraphPath)
    requires TraceSpec(g, ids, event, cutoff, maxDepth, t) && p in t.paths
    ensures LeadsBack(t, p)
  {
    var starts := StartsOf(t.directEntities, t.candidateMechanisms);
    if |p.relationshipIds| == 1 && |p.entityIds| == 2 && p.entityIds[1] in starts {
      assert Before(starts, p.entityIds[1], p.entityIds[0]);
      DistinctKeepsOrder(t.directEntities + t.candidateMechanisms, p.entityIds[1], p.entityIds[0]);
    }
  }

  /** An answer that meets the specification of a trace is the answer described here. */
  lemma TraceAnswersTheQuestion(g: Graph, ids: Ids, event: CanonicalEvent, cutoff: Time, maxDepth: int, t: EventTrace)
    requires Sequential(g.relationships) && TraceSpec(g, ids, event, cutoff, maxDepth, t)
    ensures Answers(g, ids, event, cutoff, maxDepth, t)
  {
    assert t.eventId == event.eventId && t.cutoff == cutoff;
    hide NamesTheStarts, IsAnswer, Reaches, HasIds, Precedes, LeadsBack, TraceSpec, Sequential;
    TraceNamesTheStarts(g, ids, event, cutoff, maxDepth, t);
    forall p | p in t.paths ensures IsAnswer(g, event, cutoff, maxDepth, t, p) {
      PathIsAnswer(g, ids, event, cutoff, maxDepth, t, p);
    }
    forall nodes, edges | Reaches(g, cutoff, t, nodes, edges) && 1 <= |edges| <= maxDepth
      ensures HasIds(t.paths, edges)
    {
      AnswersAreComplete(g, ids, event, cutoff, maxDepth, t, nodes, edges);
    }
    forall i, j | 0 <= i < j < |t.paths|
      ensures t.paths[i].relationshipIds != t.paths[j].relationshipIds && Precedes(ids, t.paths[i], t.paths[j])
    {
      AnswersAreOrdered(g, ids, event, cutoff, maxDepth, t, i, j);
    }
    forall p | p in t.paths ensures LeadsBack(t, p) {
      PathLeadsBack(g, ids, event, cutoff, maxDepth, t, p);
    }
  }
}
