/** `trace_event`: bounded breadth-first enumeration of simple paths through the active edges. */
module EventTracing {
  import opened Prelude
  import opened Ordering
  import opened Bitemporal
  import opened KnowledgeGraph
  import RealFacts

  /** The fields of a canonical event that tracing reads. */
  datatype CanonicalEvent = CanonicalEvent(
    eventId: string,
    entities: seq<string>,
    causalMechanisms: seq<string>,
    confidence: real,
    evidenceIds: set<string>,
    firstObservedAt: Time
  )

  /** The stored events by identifier, and when each stored piece of evidence was observed. */
  datatype EventRecords = EventRecords(events: map<string, CanonicalEvent>, evidence: map<string, Time>)

  /** The event of an identifier, if it and all its evidence, of which it needs some, were observed by the cutoff. */
  function EventAt(records: EventRecords, id: string, cutoff: Time): (event: Option<CanonicalEvent>)
    ensures event.Some? ==> event.value.firstObservedAt <= cutoff && event.value.evidenceIds != {}
    ensures event.Some? ==> forall e :: e in event.value.evidenceIds ==>
              e in records.evidence && records.evidence[e] <= cutoff
  {
    if id !in records.events || records.events[id].firstObservedAt > cutoff then None
    else
      var event := records.events[id];
      if event.evidenceIds != {} && (forall e :: e in event.evidenceIds ==>
                                     e in records.evidence && records.evidence[e] <= cutoff)
      then Some(event)
      else None
  }

  /** The records have grown by events and evidence observed after the cutoff. */
  ghost predicate GrownAfter(records: EventRecords, later: EventRecords, cutoff: Time) {
    && (forall id :: id in records.events ==> id in later.events && later.events[id] == records.events[id])
    && (forall id :: id in later.events && id !in records.events ==> later.events[id].firstObservedAt > cutoff)
    && (forall e :: e in records.evidence ==> e in later.evidence && later.evidence[e] == records.evidence[e])
    && (forall e :: e in later.evidence && e !in records.evidence ==> later.evidence[e] > cutoff)
  }

  /** Whether an event is visible at a cutoff does not depend on what is observed later. */
  lemma LaterRecordsChangeNoEvent(records: EventRecords, later: EventRecords, id: string, cutoff: Time)
    requires GrownAfter(records, later, cutoff)
    ensures EventAt(later, id, cutoff) == EventAt(records, id, cutoff)
  {
    if id in records.events && records.events[id].firstObservedAt <= cutoff {
      var event := records.events[id];
      forall e | e in event.evidenceIds
        ensures (e in records.evidence && records.evidence[e] <= cutoff) <==>
                  (e in later.evidence && later.evidence[e] <= cutoff)
      {
      }
    }
  }

  datatype GraphPath = GraphPath(
    entityIds: seq<string>,
    relationshipIds: seq<Relationship>,
    relationshipVersions: seq<int>,
    provenance: set<string>,
    confidence: real
  )

  datatype EventTrace = EventTrace(
    eventId: string,
    cutoff: Time,
    directEntities: seq<string>,
    candidateMechanisms: seq<string>,
    paths: seq<GraphPath>
  )

  // ---------------------------------------------------------------------------------------------
  // Specification: simple paths
  // ---------------------------------------------------------------------------------------------

  predicate Connects(r: Relationship, a: string, b: string) {
    (r.key.source == a && r.key.target == b) || (r.key.source == b && r.key.target == a)
  }

  ghost predicate AllDistinct<T>(xs: seq<T>) {
    forall i, j :: 0 <= i < j < |xs| ==> xs[i] != xs[j]
  }

  /** nodes is a path without repeated nodes, from a start, along active edges in either direction. */
  ghost predicate SimplePath(starts: seq<string>, edges: seq<Relationship>, cutoff: Time,
                             nodes: seq<string>, rels: seq<Relationship>) {
    && |nodes| == |rels| + 1
    && nodes[0] in starts
    && AllDistinct(nodes)
    && forall i :: 0 <= i < |rels| ==> ActiveEdge(edges, cutoff, rels[i]) && Connects(rels[i], nodes[i], nodes[i + 1])
  }

  /** The event's confidence times the confidences of the edges. */
  function Confidence(event: CanonicalEvent, rels: seq<Relationship>): real {
    if rels == [] then event.confidence
    else Confidence(event, rels[..|rels| - 1]) * rels[|rels| - 1].data.body.confidence
  }

  /** The event's evidence together with the provenance of the edges. */
  function Provenance(event: CanonicalEvent, rels: seq<Relationship>): set<string> {
    if rels == [] then event.evidenceIds
    else Provenance(event, rels[..|rels| - 1]) + rels[|rels| - 1].data.body.provenance
  }

  function Versions(rels: seq<Relationship>): seq<int> {
    seq(|rels|, i requires 0 <= i < |rels| => rels[i].version)
  }

  function PathOf(event: CanonicalEvent, nodes: seq<string>, rels: seq<Relationship>): GraphPath {
    GraphPath(nodes, rels, Versions(rels), Provenance(event, rels), Confidence(event, rels))
  }

  function VisibleEntity(entities: seq<EntityVersion>, cutoff: Time): string -> bool {
    id => LatestVisible(entities, id, cutoff).Some?
  }

  function MechanismEntities(ids: seq<string>): seq<string> {
    seq(|ids|, i requires 0 <= i < |ids| => "mechanism." + ids[i])
  }

  /** The visible ones among the given entity ids, sorted. */
  function VisibleSorted(entities: seq<EntityVersion>, cutoff: Time, ids: seq<string>): seq<string> {
    SortBy(Filter(ids, VisibleEntity(entities, cutoff)), StringLeq)
  }

  function StartsOf(direct: seq<string>, mechanisms: seq<string>): seq<string> {
    Distinct(direct + mechanisms)
  }

  /** The identifier of a relationship, a hash of its content. */
  type Ids = Relationship -> string

  /** Different stored relationships have different identifiers. */
  ghost predicate Identifying(ids: Ids, edges: seq<Relationship>) {
    forall r, q :: r in edges && q in edges && ids(r) == ids(q) ==> r == q
  }

  function PathIds(ids: Ids, p: GraphPath): seq<string> {
    seq(|p.relationshipIds|, i requires 0 <= i < |p.relationshipIds| => ids(p.relationshipIds[i]))
  }

  /** The final sort key: the number of edges, then the identifiers. */
  function PathOrder(ids: Ids): (GraphPath, GraphPath) -> bool {
    (p: GraphPath, q: GraphPath) =>
      |p.relationshipIds| < |q.relationshipIds|
      || (|p.relationshipIds| == |q.relationshipIds| && TupleLeq(PathIds(ids, p), PathIds(ids, q)))
  }

  /** Everything that the answer of `trace_event` promises. */
  ghost predicate TraceSpec(g: Graph, ids: Ids, event: CanonicalEvent, cutoff: Time, maxDepth: int, t: EventTrace) {
    var starts := StartsOf(t.directEntities, t.candidateMechanisms);
    && t.eventId == event.eventId && t.cutoff == cutoff
    && t.directEntities == VisibleSorted(g.entities, cutoff, event.entities)
    && t.candidateMechanisms == VisibleSorted(g.entities, cutoff, MechanismEntities(event.causalMechanisms))
    && (forall p :: p in t.paths ==> Enumerated(starts, g.relationships, cutoff, event, maxDepth, p))
    && (forall nodes, rels :: SimplePath(starts, g.relationships, cutoff, nodes, rels) && 1 <= |rels| <= maxDepth
                              ==> HasIds(t.paths, rels))
    && (forall i, j :: 0 <= i < j < |t.paths| ==> t.paths[i].relationshipIds != t.paths[j].relationshipIds)
    && Sorted(t.paths, PathOrder(ids))
    && (forall p :: p in t.paths && |p.relationshipIds| == 1 && p.entityIds[1] in starts
                    ==> Before(starts, p.entityIds[1], p.entityIds[0]))
  }

  /** p is one of the enumerated paths, and its other fields follow from its nodes and edges. */
  ghost predicate Enumerated(starts: seq<string>, edges: seq<Relationship>, cutoff: Time, event: CanonicalEvent,
                             maxDepth: int, p: GraphPath) {
    && SimplePath(starts, edges, cutoff, p.entityIds, p.relationshipIds)
    && 1 <= |p.relationshipIds| <= maxDepth
    && p == PathOf(event, p.entityIds, p.relationshipIds)
  }

  predicate HasIds(paths: seq<GraphPath>, rels: seq<Relationship>) {
    exists p :: p in paths && p.relationshipIds == rels
  }

  predicate Before(starts: seq<string>, a: string, b: string) {
    exists i, j :: 0 <= i < j < |starts| && starts[i] == a && starts[j] == b
  }

  // ---------------------------------------------------------------------------------------------
  // What the final de-duplication can lose
  // ---------------------------------------------------------------------------------------------

  /** The edges of a simple path of two or more edges determine its nodes. */
  lemma {:induction false} EdgeIdsFixNodes(starts: seq<string>, edges: seq<Relationship>, cutoff: Time,
                                           ns: seq<string>, ms: seq<string>, rels: seq<Relationship>)
    requires SimplePath(starts, edges, cutoff, ns, rels) && SimplePath(starts, edges, cutoff, ms, rels)
    requires |rels| >= 2 || ns[0] == ms[0]
    ensures ns == ms
  {
    if |rels| >= 2 {
      assert Connects(rels[0], ns[0], ns[1]) && Connects(rels[0], ms[0], ms[1]);
      assert Connects(rels[1], ns[1], ns[2]) && Connects(rels[1], ms[1], ms[2]);
    }
    var k := 0;
    while k < |rels|
      invariant 0 <= k <= |rels|
      invariant forall i :: 0 <= i <= k ==> ns[i] == ms[i]
    {
      assert Connects(rels[k], ns[k], ns[k + 1]) && Connects(rels[k], ms[k], ms[k + 1]);
      k := k + 1;
    }
  }

  /** Two enumerated paths with the same edges: the same path, or one edge walked both ways. */
  lemma CollisionsAreReversedEdges(starts: seq<string>, edges: seq<Relationship>, cutoff: Time,
                                   ns: seq<string>, ms: seq<string>, rels: seq<Relationship>)
    requires SimplePath(starts, edges, cutoff, ns, rels) && 1 <= |rels|
    ensures SimplePath(starts, edges, cutoff, ms, rels) && ms != ns <==>
            |rels| == 1 && ns[1] in starts && ms == [ns[1], ns[0]]
  {
    if SimplePath(starts, edges, cutoff, ms, rels) && ms != ns {
      if |rels| >= 2 || ns[0] == ms[0] {
        EdgeIdsFixNodes(starts, edges, cutoff, ns, ms, rels);
      } else {
        assert Connects(rels[0], ns[0], ns[1]) && Connects(rels[0], ms[0], ms[1]);
        assert ms == [ms[0], ms[1]];
      }
    }
  }

  /** Hence every enumerated path survives, unless it is a single edge between two starts. */
  lemma TraceKeepsEveryPath(g: Graph, ids: Ids, event: CanonicalEvent, cutoff: Time, maxDepth: int, t: EventTrace,
                            nodes: seq<string>, rels: seq<Relationship>)
    requires TraceSpec(g, ids, event, cutoff, maxDepth, t)
    requires var starts := StartsOf(t.directEntities, t.candidateMechanisms);
             SimplePath(starts, g.relationships, cutoff, nodes, rels) && 1 <= |rels| <= maxDepth
    ensures var starts := StartsOf(t.directEntities, t.candidateMechanisms);
            PathOf(event, nodes, rels) in t.paths <==>
            |rels| >= 2 || nodes[1] !in starts || Before(starts, nodes[1], nodes[0])
  {
    var starts := StartsOf(t.directEntities, t.candidateMechanisms);
    assert HasIds(t.paths, rels);
    var p :| p in t.paths && p.relationshipIds == rels;
    CollisionsAreReversedEdges(starts, g.relationships, cutoff, nodes, p.entityIds, rels);
    if PathOf(event, nodes, rels) in t.paths {
      assert PathOf(event, nodes, rels).entityIds == nodes;
    }
    if p.entityIds != nodes {
      assert p.entityIds == [nodes[1], nodes[0]];
      assert Before(starts, nodes[0], nodes[1]);
    }
  }

  /** A path is at most as credible as the event and as its weakest edge. */
  lemma {:induction false} ConfidenceOfWeakestLink(event: CanonicalEvent, rels: seq<Relationship>)
    requires 0.0 <= event.confidence <= 1.0
    requires forall r :: r in rels ==> ValidRelationship(r)
    ensures 0.0 <= Confidence(event, rels) <= event.confidence
    ensures forall r :: r in rels ==> Confidence(event, rels) <= r.data.body.confidence
  {
    if rels != [] {
      var n := |rels| - 1;
      ConfidenceOfWeakestLink(event, rels[..n]);
      var c := Confidence(event, rels[..n]);
      var last := rels[n].data.body.confidence;
      assert ValidRelationship(rels[n]);
      WeakerProduct(c, last, Confidence(event, rels));
      assert rels == rels[..n] + [rels[n]];
      hide Confidence;
    }
  }

  lemma WeakerProduct(c: real, x: real, product: real)
    requires 0.0 <= c <= 1.0 && 0.0 <= x <= 1.0 && product == c * x
    ensures 0.0 <= product && product <= c && product <= x
  {
    RealFacts.ProductNonNegative(c, x);
    RealFacts.ProductNonNegative(c, 1.0 - x);
    RealFacts.ProductNonNegative(1.0 - c, x);
    assert c * (1.0 - x) == c - product;
    assert (1.0 - c) * x == x - product;
  }

  // ---------------------------------------------------------------------------------------------
  // The enumeration
  // ---------------------------------------------------------------------------------------------

  datatype Walk = Walk(
    node: string,
    nodes: seq<string>,
    relationIds: seq<Relationship>,
    versions: seq<int>,
    confidence: real,
    provenance: set<string>
  )

  ghost function WalkOf(event: CanonicalEvent, nodes: seq<string>, rels: seq<Relationship>): Walk
    requires nodes != []
  {
    Walk(nodes[|nodes| - 1], nodes, rels, Versions(rels), Confidence(event, rels), Provenance(event, rels))
  }

  function ToPath(w: Walk): GraphPath {
    GraphPath(w.nodes, w.relationIds, w.versions, w.provenance, w.confidence)
  }

  /** The walks of a level: all simple paths with exactly n edges. */
  ghost predicate Level(starts: seq<string>, edges: seq<Relationship>, cutoff: Time, event: CanonicalEvent,
                        n: nat, walks: seq<Walk>) {
    && (forall w :: w in walks ==> IsWalk(starts, edges, cutoff, event, n, w))
    && (forall nodes, rels :: SimplePath(starts, edges, cutoff, nodes, rels) && |rels| == n
                              ==> WalkOf(event, nodes, rels) in walks)
  }

  ghost predicate ExtendsBy(w: Walk, r: Relationship, next: Walk) {
    && Connects(r, w.node, next.node) && next.node !in w.nodes
    && next.nodes == w.nodes + [next.node]
    && next.relationIds == w.relationIds + [r]
    && next.versions == w.versions + [r.version]
    && next.confidence == w.confidence * r.data.body.confidence
    && next.provenance == w.provenance + r.data.body.provenance
  }

  function Extended(w: Walk, r: Relationship): Walk {
    var target := if r.key.source == w.node then r.key.target else r.key.source;
    Walk(target, w.nodes + [target], w.relationIds + [r], w.versions + [r.version],
         w.confidence * r.data.body.confidence, w.provenance + r.data.body.provenance)
  }

  lemma OnlyExtension(w: Walk, r: Relationship, s: Walk)
    requires w.node in w.nodes && Touches(r.key, w.node)
    ensures ExtendsBy(w, r, s) <==> s == Extended(w, r) && s.node !in w.nodes
  {
  }

  /** The loop over the relationships of one frontier node. */
  method ExtendWalk(w: Walk, relationships: seq<Relationship>) returns (steps: seq<Walk>)
    requires forall r :: r in relationships ==> Touches(r.key, w.node)
    requires w.node in w.nodes
    ensures forall s :: s in steps ==> exists r :: r in relationships && ExtendsBy(w, r, s)
    ensures forall r, s :: r in relationships && ExtendsBy(w, r, s) ==> s in steps
  {
    steps := [];
    for i := 0 to |relationships|
      invariant forall s :: s in steps ==> exists r :: r in relationships && ExtendsBy(w, r, s)
      invariant forall j, s :: 0 <= j < i && ExtendsBy(w, relationships[j], s) ==> s in steps
    {
      var r := relationships[i];
      var target := if r.key.source == w.node then r.key.target else r.key.source;
      ghost var extended := Extended(w, r);
      forall s ensures ExtendsBy(w, r, s) <==> s == extended && target !in w.nodes {
        OnlyExtension(w, r, s);
      }
      if target in w.nodes {
        continue;
      }
      var next := Walk(target, w.nodes + [target], w.relationIds + [r], w.versions + [r.version],
                       w.confidence * r.data.body.confidence, w.provenance + r.data.body.provenance);
      assert ExtendsBy(w, r, next);
      steps := steps + [next];
    }
  }

  lemma ExtensionIsWalk(starts: seq<string>, edges: seq<Relationship>, cutoff: Time, event: CanonicalEvent,
                        w: Walk, r: Relationship, s: Walk)
    requires SimplePath(starts, edges, cutoff, w.nodes, w.relationIds) && w == WalkOf(event, w.nodes, w.relationIds)
    requires ActiveEdge(edges, cutoff, r) && ExtendsBy(w, r, s)
    ensures SimplePath(starts, edges, cutoff, s.nodes, s.relationIds) && s == WalkOf(event, s.nodes, s.relationIds)
  {
    hide ActiveEdge;
    assert s.relationIds[..|s.relationIds| - 1] == w.relationIds;
    assert s.versions == Versions(s.relationIds);
  }

  lemma WalkIsExtension(starts: seq<string>, edges: seq<Relationship>, cutoff: Time, event: CanonicalEvent,
                        nodes: seq<string>, rels: seq<Relationship>)
    requires SimplePath(starts, edges, cutoff, nodes, rels) && rels != []
    ensures var n := |rels| - 1;
            && SimplePath(starts, edges, cutoff, nodes[..n + 1], rels[..n])
            && ActiveEdge(edges, cutoff, rels[n]) && Touches(rels[n].key, nodes[n])
            && ExtendsBy(WalkOf(event, nodes[..n + 1], rels[..n]), rels[n], WalkOf(event, nodes, rels))
  {
    var n := |rels| - 1;
    assert nodes == nodes[..n + 1] + [nodes[n + 1]];
    assert rels == rels[..n] + [rels[n]];
    assert Connects(rels[n], nodes[n], nodes[n + 1]);
    assert Versions(rels) == Versions(rels[..n]) + [rels[n].version];
  }

  /** Where each new walk came from: positions in the frontier, in non-decreasing order. */
  ghost predicate Origins(frontier: seq<Walk>, next: seq<Walk>, origin: seq<nat>) {
    && |origin| == |next|
    && (forall i :: 0 <= i < |origin| ==>
          origin[i] < |frontier| && frontier[origin[i]].nodes + [next[i].node] == next[i].nodes)
    && (forall i, j :: 0 <= i < j < |origin| ==> origin[i] <= origin[j])
  }

  ghost predicate IsWalk(starts: seq<string>, edges: seq<Relationship>, cutoff: Time, event: CanonicalEvent, n: nat,
                         w: Walk) {
    SimplePath(starts, edges, cutoff, w.nodes, w.relationIds) && |w.relationIds| == n
        && w == WalkOf(event, w.nodes, w.relationIds)
  }

  /** All extensions of one walk by one visible active edge. */
  method ExtendThroughGraph(starts: seq<string>, edges: seq<Relationship>, cutoff: Time, ghost event: CanonicalEvent,
                            ghost n: nat, w: Walk)
    returns (steps: seq<Walk>)
    requires Sequential(edges)
    requires IsWalk(starts, edges, cutoff, event, n, w)
    ensures forall s :: s in steps ==> IsWalk(starts, edges, cutoff, event, n + 1, s) && s.nodes == w.nodes + [s.node]
    ensures forall r, s :: ActiveEdge(edges, cutoff, r) && ExtendsBy(w, r, s) ==> s in steps
  {
    var relationships := ActiveEdgesAt(edges, w.node, cutoff);
    steps := ExtendWalk(w, relationships);
    forall s | s in steps ensures IsWalk(starts, edges, cutoff, event, n + 1, s) && s.nodes == w.nodes + [s.node] {
      var r :| r in relationships && ExtendsBy(w, r, s);
      ExtensionIsWalk(starts, edges, cutoff, event, w, r, s);
    }
    forall r, s | ActiveEdge(edges, cutoff, r) && ExtendsBy(w, r, s) ensures s in steps {
      assert r in relationships;
    }
  }

  /** Every extension of w is among the given walks. */
  ghost predicate Covered(edges: seq<Relationship>, cutoff: Time, w: Walk, walks: seq<Walk>) {
    forall r, s :: ActiveEdge(edges, cutoff, r) && ExtendsBy(w, r, s) ==> s in walks
  }

  lemma CoveredConcat(edges: seq<Relationship>, cutoff: Time, w: Walk, xs: seq<Walk>, ys: seq<Walk>)
    requires Covered(edges, cutoff, w, xs) || Covered(edges, cutoff, w, ys)
    ensures Covered(edges, cutoff, w, xs + ys)
  {
  }

  lemma OriginsConcat(frontier: seq<Walk>, next: seq<Walk>, origin: seq<nat>, steps: seq<Walk>, k: nat)
    requires Origins(frontier, next, origin) && (forall i :: 0 <= i < |origin| ==> origin[i] < k) && k < |frontier|
    requires forall s :: s in steps ==> s.nodes == frontier[k].nodes + [s.node]
    ensures Origins(frontier, next + steps, origin + seq(|steps|, _ => k))
  {
    forall i | 0 <= i < |steps| ensures steps[i].nodes == frontier[k].nodes + [steps[i].node] {
      assert steps[i] in steps;
    }
  }

  /** What the round has done after the first k walks of the frontier. */
  ghost predicate Expanding(starts: seq<string>, edges: seq<Relationship>, cutoff: Time, event: CanonicalEvent,
                            n: nat, frontier: seq<Walk>, k: nat, next: seq<Walk>, origin: seq<nat>)
    requires k <= |frontier|
  {
    && (forall s :: s in next ==> IsWalk(starts, edges, cutoff, event, n + 1, s))
    && (forall j :: 0 <= j < k ==> Covered(edges, cutoff, frontier[j], next))
    && Origins(frontier, next, origin)
    && forall i :: 0 <= i < |origin| ==> origin[i] < k
  }

  lemma ExpandOne(starts: seq<string>, edges: seq<Relationship>, cutoff: Time, event: CanonicalEvent,
                  n: nat, frontier: seq<Walk>, k: nat, next: seq<Walk>, origin: seq<nat>, steps: seq<Walk>)
    requires k < |frontier| && Expanding(starts, edges, cutoff, event, n, frontier, k, next, origin)
    requires forall s :: s in steps ==>
               IsWalk(starts, edges, cutoff, event, n + 1, s) && s.nodes == frontier[k].nodes + [s.node]
    requires Covered(edges, cutoff, frontier[k], steps)
    ensures Expanding(starts, edges, cutoff, event, n, frontier, k + 1, next + steps, origin + seq(|steps|, _ => k))
  {
    forall j | 0 <= j <= k ensures Covered(edges, cutoff, frontier[j], next + steps) {
      CoveredConcat(edges, cutoff, frontier[j], next, steps);
    }
    OriginsConcat(frontier, next, origin, steps, k);
    hide IsWalk, Covered, Origins;
  }

  /** One round of the breadth-first search: a level of walks gives the next level. */
  method Expand(starts: seq<string>, edges: seq<Relationship>, cutoff: Time, ghost event: CanonicalEvent,
                ghost n: nat, frontier: seq<Walk>)
    returns (next: seq<Walk>, ghost origin: seq<nat>)
    requires Sequential(edges)
    requires Level(starts, edges, cutoff, event, n, frontier)
    ensures Level(starts, edges, cutoff, event, n + 1, next)
    ensures Origins(frontier, next, origin)
  {
    next, origin := [], [];
    assert forall w :: w in frontier ==> IsWalk(starts, edges, cutoff, event, n, w);
    assert Origins(frontier, next, origin);
    hide Level, IsWalk, Origins, Sequential, ExtendsBy, ActiveEdge;
    for k := 0 to |frontier|
      invariant Expanding(starts, edges, cutoff, event, n, frontier, k, next, origin)
    {
      assert frontier[k] in frontier;
      var steps := ExtendThroughGraph(starts, edges, cutoff, event, n, frontier[k]);
      ExpandOne(starts, edges, cutoff, event, n, frontier, k, next, origin, steps);
      next := next + steps;
      origin := origin + seq(|steps|, _ => k);
    }
    NextLevel(starts, edges, cutoff, event, n, frontier, next);
  }

  lemma NextLevel(starts: seq<string>, edges: seq<Relationship>, cutoff: Time, event: CanonicalEvent,
                  n: nat, frontier: seq<Walk>, next: seq<Walk>)
    requires Level(starts, edges, cutoff, event, n, frontier)
    requires forall s :: s in next ==> IsWalk(starts, edges, cutoff, event, n + 1, s)
    requires forall j :: 0 <= j < |frontier| ==> Covered(edges, cutoff, frontier[j], next)
    ensures Level(starts, edges, cutoff, event, n + 1, next)
  {
    forall nodes, rels | SimplePath(starts, edges, cutoff, nodes, rels) && |rels| == n + 1
      ensures WalkOf(event, nodes, rels) in next
    {
      WalkIsExtension(starts, edges, cutoff, event, nodes, rels);
      var w := WalkOf(event, nodes[..n + 1], rels[..n]);
      var j :| 0 <= j < |frontier| && frontier[j] == w;
      assert Covered(edges, cutoff, frontier[j], next);
    }
  }

  // ---------------------------------------------------------------------------------------------
  // The whole search
  // ---------------------------------------------------------------------------------------------

  function Index(starts: seq<string>, s: string): (i: nat)
    requires s in starts
    ensures i < |starts| && starts[i] == s
  {
    if starts[0] == s then 0 else 1 + Index(starts[1..], s)
  }

  ghost predicate Sound(starts: seq<string>, edges: seq<Relationship>, cutoff: Time, event: CanonicalEvent,
                        depth: int, paths: seq<GraphPath>) {
    forall p :: p in paths ==> Enumerated(starts, edges, cutoff, event, depth, p)
  }

  ghost predicate Complete(starts: seq<string>, edges: seq<Relationship>, cutoff: Time, event: CanonicalEvent,
                           depth: int, paths: seq<GraphPath>) {
    forall nodes, rels :: SimplePath(starts, edges, cutoff, nodes, rels) && 1 <= |rels| <= depth
                          ==> PathOf(event, nodes, rels) in paths
  }

  /** Single-edge paths appear in the order of their starts. */
  ghost predicate SinglesInStartOrder(starts: seq<string>, paths: seq<GraphPath>) {
    forall i, j :: 0 <= i < j < |paths| && |paths[i].relationshipIds| == 1 == |paths[j].relationshipIds|
                   && |paths[i].entityIds| > 0 && |paths[j].entityIds| > 0
                   && paths[i].entityIds[0] in starts && paths[j].entityIds[0] in starts
                   ==> Index(starts, paths[i].entityIds[0]) <= Index(starts, paths[j].entityIds[0])
  }

  function ToPaths(walks: seq<Walk>): (paths: seq<GraphPath>)
    ensures |paths| == |walks|
    ensures forall i :: 0 <= i < |walks| ==> paths[i] == ToPath(walks[i])
  {
    seq(|walks|, i requires 0 <= i < |walks| => ToPath(walks[i]))
  }

  lemma AddLevel(starts: seq<string>, edges: seq<Relationship>, cutoff: Time, event: CanonicalEvent,
                 depth: nat, paths: seq<GraphPath>, walks: seq<Walk>)
    requires Sound(starts, edges, cutoff, event, depth, paths) && Complete(starts, edges, cutoff, event, depth, paths)
    requires Level(starts, edges, cutoff, event, depth + 1, walks)
    ensures Sound(starts, edges, cutoff, event, depth + 1, paths + ToPaths(walks))
    ensures Complete(starts, edges, cutoff, event, depth + 1, paths + ToPaths(walks))
  {
    var more := ToPaths(walks);
    forall p | p in more ensures Enumerated(starts, edges, cutoff, event, depth + 1, p) {
      var i :| 0 <= i < |more| && more[i] == p;
      assert walks[i] in walks;
    }
    forall nodes, rels | SimplePath(starts, edges, cutoff, nodes, rels) && |rels| == depth + 1
      ensures PathOf(event, nodes, rels) in more
    {
      var w := WalkOf(event, nodes, rels);
      assert w in walks;
      var i :| 0 <= i < |walks| && walks[i] == w;
      assert more[i] == PathOf(event, nodes, rels);
    }
  }

  /** An empty level stays empty: no simple path has that many edges or more. */
  lemma EmptyLevel(starts: seq<string>, edges: seq<Relationship>, cutoff: Time, event: CanonicalEvent,
                   depth: nat, nodes: seq<string>, rels: seq<Relationship>)
    requires Level(starts, edges, cutoff, event, depth, [])
    requires SimplePath(starts, edges, cutoff, nodes, rels)
    ensures |rels| < depth
  {
    if depth <= |rels| {
      var ns, rs := nodes[..depth + 1], rels[..depth];
      assert SimplePath(starts, edges, cutoff, ns, rs);
    }
  }

  lemma FirstLevel(starts: seq<string>, edges: seq<Relationship>, cutoff: Time, event: CanonicalEvent, walks: seq<Walk>)
    requires |walks| == |starts|
    requires forall i :: 0 <= i < |starts| ==>
                         walks[i] == Walk(starts[i], [starts[i]], [], [], event.confidence, event.evidenceIds)
    ensures Level(starts, edges, cutoff, event, 0, walks)
  {
    forall nodes, rels | SimplePath(starts, edges, cutoff, nodes, rels) && |rels| == 0
      ensures WalkOf(event, nodes, rels) in walks
    {
      var i :| 0 <= i < |starts| && starts[i] == nodes[0];
      assert nodes == [starts[i]] && rels == [];
      assert walks[i] == WalkOf(event, nodes, rels);
    }
  }

  lemma SinglesOrdered(starts: seq<string>, walks: seq<Walk>, next: seq<Walk>, origin: seq<nat>)
    requires AllDistinct(starts) && |walks| == |starts|
    requires forall i :: 0 <= i < |starts| ==> walks[i].nodes == [starts[i]]
    requires Origins(walks, next, origin)
    ensures SinglesInStartOrder(starts, ToPaths(next))
  {
    forall i | 0 <= i < |next| ensures next[i].nodes[0] in starts && Index(starts, next[i].nodes[0]) == origin[i] {
      assert next[i].nodes[0] == starts[origin[i]];
    }
  }

  /**
   What the depth loop keeps: the frontier is the level of that depth, and paths holds exactly the shorter simple
   paths.
   */
  ghost predicate Enumerating(starts: seq<string>, edges: seq<Relationship>, cutoff: Time, event: CanonicalEvent,
                              depth: nat, frontier: seq<Walk>, paths: seq<GraphPath>) {
    && Level(starts, edges, cutoff, event, depth, frontier)
    && Sound(starts, edges, cutoff, event, depth, paths)
    && Complete(starts, edges, cutoff, event, depth, paths)
    && SinglesInStartOrder(starts, paths)
    && (depth == 0 ==>
          paths == [] && |frontier| == |starts| && forall i :: 0 <= i < |starts| ==> frontier[i].nodes == [starts[i]])
  }

  function StartWalks(starts: seq<string>, event: CanonicalEvent): seq<Walk> {
    seq(|starts|, i requires 0 <= i < |starts| => Walk(starts[i], [starts[i]], [], [], event.confidence,
                                                       event.evidenceIds))
  }

  lemma EnumerationStarts(starts: seq<string>, edges: seq<Relationship>, cutoff: Time, event: CanonicalEvent)
    ensures Enumerating(starts, edges, cutoff, event, 0, StartWalks(starts, event), [])
  {
    FirstLevel(starts, edges, cutoff, event, StartWalks(starts, event));
    hide Level;
  }

  lemma EnumerationSteps(starts: seq<string>, edges: seq<Relationship>, cutoff: Time, event: CanonicalEvent,
                         depth: nat, frontier: seq<Walk>, paths: seq<GraphPath>, next: seq<Walk>, origin: seq<nat>)
    requires AllDistinct(starts) && Enumerating(starts, edges, cutoff, event, depth, frontier, paths)
    requires Level(starts, edges, cutoff, event, depth + 1, next) && Origins(frontier, next, origin)
    ensures Enumerating(starts, edges, cutoff, event, depth + 1, next, paths + ToPaths(next))
  {
    AddLevel(starts, edges, cutoff, event, depth, paths, next);
    SinglesKeepOrder(starts, edges, cutoff, event, depth, frontier, paths, next, origin);
    hide Level, Sound, Complete, SinglesInStartOrder;
  }

  lemma SinglesKeepOrder(starts: seq<string>, edges: seq<Relationship>, cutoff: Time, event: CanonicalEvent,
                         depth: nat, frontier: seq<Walk>, paths: seq<GraphPath>, next: seq<Walk>, origin: seq<nat>)
    requires AllDistinct(starts) && Enumerating(starts, edges, cutoff, event, depth, frontier, paths)
    requires Level(starts, edges, cutoff, event, depth + 1, next) && Origins(frontier, next, origin)
    ensures SinglesInStartOrder(starts, paths + ToPaths(next))
  {
    if depth == 0 {
      hide Level, Sound, Complete, SinglesInStartOrder;
      SinglesOrdered(starts, frontier, next, origin);
      assert paths + ToPaths(next) == ToPaths(next);
    } else {
      LongerThanOne(starts, edges, cutoff, event, depth, next);
      hide Level, Sound, Complete;
    }
  }

  lemma LongerThanOne(starts: seq<string>, edges: seq<Relationship>, cutoff: Time, event: CanonicalEvent, depth: nat,
                      next: seq<Walk>)
    requires depth >= 1 && Level(starts, edges, cutoff, event, depth + 1, next)
    ensures forall i :: 0 <= i < |next| ==> |ToPaths(next)[i].relationshipIds| > 1
  {
    forall i | 0 <= i < |next| ensures |ToPaths(next)[i].relationshipIds| > 1 {
      assert next[i] in next;
    }
  }

  /** Once the frontier is empty there are no longer paths, so the enumeration is complete for every depth. */
  lemma EnumerationEnds(starts: seq<string>, edges: seq<Relationship>, cutoff: Time, event: CanonicalEvent,
                        depth: nat, maxDepth: int, frontier: seq<Walk>, paths: seq<GraphPath>)
    requires Enumerating(starts, edges, cutoff, event, depth, frontier, paths)
    requires depth == 0 || depth <= maxDepth
    requires depth < maxDepth ==> frontier == []
    ensures Sound(starts, edges, cutoff, event, maxDepth, paths)
            && Complete(starts, edges, cutoff, event, maxDepth, paths)
  {
    hide Level, SinglesInStartOrder;
    if depth < maxDepth {
      forall nodes, rels | SimplePath(starts, edges, cutoff, nodes, rels) && 1 <= |rels| <= maxDepth
        ensures PathOf(event, nodes, rels) in paths
      {
        EmptyLevel(starts, edges, cutoff, event, depth, nodes, rels);
      }
    }
  }

  /** The depth loop of `trace_event`. */
  method EnumeratePaths(starts: seq<string>, edges: seq<Relationship>, cutoff: Time, event: CanonicalEvent,
                        maxDepth: int)
    returns (paths: seq<GraphPath>)
    requires Sequential(edges) && AllDistinct(starts)
    ensures Sound(starts, edges, cutoff, event, maxDepth, paths)
    ensures Complete(starts, edges, cutoff, event, maxDepth, paths)
    ensures SinglesInStartOrder(starts, paths)
  {
    paths := [];
    var frontier := StartWalks(starts, event);
    EnumerationStarts(starts, edges, cutoff, event);
    hide Level, Sound, Complete, SinglesInStartOrder, Origins, StartWalks, Sequential;
    var depth := 0;
    while depth < maxDepth
      invariant 0 <= depth && (depth <= maxDepth || depth == 0)
      invariant Enumerating(starts, edges, cutoff, event, depth, frontier, paths)
    {
      var next, origin := Expand(starts, edges, cutoff, event, depth, frontier);
      EnumerationSteps(starts, edges, cutoff, event, depth, frontier, paths, next, origin);
      paths := paths + ToPaths(next);
      frontier := next;
      depth := depth + 1;
      if frontier == [] {
        break;
      }
    }
    EnumerationEnds(starts, edges, cutoff, event, depth, maxDepth, frontier, paths);
  }

  /** What the dictionary holds after n paths: under every key the last path with those edges. */
  ghost predicate Collected(paths: seq<GraphPath>, n: nat, order: seq<seq<Relationship>>,
                            values: map<seq<Relationship>, GraphPath>)
    requires n <= |paths|
  {
    && AllDistinct(order) && (forall ids :: ids in order <==> ids in values)
    && (forall ids :: ids in values ==> values[ids].relationshipIds == ids && LastWith(paths[..n], values[ids]))
    && forall i :: 0 <= i < n ==> paths[i].relationshipIds in values
  }

  lemma CollectOne(paths: seq<GraphPath>, n: nat, order: seq<seq<Relationship>>,
                   values: map<seq<Relationship>, GraphPath>)
    requires n < |paths| && Collected(paths, n, order, values)
    ensures var ids := paths[n].relationshipIds;
            Collected(paths, n + 1, if ids in values then order else order + [ids], values[ids := paths[n]])
  {
    var p := paths[n];
    assert paths[..n + 1][n] == p && LastWith(paths[..n + 1], p);
    forall ids | ids in values && ids != p.relationshipIds ensures LastWith(paths[..n + 1], values[ids]) {
      LastWithLater(paths, n, values[ids]);
    }
    hide LastWith;
  }

  lemma CollectedAll(paths: seq<GraphPath>, order: seq<seq<Relationship>>, values: map<seq<Relationship>, GraphPath>,
                     unique: seq<GraphPath>)
    requires Collected(paths, |paths|, order, values)
    requires |unique| == |order| && forall i :: 0 <= i < |order| ==> order[i] in values && unique[i] == values[order[i]]
    ensures forall i, j :: 0 <= i < j < |unique| ==> unique[i].relationshipIds != unique[j].relationshipIds
    ensures forall p :: p in unique <==> LastWith(paths, p)
    ensures forall p :: p in paths ==> HasIds(unique, p.relationshipIds)
  {
    assert paths[..|paths|] == paths;
    forall p | p in unique ensures LastWith(paths, p) {
      var k :| 0 <= k < |unique| && unique[k] == p;
      assert order[k] in values;
    }
    forall p | p in paths ensures HasIds(unique, p.relationshipIds) {
      var k :| 0 <= k < |order| && order[k] == p.relationshipIds;
      assert unique[k] in unique;
    }
    forall p | LastWith(paths, p) ensures p in unique {
      LastWithIsMember(paths, p);
      var k :| 0 <= k < |order| && order[k] == p.relationshipIds;
      LastUnique(paths, p, unique[k]);
    }
    hide LastWith;
  }

  lemma LastWithIsMember(paths: seq<GraphPath>, p: GraphPath)
    requires LastWith(paths, p)
    ensures p in paths
  {
  }

  /** `{path.relationship_ids: path for path in paths}`: the last path with given edges wins. */
  method Deduplicate(paths: seq<GraphPath>) returns (unique: seq<GraphPath>)
    ensures forall i, j :: 0 <= i < j < |unique| ==> unique[i].relationshipIds != unique[j].relationshipIds
    ensures forall p :: p in unique <==> LastWith(paths, p)
    ensures forall p :: p in paths ==> HasIds(unique, p.relationshipIds)
  {
    var order: seq<seq<Relationship>> := [];
    var values: map<seq<Relationship>, GraphPath> := map[];
    hide LastWith;
    for n := 0 to |paths|
      invariant Collected(paths, n, order, values)
    {
      CollectOne(paths, n, order, values);
      var ids := paths[n].relationshipIds;
      if ids !in values {
        order := order + [ids];
      }
      values := values[ids := paths[n]];
    }
    unique := seq(|order|, i requires 0 <= i < |order| && order[i] in values => values[order[i]]);
    CollectedAll(paths, order, values, unique);
  }

  /** p is the last path of the sequence with its edges. */
  predicate LastWith(paths: seq<GraphPath>, p: GraphPath) {
    exists i :: 0 <= i < |paths| && paths[i] == p
                && forall j :: i < j < |paths| ==> paths[j].relationshipIds != p.relationshipIds
  }

  lemma LastWithLater(paths: seq<GraphPath>, n: nat, p: GraphPath)
    requires n < |paths| && LastWith(paths[..n], p) && paths[n].relationshipIds != p.relationshipIds
    ensures LastWith(paths[..n + 1], p)
  {
    var i :| 0 <= i < n && paths[..n][i] == p && forall j :: i < j < n ==>
        paths[..n][j].relationshipIds != p.relationshipIds;
    var longer := paths[..n + 1];
    assert longer[i] == p;
    forall j | i < j < n + 1 ensures longer[j].relationshipIds != p.relationshipIds {
      assert j < n ==> longer[j] == paths[..n][j];
    }
  }

  lemma LastUnique(paths: seq<GraphPath>, p: GraphPath, q: GraphPath)
    requires LastWith(paths, p) && LastWith(paths, q) && p.relationshipIds == q.relationshipIds
    ensures p == q
  {
  }

  /** Of two orientations of one edge, the one from the later start is kept. */
  lemma LaterStartWins(starts: seq<string>, edges: seq<Relationship>, cutoff: Time, event: CanonicalEvent,
                       maxDepth: int, paths: seq<GraphPath>, p: GraphPath)
    requires Sound(starts, edges, cutoff, event, maxDepth, paths)
    requires Complete(starts, edges, cutoff, event, maxDepth, paths)
    requires SinglesInStartOrder(starts, paths)
    requires LastWith(paths, p) && |p.relationshipIds| == 1 && |p.entityIds| == 2 && p.entityIds[1] in starts
    ensures Before(starts, p.entityIds[1], p.entityIds[0])
  {
    var i :| 0 <= i < |paths| && paths[i] == p
             && forall j :: i < j < |paths| ==> paths[j].relationshipIds != p.relationshipIds;
    assert Enumerated(starts, edges, cutoff, event, maxDepth, p);
    var reversed := [p.entityIds[1], p.entityIds[0]];
    CollisionsAreReversedEdges(starts, edges, cutoff, p.entityIds, reversed, p.relationshipIds);
    var q := PathOf(event, reversed, p.relationshipIds);
    assert q in paths;
    var j :| 0 <= j < |paths| && paths[j] == q;
    assert j < i;
    var a, b := Index(starts, q.entityIds[0]), Index(starts, p.entityIds[0]);
    assert a <= b && starts[a] == p.entityIds[1] && starts[b] == p.entityIds[0];
  }

  lemma SortedPaths(ids: Ids, unique: seq<GraphPath>, paths: seq<GraphPath>)
    requires forall i, j :: 0 <= i < j < |unique| ==> unique[i].relationshipIds != unique[j].relationshipIds
    requires paths == SortBy(unique, PathOrder(ids))
    ensures forall p :: p in paths <==> p in unique
    ensures forall rels :: HasIds(paths, rels) <==> HasIds(unique, rels)
    ensures forall i, j :: 0 <= i < j < |paths| ==> paths[i].relationshipIds != paths[j].relationshipIds
    ensures Sorted(paths, PathOrder(ids))
  {
    PathOrderIsTotal(ids);
    SortBySorted(unique, PathOrder(ids));
    SortByMembers(unique, PathOrder(ids));
    SortByDistinct(unique, PathOrder(ids));
    hide PathOrder, SortBy;
    forall i, j | 0 <= i < j < |paths| ensures paths[i].relationshipIds != paths[j].relationshipIds {
      assert paths[i] in unique && paths[j] in unique && paths[i] != paths[j];
    }
  }

  lemma PathOrderIsTotal(ids: Ids)
    ensures TotalPreorder(PathOrder(ids))
  {
    hide PathIds;
    forall p, q ensures PathOrder(ids)(p, q) || PathOrder(ids)(q, p) {
      TupleLeqTotal(PathIds(ids, p), PathIds(ids, q));
    }
    forall p, q, r | PathOrder(ids)(p, q) && PathOrder(ids)(q, r) ensures PathOrder(ids)(p, r) {
      if |p.relationshipIds| == |q.relationshipIds| == |r.relationshipIds| {
        TupleLeqTransitive(PathIds(ids, p), PathIds(ids, q), PathIds(ids, r));
      }
    }
  }

  /** The assembled answer meets its specification. */
  lemma TraceAssembled(g: Graph, ids: Ids, event: CanonicalEvent, cutoff: Time, maxDepth: int,
                       paths: seq<GraphPath>, unique: seq<GraphPath>, t: EventTrace)
    requires t.eventId == event.eventId && t.cutoff == cutoff && t.paths == SortBy(unique, PathOrder(ids))
    requires t.directEntities == VisibleSorted(g.entities, cutoff, event.entities)
    requires t.candidateMechanisms == VisibleSorted(g.entities, cutoff, MechanismEntities(event.causalMechanisms))
    requires var starts := StartsOf(t.directEntities, t.candidateMechanisms);
             && Sound(starts, g.relationships, cutoff, event, maxDepth, paths)
             && Complete(starts, g.relationships, cutoff, event, maxDepth, paths)
             && SinglesInStartOrder(starts, paths)
    requires forall i, j :: 0 <= i < j < |unique| ==> unique[i].relationshipIds != unique[j].relationshipIds
    requires forall p :: p in unique <==> LastWith(paths, p)
    requires forall p :: p in paths ==> HasIds(unique, p.relationshipIds)
    ensures TraceSpec(g, ids, event, cutoff, maxDepth, t)
  {
    var starts := StartsOf(t.directEntities, t.candidateMechanisms);
    hide SimplePath, Enumerated, Complete, Sound, SinglesInStartOrder, PathOrder, LastWith, SortBy, Sorted, HasIds,
        Before, StartsOf, VisibleSorted;
    SortedPaths(ids, unique, t.paths);
    NothingLost(starts, g.relationships, cutoff, event, maxDepth, paths, unique);
    UniqueAreEnumerated(starts, g.relationships, cutoff, event, maxDepth, paths, unique);
    LaterStartsWin(starts, g.relationships, cutoff, event, maxDepth, paths, unique);
  }

  lemma UniqueAreEnumerated(starts: seq<string>, edges: seq<Relationship>, cutoff: Time, event: CanonicalEvent,
                            maxDepth: int, paths: seq<GraphPath>, unique: seq<GraphPath>)
    requires Sound(starts, edges, cutoff, event, maxDepth, paths) && forall p :: p in unique <==> LastWith(paths, p)
    ensures forall p :: p in unique ==> Enumerated(starts, edges, cutoff, event, maxDepth, p)
    ensures forall p :: p in unique && |p.relationshipIds| == 1 ==> |p.entityIds| == 2
  {
    hide Enumerated, LastWith;
    forall p | p in unique
      ensures Enumerated(starts, edges, cutoff, event, maxDepth, p) && (|p.relationshipIds| == 1 ==> |p.entityIds| == 2)
    {
      LastWithIsMember(paths, p);
      EndsOfSingle(starts, edges, cutoff, event, maxDepth, p);
    }
  }

  lemma LaterStartsWin(starts: seq<string>, edges: seq<Relationship>, cutoff: Time, event: CanonicalEvent,
                       maxDepth: int, paths: seq<GraphPath>, unique: seq<GraphPath>)
    requires Sound(starts, edges, cutoff, event, maxDepth, paths)
             && Complete(starts, edges, cutoff, event, maxDepth, paths)
    requires SinglesInStartOrder(starts, paths) && forall p :: p in unique ==> LastWith(paths, p)
    ensures forall p :: p in unique && |p.relationshipIds| == 1 && |p.entityIds| == 2 && p.entityIds[1] in starts
                        ==> Before(starts, p.entityIds[1], p.entityIds[0])
  {
    hide Sound, Complete, SinglesInStartOrder, LastWith, Before;
    forall p | p in unique && |p.relationshipIds| == 1 && |p.entityIds| == 2 && p.entityIds[1] in starts
      ensures Before(starts, p.entityIds[1], p.entityIds[0])
    {
      LaterStartWins(starts, edges, cutoff, event, maxDepth, paths, p);
    }
  }

  lemma EndsOfSingle(starts: seq<string>, edges: seq<Relationship>, cutoff: Time, event: CanonicalEvent,
                     maxDepth: int, p: GraphPath)
    requires Enumerated(starts, edges, cutoff, event, maxDepth, p)
    ensures |p.entityIds| == |p.relationshipIds| + 1
  {
  }

  /** Every simple path up to the depth leaves its edges among the unique paths. */
  lemma NothingLost(starts: seq<string>, edges: seq<Relationship>, cutoff: Time, event: CanonicalEvent,
                    maxDepth: int, paths: seq<GraphPath>, unique: seq<GraphPath>)
    requires Complete(starts, edges, cutoff, event, maxDepth, paths)
    requires forall p :: p in paths ==> HasIds(unique, p.relationshipIds)
    ensures forall nodes, rels :: SimplePath(starts, edges, cutoff, nodes, rels) && 1 <= |rels| <= maxDepth ==>
              HasIds(unique, rels)
  {
    hide HasIds;
    forall nodes, rels | SimplePath(starts, edges, cutoff, nodes, rels) && 1 <= |rels| <= maxDepth
      ensures HasIds(unique, rels)
    {
      var p := PathOf(event, nodes, rels);
      assert p in paths && p.relationshipIds == rels;
    }
  }

  // ---------------------------------------------------------------------------------------------
  // One answer only
  // ---------------------------------------------------------------------------------------------

  /** The order tells enumerated paths with different edges apart. */
  lemma PathOrderSeparates(ids: Ids, edges: seq<Relationship>, p: GraphPath, q: GraphPath)
    requires Identifying(ids, edges) && PathOrder(ids)(p, q) && PathOrder(ids)(q, p)
    requires (forall r :: r in p.relationshipIds ==> r in edges) && forall r :: r in q.relationshipIds ==> r in edges
    ensures p.relationshipIds == q.relationshipIds
  {
    TupleLeqTotal(PathIds(ids, p), PathIds(ids, q));
    assert PathIds(ids, p) == PathIds(ids, q);
    forall i | 0 <= i < |p.relationshipIds| ensures p.relationshipIds[i] == q.relationshipIds[i] {
      assert PathIds(ids, p)[i] == PathIds(ids, q)[i];
      assert p.relationshipIds[i] in p.relationshipIds && q.relationshipIds[i] in q.relationshipIds;
    }
  }

  lemma TracedEdgesAreStored(g: Graph, ids: Ids, event: CanonicalEvent, cutoff: Time, maxDepth: int, t: EventTrace,
                             p: GraphPath)
    requires TraceSpec(g, ids, event, cutoff, maxDepth, t) && p in t.paths
    ensures forall r :: r in p.relationshipIds ==> r in g.relationships
  {
    var starts := StartsOf(t.directEntities, t.candidateMechanisms);
    assert Enumerated(starts, g.relationships, cutoff, event, maxDepth, p);
    forall r | r in p.relationshipIds ensures r in g.relationships {
      var i :| 0 <= i < |p.relationshipIds| && p.relationshipIds[i] == r;
      assert ActiveEdge(g.relationships, cutoff, r);
    }
  }

  lemma TracedPathsAgree(g: Graph, ids: Ids, event: CanonicalEvent, cutoff: Time, maxDepth: int, t: EventTrace,
                         u: EventTrace, p: GraphPath)
    requires TraceSpec(g, ids, event, cutoff, maxDepth, t) && TraceSpec(g, ids, event, cutoff, maxDepth, u)
             && p in t.paths
    ensures p in u.paths
  {
    var starts := StartsOf(t.directEntities, t.candidateMechanisms);
    assert Enumerated(starts, g.relationships, cutoff, event, maxDepth, p);
    TraceKeepsEveryPath(g, ids, event, cutoff, maxDepth, t, p.entityIds, p.relationshipIds);
    TraceKeepsEveryPath(g, ids, event, cutoff, maxDepth, u, p.entityIds, p.relationshipIds);
  }

  /** The specification of a trace leaves nothing open: tables, event, cutoff and depth determine the answer. */
  lemma TraceIsUnique(g: Graph, ids: Ids, event: CanonicalEvent, cutoff: Time, maxDepth: int, t: EventTrace,
                      u: EventTrace)
    requires Identifying(ids, g.relationships)
    requires TraceSpec(g, ids, event, cutoff, maxDepth, t) && TraceSpec(g, ids, event, cutoff, maxDepth, u)
    ensures t == u
  {
    forall p ensures p in t.paths <==> p in u.paths {
      if p in t.paths {
        TracedPathsAgree(g, ids, event, cutoff, maxDepth, t, u, p);
      }
      if p in u.paths {
        TracedPathsAgree(g, ids, event, cutoff, maxDepth, u, t, p);
      }
    }
    forall p, q | p in t.paths && q in t.paths && PathOrder(ids)(p, q) && PathOrder(ids)(q, p) ensures p == q {
      TracedEdgesAreStored(g, ids, event, cutoff, maxDepth, t, p);
      TracedEdgesAreStored(g, ids, event, cutoff, maxDepth, t, q);
      PathOrderSeparates(ids, g.relationships, p, q);
      var i :| 0 <= i < |t.paths| && t.paths[i] == p;
      var j :| 0 <= j < |t.paths| && t.paths[j] == q;
      assert i == j;
    }
    SameSortedPaths(ids, t.paths, u.paths);
  }

  lemma SameSortedPaths(ids: Ids, ps: seq<GraphPath>, qs: seq<GraphPath>)
    requires Sorted(ps, PathOrder(ids)) && Sorted(qs, PathOrder(ids))
    requires forall i, j :: 0 <= i < j < |ps| ==> ps[i].relationshipIds != ps[j].relationshipIds
    requires forall i, j :: 0 <= i < j < |qs| ==> qs[i].relationshipIds != qs[j].relationshipIds
    requires forall p :: p in ps <==> p in qs
    requires forall p, q :: p in ps && q in ps && PathOrder(ids)(p, q) && PathOrder(ids)(q, p) ==> p == q
    ensures ps == qs
  {
    PathOrderIsTotal(ids);
    hide PathOrder, Sorted;
    SameMembersSameMultiset(ps, qs);
    SortedUnique(ps, qs, PathOrder(ids));
  }
}
