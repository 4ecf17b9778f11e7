/** The bitemporal knowledge graph: append-only tables, version checks, alias index, as-of queries. */
module KnowledgeGraph {
  import opened Prelude
  import opened Ordering
  import opened Bitemporal

  datatype EntityData = EntityData(
    canonicalName: string,
    englishName: string,
    hebrewName: Option<string>,
    aliases: seq<string>,
    identifiers: seq<string>
  )
  type EntityVersion = Row<string, EntityData>

  datatype RecordStatus = Active | Superseded | Retracted
  datatype EdgeKey = EdgeKey(source: string, target: string, kind: string)
  datatype EdgeData<+B> = EdgeData(status: RecordStatus, body: B)
  type Edge<+B> = Row<EdgeKey, EdgeData<B>>

  datatype RelationshipBody = RelationshipBody(confidence: real, provenance: set<string>)
  type Relationship = Edge<RelationshipBody>
  datatype ExposureBody = ExposureBody(
    direction: string,
    strength: string,
    quantity: Option<(string, string)>,
    confidence: real,
    sourceEvidence: set<string>
  )
  type Exposure = Edge<ExposureBody>

  datatype AliasRecord = AliasRecord(
    alias: string,
    normalized: string,
    entity: EntityVersion,
    validFrom: Time,
    validUntil: Option<Time>,
    observedAt: Time
  )

  datatype Graph = Graph(
    entities: seq<EntityVersion>,
    aliases: seq<AliasRecord>,
    relationships: seq<Relationship>,
    exposures: seq<Exposure>
  )

  const EMPTY := Graph([], [], [], [])

  /** What the record constructors check before a row can exist. */
  predicate ValidPeriod<K, P>(row: Row<K, P>) {
    && row.version >= 1
    && (row.validUntil.Some? ==> row.validFrom < row.validUntil.value)
  }

  predicate ValidRelationship(r: Relationship) {
    ValidPeriod(r) && r.key.source != r.key.target && 0.0 <= r.data.body.confidence <= 1.0
  }

  /** Alias normalisation (NFKC, case folding, word characters only) is left uninterpreted. */
  type Normalizer = string -> string

  /** The name set of an entity version, in the order in which its alias rows are added. */
  function NamesOf(v: EntityVersion): seq<string> {
    SortBy(Distinct(AllNames(v.data)), StringLeq)
  }

  function AllNames(data: EntityData): seq<string> {
    [data.canonicalName, data.englishName] + data.aliases + data.identifiers
    + if data.hebrewName.Some? && data.hebrewName.value != "" then [data.hebrewName.value] else []
  }

  lemma NamesOfMembers(v: EntityVersion)
    ensures forall s :: s in NamesOf(v) <==> s in AllNames(v.data)
  {
    SortByMembers(Distinct(AllNames(v.data)), StringLeq);
  }

  // ---------------------------------------------------------------------------------------------
  // What every operation does to the tables
  // ---------------------------------------------------------------------------------------------

  type Added = Result<bool, Violation>

  function AddAlias(g: Graph, a: AliasRecord): (Graph, Added) {
    if a.entity !in g.entities then (g, Err(IntegrityViolation))
    else if a in g.aliases then (g, Ok(false))
    else (g.(aliases := g.aliases + [a]), Ok(true))
  }

  function AliasFor(v: EntityVersion, name: string, normalize: Normalizer): AliasRecord {
    AliasRecord(name, normalize(name), v, v.validFrom, v.validUntil, v.observedAt)
  }

  /** Indexes the names one by one; a name without letters or digits raises and stops the loop. */
  function AddNames(g: Graph, v: EntityVersion, names: seq<string>, normalize: Normalizer): (Graph, Added)
    decreases |names|
  {
    if names == [] then (g, Ok(true))
    else if normalize(names[0]) == "" then (g, Err(ValidationError))
    else
      var (g', r) := AddAlias(g, AliasFor(v, names[0], normalize));
      if r.Err? then (g', r) else AddNames(g', v, names[1..], normalize)
  }

  function AddEntity(g: Graph, v: EntityVersion, normalize: Normalizer): (Graph, Added) {
    if v in g.entities then (g, Ok(false))
    else if v.version != NextVersion(g.entities, v.key) then (g, Err(IntegrityViolation))
    else AddNames(g.(entities := g.entities + [v]), v, NamesOf(v), normalize)
  }

  function AddEdge<B(==)>(entities: seq<EntityVersion>, edges: seq<Edge<B>>, e: Edge<B>): (seq<Edge<B>>, Added) {
    if e in edges then (edges, Ok(false))
    else if LatestVisible(entities, e.key.source, e.observedAt).None?
         || LatestVisible(entities, e.key.target, e.observedAt).None? then (edges, Err(IntegrityViolation))
    else if e.version != NextVersion(edges, e.key) then (edges, Err(IntegrityViolation))
    else (edges + [e], Ok(true))
  }

  datatype Op =
    | EntityOp(entity: EntityVersion)
    | AliasOp(alias: AliasRecord)
    | RelationshipOp(relationship: Relationship)
    | ExposureOp(exposure: Exposure)
  {
    function ObservedAt(): Time {
      match this
      case EntityOp(v) => v.observedAt
      case AliasOp(a) => a.observedAt
      case RelationshipOp(r) => r.observedAt
      case ExposureOp(x) => x.observedAt
    }
  }

  function Apply(g: Graph, op: Op, normalize: Normalizer): (Graph, Added) {
    match op
    case EntityOp(v) => AddEntity(g, v, normalize)
    case AliasOp(a) => AddAlias(g, a)
    case RelationshipOp(r) =>
      var (edges, added) := AddEdge(g.entities, g.relationships, r);
      (g.(relationships := edges), added)
    case ExposureOp(x) =>
      var (edges, added) := AddEdge(g.entities, g.exposures, x);
      (g.(exposures := edges), added)
  }

  /** The tables after a whole series of calls, whether or not some of them raised. */
  function Run(g: Graph, ops: seq<Op>, normalize: Normalizer): Graph
    decreases |ops|
  {
    if ops == [] then g else Run(Apply(g, ops[0], normalize).0, ops[1..], normalize)
  }

  // ---------------------------------------------------------------------------------------------
  // Versions
  // ---------------------------------------------------------------------------------------------

  /** In all three versioned tables the versions of a key are 1..n in order of insertion. */
  ghost predicate Versioned(g: Graph) {
    Sequential(g.entities) && Sequential(g.relationships) && Sequential(g.exposures)
  }

  lemma {:induction false} AddNamesKeepsRows(g: Graph, v: EntityVersion, names: seq<string>, normalize: Normalizer)
    ensures var g' := AddNames(g, v, names, normalize).0;
            g'.entities == g.entities && g'.relationships == g.relationships && g'.exposures == g.exposures
            && g.aliases <= g'.aliases
    decreases |names|
  {
    if names != [] && normalize(names[0]) != "" {
      AddNamesKeepsRows(AddAlias(g, AliasFor(v, names[0], normalize)).0, v, names[1..], normalize);
    }
  }

  lemma ApplyKeepsVersions(g: Graph, op: Op, normalize: Normalizer)
    requires Versioned(g)
    ensures Versioned(Apply(g, op, normalize).0)
  {
    match op
    case EntityOp(v) =>
      if v !in g.entities && v.version == NextVersion(g.entities, v.key) {
        SequentialAppend(g.entities, v);
        AddNamesKeepsRows(g.(entities := g.entities + [v]), v, NamesOf(v), normalize);
      }
    case AliasOp(_) =>
    case RelationshipOp(r) =>
      if r.version == NextVersion(g.relationships, r.key) {
        SequentialAppend(g.relationships, r);
      }
    case ExposureOp(x) =>
      if x.version == NextVersion(g.exposures, x.key) {
        SequentialAppend(g.exposures, x);
      }
  }

  /** Whatever is added and whatever is rejected, versions stay gap-free in every table. */
  lemma {:induction false} RunKeepsVersions(g: Graph, ops: seq<Op>, normalize: Normalizer)
    requires Versioned(g)
    ensures Versioned(Run(g, ops, normalize))
    decreases |ops|
  {
    if ops != [] {
      ApplyKeepsVersions(g, ops[0], normalize);
      RunKeepsVersions(Apply(g, ops[0], normalize).0, ops[1..], normalize);
    }
  }

  // ---------------------------------------------------------------------------------------------
  // Alias rows
  // ---------------------------------------------------------------------------------------------

  /** Alias rows are unique and each belongs to a stored entity version. */
  ghost predicate SoundAliases(g: Graph) {
    && (forall i, j :: 0 <= i < j < |g.aliases| ==> g.aliases[i] != g.aliases[j])
    && forall a :: a in g.aliases ==> a.entity in g.entities
  }

  lemma AddAliasKeepsAliases(g: Graph, a: AliasRecord)
    requires SoundAliases(g)
    ensures SoundAliases(AddAlias(g, a).0)
  {
  }

  lemma {:induction false} AddNamesKeepsAliases(g: Graph, v: EntityVersion, names: seq<string>, normalize: Normalizer)
    requires SoundAliases(g)
    ensures SoundAliases(AddNames(g, v, names, normalize).0)
    decreases |names|
  {
    if names != [] && normalize(names[0]) != "" {
      AddAliasKeepsAliases(g, AliasFor(v, names[0], normalize));
      AddNamesKeepsAliases(AddAlias(g, AliasFor(v, names[0], normalize)).0, v, names[1..], normalize);
    }
  }

  lemma ApplyKeepsAliases(g: Graph, op: Op, normalize: Normalizer)
    requires SoundAliases(g)
    ensures SoundAliases(Apply(g, op, normalize).0)
  {
    hide NamesOf, AddNames;
    match op
    case EntityOp(v) =>
      AddNamesKeepsAliases(g.(entities := g.entities + [v]), v, NamesOf(v), normalize);
    case AliasOp(a) =>
    case RelationshipOp(_) =>
    case ExposureOp(_) =>
  }

  /** Over every run of adds no alias row is stored twice or dangles. */
  lemma {:induction false} RunKeepsAliases(g: Graph, ops: seq<Op>, normalize: Normalizer)
    requires SoundAliases(g)
    ensures SoundAliases(Run(g, ops, normalize))
    decreases |ops|
  {
    hide SoundAliases;
    if ops != [] {
      ApplyKeepsAliases(g, ops[0], normalize);
      RunKeepsAliases(Apply(g, ops[0], normalize).0, ops[1..], normalize);
    }
  }

  // ---------------------------------------------------------------------------------------------
  // Anchored edges
  // ---------------------------------------------------------------------------------------------

  predicate VisibleAt(entities: seq<EntityVersion>, id: string, t: Time) {
    LatestVisible(entities, id, t).Some?
  }

  ghost predicate AnchoredEdges<B>(entities: seq<EntityVersion>, edges: seq<Edge<B>>) {
    forall i :: 0 <= i < |edges| ==>
      VisibleAt(entities, edges[i].key.source, edges[i].observedAt)
          && VisibleAt(entities, edges[i].key.target, edges[i].observedAt)
  }

  /** Both ends of every stored edge are entities that were visible when the edge was observed. */
  ghost predicate Anchored(g: Graph) {
    AnchoredEdges(g.entities, g.relationships) && AnchoredEdges(g.entities, g.exposures)
  }

  lemma MoreEntitiesStayVisible(entities: seq<EntityVersion>, v: EntityVersion, id: string, t: Time)
    requires VisibleAt(entities, id, t)
    ensures VisibleAt(entities + [v], id, t)
  {
    var visible := LatestVisible(entities, id, t).value;
    var i :| 0 <= i < |entities| && entities[i] == visible;
    assert (entities + [v])[i] == visible;
  }

  lemma MoreEntitiesKeepAnchors<B>(entities: seq<EntityVersion>, v: EntityVersion, edges: seq<Edge<B>>)
    requires AnchoredEdges(entities, edges)
    ensures AnchoredEdges(entities + [v], edges)
  {
    hide VisibleAt;
    forall i | 0 <= i < |edges|
      ensures VisibleAt(entities + [v], edges[i].key.source, edges[i].observedAt)
              && VisibleAt(entities + [v], edges[i].key.target, edges[i].observedAt)
    {
      MoreEntitiesStayVisible(entities, v, edges[i].key.source, edges[i].observedAt);
      MoreEntitiesStayVisible(entities, v, edges[i].key.target, edges[i].observedAt);
    }
  }

  lemma ApplyKeepsAnchors(g: Graph, op: Op, normalize: Normalizer)
    requires Anchored(g)
    ensures Anchored(Apply(g, op, normalize).0)
  {
    match op
    case EntityOp(v) =>
      if v !in g.entities && v.version == NextVersion(g.entities, v.key) {
        MoreEntitiesKeepAnchors(g.entities, v, g.relationships);
        MoreEntitiesKeepAnchors(g.entities, v, g.exposures);
        AddNamesKeepsRows(g.(entities := g.entities + [v]), v, NamesOf(v), normalize);
      }
    case AliasOp(_) =>
    case RelationshipOp(r) =>
    case ExposureOp(x) =>
  }

  /** Over every run of adds no edge dangles. */
  lemma {:induction false} RunKeepsAnchors(g: Graph, ops: seq<Op>, normalize: Normalizer)
    requires Anchored(g)
    ensures Anchored(Run(g, ops, normalize))
    decreases |ops|
  {
    hide Anchored;
    if ops != [] {
      ApplyKeepsAnchors(g, ops[0], normalize);
      RunKeepsAnchors(Apply(g, ops[0], normalize).0, ops[1..], normalize);
    }
  }

  // ---------------------------------------------------------------------------------------------
  // Edges
  // ---------------------------------------------------------------------------------------------

  /** The global view: the latest visible version of its key, if that version is active. */
  predicate ActiveEdge<B(==)>(edges: seq<Edge<B>>, cutoff: Time, e: Edge<B>) {
    e.data.status.Active? && LatestVisible(edges, e.key, cutoff) == Some(e)
  }

  predicate Touches(key: EdgeKey, node: string) {
    key.source == node || key.target == node
  }

  function EdgeSelection<B>(node: string, cutoff: Time): Edge<B> -> bool {
    (e: Edge<B>) => Touches(e.key, node) && Visible(e, cutoff)
  }

  function KeyParts(key: EdgeKey): seq<string> {
    [key.source, key.target, key.kind]
  }

  /** ORDER BY source, target, type, version DESC; strings compare by code point. */
  predicate SelectionOrder<B>(a: Edge<B>, b: Edge<B>) {
    if a.key == b.key then a.version >= b.version else TupleLeq(KeyParts(a.key), KeyParts(b.key))
  }

  lemma KeyPartsFixKey(a: EdgeKey, b: EdgeKey)
    requires KeyParts(a) == KeyParts(b)
    ensures a == b
  {
    assert KeyParts(a)[0] == a.source && KeyParts(a)[1] == a.target && KeyParts(a)[2] == a.kind;
    assert KeyParts(b)[0] == b.source && KeyParts(b)[1] == b.target && KeyParts(b)[2] == b.kind;
  }

  /** a comes before b by source, then by target, then by type. */
  ghost predicate KeyBefore(a: EdgeKey, b: EdgeKey) {
    if a.source != b.source then StringLeq(a.source, b.source)
    else if a.target != b.target then StringLeq(a.target, b.target)
    else a.kind != b.kind && StringLeq(a.kind, b.kind)
  }

  lemma KeyPartsOrder(a: EdgeKey, b: EdgeKey)
    requires a != b && TupleLeq(KeyParts(a), KeyParts(b))
    ensures KeyBefore(a, b)
  {
    var x, y := KeyParts(a), KeyParts(b);
    assert x == [a.source, a.target, a.kind] && y == [b.source, b.target, b.kind];
    assert x[1..] == [a.target, a.kind] && y[1..] == [b.target, b.kind];
    assert x[1..][1..] == [a.kind] && y[1..][1..] == [b.kind];
    hide StringLeq;
    if a.source == b.source && a.target == b.target {
      assert TupleLeq(x[1..], y[1..]) && TupleLeq([a.kind], [b.kind]);
    } else if a.source == b.source {
      assert TupleLeq([a.target, a.kind], [b.target, b.kind]);
    }
  }

  lemma SelectionOrderIsTotal<B(!new)>()
    ensures TotalPreorder(SelectionOrder<B>)
  {
    hide KeyParts;
    forall a: Edge<B>, b: Edge<B> ensures SelectionOrder(a, b) || SelectionOrder(b, a) {
      TupleLeqTotal(KeyParts(a.key), KeyParts(b.key));
    }
    forall a: Edge<B>, b: Edge<B>, c: Edge<B> | SelectionOrder(a, b) && SelectionOrder(b, c)
        ensures SelectionOrder(a, c) {
      SelectionOrderTransitive(a, b, c);
    }
  }

  lemma SelectionOrderTransitive<B(!new)>(a: Edge<B>, b: Edge<B>, c: Edge<B>)
    requires SelectionOrder(a, b) && SelectionOrder(b, c)
    ensures SelectionOrder(a, c)
  {
    hide KeyParts, TupleLeq;
    if a.key != b.key && b.key != c.key {
      TupleLeqTransitive(KeyParts(a.key), KeyParts(b.key), KeyParts(c.key));
      if a.key == c.key {
        TupleLeqTotal(KeyParts(a.key), KeyParts(b.key));
        KeyPartsFixKey(a.key, b.key);
      }
    }
  }

  predicate IsActive<B>(e: Edge<B>) {
    e.data.status.Active?
  }

  /** row is, among the first n rows, the first one of its key. */
  predicate FirstOfKey<K(==), P(==)>(models: seq<Row<K, P>>, n: nat, row: Row<K, P>)
    requires n <= |models|
  {
    exists i :: 0 <= i < n && models[i] == row && forall j :: 0 <= j < i ==> models[j].key != row.key
  }

  /** `_latest_records`: the first row of every key, in the order of the rows. */
  method LatestRecords<K(==, !new), P(==, !new)>(models: seq<Row<K, P>>, ghost leq: (Row<K, P>, Row<K, P>) -> bool)
    returns (latest: seq<Row<K, P>>)
    requires Sorted(models, leq)
    ensures forall i, j :: 0 <= i < j < |latest| ==> latest[i].key != latest[j].key
    ensures forall row :: row in latest <==> FirstOfKey(models, |models|, row)
    ensures Sorted(latest, leq)
  {
    var seen: set<K> := {};
    latest := [];
    assert FirstRows(models, 0, seen, latest);
    hide FirstRows;
    for n := 0 to |models|
      invariant FirstRows(models, n, seen, latest)
      invariant Sorted(latest, leq)
    {
      FirstRowsStep(models, n, seen, latest);
      NextRowIsLast(models, n, seen, latest, leq);
      var identity := models[n].key;
      if identity !in seen {
        seen := seen + {identity};
        latest := latest + [models[n]];
      }
    }
    FirstRowsAll(models, seen, latest);
  }

  lemma NextRowIsLast<K(!new), P(!new)>(models: seq<Row<K, P>>, n: nat, seen: set<K>, latest: seq<Row<K, P>>,
                                        leq: (Row<K, P>, Row<K, P>) -> bool)
    requires n < |models| && FirstRows(models, n, seen, latest) && Sorted(models, leq) && Sorted(latest, leq)
    ensures Sorted(latest + [models[n]], leq)
  {
    forall i | 0 <= i < |latest| ensures leq(latest[i], models[n]) {
      assert latest[i] in latest && FirstOfKey(models, n, latest[i]);
      var k :| 0 <= k < n && models[k] == latest[i];
    }
  }

  /** What the loop has kept of the first n rows. */
  ghost predicate FirstRows<K(!new), P(!new)>(models: seq<Row<K, P>>, n: nat, seen: set<K>, latest: seq<Row<K, P>>)
    requires n <= |models|
  {
    && (forall key :: key in seen <==> HasKey(models, n, key))
    && (forall row :: row in latest ==> row.key in seen)
    && (forall i, j :: 0 <= i < j < |latest| ==> latest[i].key != latest[j].key)
    && forall row :: row in latest <==> FirstOfKey(models, n, row)
  }

  lemma FirstRowsStep<K(!new), P(!new)>(models: seq<Row<K, P>>, n: nat, seen: set<K>, latest: seq<Row<K, P>>)
    requires n < |models| && FirstRows(models, n, seen, latest)
    ensures var row := models[n];
            if row.key in seen then FirstRows(models, n + 1, seen, latest)
            else FirstRows(models, n + 1, seen + {row.key}, latest + [row])
  {
    FirstOfKeyStep(models, n);
    hide FirstOfKey, HasKey;
  }

  lemma FirstRowsAll<K(!new), P(!new)>(models: seq<Row<K, P>>, seen: set<K>, latest: seq<Row<K, P>>)
    requires FirstRows(models, |models|, seen, latest)
    ensures forall i, j :: 0 <= i < j < |latest| ==> latest[i].key != latest[j].key
    ensures forall row :: row in latest <==> FirstOfKey(models, |models|, row)
  {
  }

  /** One of the first n rows has the key. */
  predicate HasKey<K(==), P>(models: seq<Row<K, P>>, n: nat, key: K)
    requires n <= |models|
  {
    exists i :: 0 <= i < n && models[i].key == key
  }

  lemma FirstOfKeyStep<K(!new), P(!new)>(models: seq<Row<K, P>>, n: nat)
    requires n < |models|
    ensures forall row :: FirstOfKey(models, n + 1, row) <==>
                          FirstOfKey(models, n, row) || (row == models[n] && !HasKey(models, n, row.key))
    ensures forall key :: HasKey(models, n + 1, key) <==> HasKey(models, n, key) || key == models[n].key
  {
  }

  /**
   `get_relationships` and `get_exposures`: the per-node query returns exactly the global
   latest-version-per-key view, restricted to the active edges at the node, once each and by key.
   */
  method ActiveEdgesAt<B(==, !new)>(edges: seq<Edge<B>>, node: string, cutoff: Time) returns (active: seq<Edge<B>>)
    requires Sequential(edges)
    ensures forall e :: e in active <==> ActiveEdge(edges, cutoff, e) && Touches(e.key, node)
    ensures InKeyOrder(active)
  {
    var models := Select(edges, node, cutoff);
    SelectedRows(edges, node, cutoff);
    var latest := LatestRecords(models, SelectionOrder);
    LatestRecordsAreView(edges, node, cutoff, models, latest);
    active := Filter(latest, IsActive);
    FilterDistinct(latest, IsActive);
    FilterKeepsOrder(latest, IsActive, SelectionOrder);
    OnePerKey(edges, cutoff, active);
  }

  /** One edge per key, the keys in rising order. */
  ghost predicate InKeyOrder<B>(edges: seq<Edge<B>>) {
    forall i, j :: 0 <= i < j < |edges| ==>
      edges[i].key != edges[j].key && TupleLeq(KeyParts(edges[i].key), KeyParts(edges[j].key))
  }

  lemma OnePerKey<B(!new)>(edges: seq<Edge<B>>, cutoff: Time, active: seq<Edge<B>>)
    requires forall e :: e in active ==> LatestVisible(edges, e.key, cutoff) == Some(e)
    requires forall i, j :: 0 <= i < j < |active| ==> active[i] != active[j] && SelectionOrder(active[i], active[j])
    ensures InKeyOrder(active)
  {
    hide LatestVisible, TupleLeq, KeyParts;
    forall i, j | 0 <= i < j < |active|
      ensures active[i].key != active[j].key && TupleLeq(KeyParts(active[i].key), KeyParts(active[j].key))
    {
      assert active[i] in active && active[j] in active;
    }
  }

  function Select<B(!new)>(edges: seq<Edge<B>>, node: string, cutoff: Time): seq<Edge<B>> {
    SortBy(Filter(edges, EdgeSelection(node, cutoff)), SelectionOrder)
  }

  lemma SelectedRows<B(!new)>(edges: seq<Edge<B>>, node: string, cutoff: Time)
    ensures forall m :: m in Select(edges, node, cutoff) <==> m in edges && Touches(m.key, node) && Visible(m, cutoff)
    ensures Sorted(Select(edges, node, cutoff), SelectionOrder)
  {
    var selected := Filter(edges, EdgeSelection(node, cutoff));
    SortByMembers(selected, SelectionOrder);
    SelectionOrderIsTotal<B>();
    SortBySorted(selected, SelectionOrder);
  }

  lemma LatestRecordsAreView<B(!new)>(edges: seq<Edge<B>>, node: string, cutoff: Time, models: seq<Edge<B>>,
                                      latest: seq<Edge<B>>)
    requires Sequential(edges)
    requires forall m :: m in models <==> m in edges && Touches(m.key, node) && Visible(m, cutoff)
    requires Sorted(models, SelectionOrder)
    requires forall e :: e in latest <==> FirstOfKey(models, |models|, e)
    requires forall i, j :: 0 <= i < j < |latest| ==> latest[i].key != latest[j].key
    ensures forall e: Edge<B> :: e in latest <==> LatestVisible(edges, e.key, cutoff) == Some(e) && Touches(e.key, node)
    ensures forall i, j :: 0 <= i < j < |latest| ==> latest[i] != latest[j]
  {
    forall e | e in latest ensures LatestVisible(edges, e.key, cutoff) == Some(e) && Touches(e.key, node) {
      FirstIsLatest(edges, node, cutoff, models, e);
    }
    forall e: Edge<B> | LatestVisible(edges, e.key, cutoff) == Some(e) && Touches(e.key, node) ensures e in latest {
      LatestIsFirst(edges, node, cutoff, models, e);
    }
  }

  lemma FirstIsLatest<B(!new)>(edges: seq<Edge<B>>, node: string, cutoff: Time, models: seq<Edge<B>>, e: Edge<B>)
    requires Sequential(edges)
    requires forall m :: m in models <==> m in edges && Touches(m.key, node) && Visible(m, cutoff)
    requires Sorted(models, SelectionOrder)
    requires FirstOfKey(models, |models|, e)
    ensures LatestVisible(edges, e.key, cutoff) == Some(e) && Touches(e.key, node)
  {
    var i :| 0 <= i < |models| && models[i] == e && forall j :: 0 <= j < i ==> models[j].key != e.key;
    hide TupleLeq, KeyParts;
    forall other | other in edges && other.key == e.key && Visible(other, cutoff) ensures other.version <= e.version {
      assert other in models;
      var j :| 0 <= j < |models| && models[j] == other;
      assert j == i || SelectionOrder(models[i], models[j]);
    }
    LatestVisibleUnique(edges, e, cutoff);
  }

  lemma LatestIsFirst<B(!new)>(edges: seq<Edge<B>>, node: string, cutoff: Time, models: seq<Edge<B>>, e: Edge<B>)
    requires Sequential(edges)
    requires forall m :: m in models <==> m in edges && Touches(m.key, node) && Visible(m, cutoff)
    requires Sorted(models, SelectionOrder)
    requires LatestVisible(edges, e.key, cutoff) == Some(e) && Touches(e.key, node)
    ensures FirstOfKey(models, |models|, e)
  {
    assert e in models;
    var k :| 0 <= k < |models| && models[k] == e;
    var i := FirstWithKey(models, k);
    FirstIsLatest(edges, node, cutoff, models, models[i]);
  }

  lemma {:induction false} FirstWithKey<K(!new), P(!new)>(models: seq<Row<K, P>>, k: nat) returns (i: nat)
    requires k < |models|
    ensures i <= k && models[i].key == models[k].key && FirstOfKey(models, |models|, models[i])
  {
    if j :| 0 <= j < k && models[j].key == models[k].key {
      i := FirstWithKey(models, j);
    } else {
      i := k;
    }
  }
}
