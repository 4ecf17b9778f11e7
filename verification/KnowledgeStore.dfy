/** `SqlKnowledgeGraph`: the session-backed store, its writers and its as-of readers. */
module KnowledgeStore {
  import opened Prelude
  import opened Ordering
  import opened Bitemporal
  import opened KnowledgeGraph
  import opened AliasIndex
  import opened EventTracing
  import opened TraceAnswers

  datatype ResolutionStatus = Resolved | Ambiguous | NotFound
  datatype AliasResolution = AliasResolution(status: ResolutionStatus, candidates: seq<EntityVersion>)

  predicate ById(a: EntityVersion, b: EntityVersion) {
    StringLeq(a.key, b.key)
  }

  /** The candidates, once each and ordered by entity id, and the status their number implies. */
  ghost predicate ResolutionSpec(g: Graph, n: string, cutoff: Time, r: AliasResolution) {
    && (forall v :: v in r.candidates <==> Candidate(g, n, cutoff, v))
    && (forall i, j :: 0 <= i < j < |r.candidates| ==>
                       ById(r.candidates[i], r.candidates[j]) && r.candidates[i].key != r.candidates[j].key)
    && r.status == if |r.candidates| == 1 then Resolved else if |r.candidates| > 1 then Ambiguous else NotFound
  }

  /**
   When the index agrees, an alias resolves to exactly the visible versions bearing the name, and
   it is RESOLVED exactly when one visible version bears it.
   */
  lemma ResolutionIsExact(g: Graph, n: string, cutoff: Time, r: AliasResolution, normalize: Normalizer)
    requires IndexAgrees(g, normalize) && ResolutionSpec(g, n, cutoff, r)
    ensures forall v: EntityVersion :: v in r.candidates <==>
                        LatestVisible(g.entities, v.key, cutoff) == Some(v) && HasNormalForm(v, n, normalize)
    ensures r.status.Resolved? <==>
            exists v: EntityVersion :: NamedOnly(g, n, cutoff, v, normalize)
    ensures r.status.NotFound? <==> forall v: EntityVersion ::
              LatestVisible(g.entities, v.key, cutoff) == Some(v) ==> !HasNormalForm(v, n, normalize)
  {
    CandidatesAreNamedVersions(g, n, cutoff, normalize);
    var cs := r.candidates;
    assert |cs| > 1 ==> cs[0].key != cs[1].key && cs[0] in cs && cs[1] in cs;
    if r.status.Resolved? {
      assert NamedOnly(g, n, cutoff, r.candidates[0], normalize);
    }
    if exists v: EntityVersion :: NamedOnly(g, n, cutoff, v, normalize) {
      var v: EntityVersion :| NamedOnly(g, n, cutoff, v, normalize);
      assert v in cs;
    }
  }

  /** v is the one visible entity version with the given normal form among its names. */
  ghost predicate NamedOnly(g: Graph, n: string, cutoff: Time, v: EntityVersion, normalize: Normalizer) {
    && LatestVisible(g.entities, v.key, cutoff) == Some(v) && HasNormalForm(v, n, normalize)
    && forall w: EntityVersion ::
         LatestVisible(g.entities, w.key, cutoff) == Some(w) && HasNormalForm(w, n, normalize) ==> w == v
  }

  /** A version in force that a current row of the alias table gives the normal form. */
  ghost predicate Bears(g: Graph, n: string, cutoff: Time, v: EntityVersion) {
    && InForce(g.entities, v, cutoff)
    && exists a :: && a in g.aliases && a.entity == v && a.normalized == n && a.observedAt <= cutoff
                   && a.validFrom <= cutoff && (a.validUntil.None? || cutoff < a.validUntil.value)
  }

  lemma BearersAreCandidates(g: Graph, n: string, cutoff: Time)
    ensures Sequential(g.entities) ==> forall v :: Candidate(g, n, cutoff, v) <==> Bears(g, n, cutoff, v)
  {
    if Sequential(g.entities) {
      forall v ensures Candidate(g, n, cutoff, v) <==> Bears(g, n, cutoff, v) {
        InForceIsLatestVisible(g.entities, v, cutoff);
        hide InForce, LatestVisible, Sequential;
        if Bears(g, n, cutoff, v) {
          var a :| && a in g.aliases && a.entity == v && a.normalized == n && a.observedAt <= cutoff
                   && a.validFrom <= cutoff && (a.validUntil.None? || cutoff < a.validUntil.value);
          assert AliasVisible(a, cutoff);
        }
        if Candidate(g, n, cutoff, v) {
          var a :| a in g.aliases && a.normalized == n && AliasVisible(a, cutoff) && a.entity == v;
        }
      }
    }
  }

  lemma ActiveEdgesInForce<B(!new)>(edges: seq<Edge<B>>, node: string, cutoff: Time, active: seq<Edge<B>>)
    requires Sequential(edges) && InKeyOrder(active)
    requires forall e :: e in active <==> ActiveEdge(edges, cutoff, e) && Touches(e.key, node)
    ensures forall e :: e in active <==> e.data.status == Active && InForce(edges, e, cutoff)
                                         && (e.key.source == node || e.key.target == node)
    ensures forall i, j :: 0 <= i < j < |active| ==> KeyBefore(active[i].key, active[j].key)
  {
    forall e: Edge<B> ensures ActiveEdge(edges, cutoff, e) <==> e.data.status == Active && InForce(edges, e, cutoff) {
      InForceIsLatestVisible(edges, e, cutoff);
    }
    hide InForce, ActiveEdge, KeyBefore, TupleLeq, KeyParts;
    forall i, j | 0 <= i < j < |active| ensures KeyBefore(active[i].key, active[j].key) {
      KeyPartsOrder(active[i].key, active[j].key);
    }
  }

  lemma ResolvesBearers(g: Graph, n: string, cutoff: Time, r: AliasResolution)
    requires ResolutionSpec(g, n, cutoff, r)
    ensures Versioned(g) ==> forall v :: v in r.candidates <==> Bears(g, n, cutoff, v)
  {
    BearersAreCandidates(g, n, cutoff);
    hide Bears, Candidate;
  }

  /** The resolution of an alias at a cutoff does not depend on later observations. */
  lemma LaterRunsChangeNoResolution(g: Graph, ops: seq<Op>, normalize: Normalizer, cutoff: Time, n: string,
                                    r: AliasResolution)
    requires forall op :: op in ops ==> cutoff < op.ObservedAt()
    ensures ResolutionSpec(g, n, cutoff, r) <==> ResolutionSpec(Run(g, ops, normalize), n, cutoff, r)
  {
    LaterRunsChangeNoAnswer(g, ops, normalize, cutoff);
  }

  /** Nor does the trace of an event: before and after later observations there is one answer, the same. */
  lemma LaterRunsChangeNoTrace(g: Graph, ids: Ids, ops: seq<Op>, normalize: Normalizer, cutoff: Time,
                               event: CanonicalEvent, maxDepth: int, t: EventTrace, u: EventTrace)
    requires (forall op :: op in ops ==> cutoff < op.ObservedAt()) && Identifying(ids, g.relationships)
    requires TraceSpec(g, ids, event, cutoff, maxDepth, t)
    requires TraceSpec(Run(g, ops, normalize), ids, event, cutoff, maxDepth, u)
    ensures u == t
  {
    LaterRunsChangeNoAnswer(g, ops, normalize, cutoff);
    hide SameAnswers, Run, TraceSpec, Identifying;
    SameAnswersSameTrace(Run(g, ops, normalize), g, ids, event, cutoff, maxDepth, u);
    TraceIsUnique(g, ids, event, cutoff, maxDepth, t, u);
  }

  lemma SameAnswersSameTrace(g: Graph, h: Graph, ids: Ids, event: CanonicalEvent, cutoff: Time, maxDepth: int,
                             t: EventTrace)
    requires SameAnswers(h, g, cutoff) && TraceSpec(g, ids, event, cutoff, maxDepth, t)
    ensures TraceSpec(h, ids, event, cutoff, maxDepth, t)
  {
    SameFilter(event.entities, g.entities, h.entities, cutoff);
    SameFilter(MechanismEntities(event.causalMechanisms), g.entities, h.entities, cutoff);
    var starts := StartsOf(t.directEntities, t.candidateMechanisms);
    hide PathOrder;
    forall nodes, rels
      ensures SimplePath(starts, g.relationships, cutoff, nodes, rels)
              == SimplePath(starts, h.relationships, cutoff, nodes, rels)
    {
      forall r: Relationship ensures ActiveEdge(g.relationships, cutoff, r) == ActiveEdge(h.relationships, cutoff, r) {
        assert LatestVisible(g.relationships, r.key, cutoff) == LatestVisible(h.relationships, r.key, cutoff);
      }
    }
    forall p | p in t.paths ensures Enumerated(starts, h.relationships, cutoff, event, maxDepth, p) {
      assert Enumerated(starts, g.relationships, cutoff, event, maxDepth, p);
    }
  }

  lemma {:induction false} SameFilter(ids: seq<string>, es: seq<EntityVersion>, fs: seq<EntityVersion>, cutoff: Time)
    requires forall id :: LatestVisible(es, id, cutoff) == LatestVisible(fs, id, cutoff)
    ensures Filter(ids, VisibleEntity(es, cutoff)) == Filter(ids, VisibleEntity(fs, cutoff))
  {
    if ids != [] {
      SameFilter(ids[..|ids| - 1], es, fs, cutoff);
    }
  }

  /** What adding a version comes to, and the row it starts with. */
  lemma EntityStep(g: Graph, v: EntityVersion, normalize: Normalizer)
    requires Versioned(g) && SoundAliases(g)
    ensures var inserted := g.(entities := g.entities + [v]);
            AddEntity(g, v, normalize)
            == if v in g.entities then (g, Ok(false))
               else if v.version != NextVersion(g.entities, v.key) then (g, Err(IntegrityViolation))
               else AddNames(inserted, v, NamesOf(v), normalize)
    ensures v.version == NextVersion(g.entities, v.key) ==>
      var inserted := g.(entities := g.entities + [v]); Versioned(inserted) && SoundAliases(inserted)
  {
    hide AddNames, NamesOf, Sequential, NextVersion;
    if v.version == NextVersion(g.entities, v.key) {
      SequentialAppend(g.entities, v);
    }
  }

  /** What indexing names comes to: nothing is left, the first is blank, or it is added before the rest. */
  lemma NamesStep(g: Graph, v: EntityVersion, names: seq<string>, normalize: Normalizer)
    ensures AddNames(g, v, names, normalize)
            == if names == [] then (g, Ok(true))
               else if normalize(names[0]) == "" then (g, Err(ValidationError))
               else
                 var (h, r) := AddAlias(g, AliasFor(v, names[0], normalize));
                 if r.Err? then (h, r) else AddNames(h, v, names[1..], normalize)
  {
    hide AddAlias, AliasFor;
  }

  /** What the loop of `resolve_alias` has put into its dictionary after the first i rows. */
  ghost predicate Gathered(g: Graph, n: string, cutoff: Time, i: nat, order: seq<string>,
                           byEntity: map<string, EntityVersion>)
    requires i <= |g.aliases|
  {
    && (forall id :: id in order <==> id in byEntity)
    && (forall j, k :: 0 <= j < k < |order| ==> order[j] != order[k])
    && (forall id :: id in byEntity ==> byEntity[id].key == id && Candidate(g, n, cutoff, byEntity[id]))
    && forall j :: 0 <= j < i ==> Taken(g, n, cutoff, g.aliases[j], byEntity)
  }

  /** The row does not matter, or its version is in the dictionary. */
  ghost predicate Taken(g: Graph, n: string, cutoff: Time, a: AliasRecord, byEntity: map<string, EntityVersion>) {
    a.normalized == n && AliasVisible(a, cutoff) && Candidate(g, n, cutoff, a.entity) ==>
      a.entity.key in byEntity && byEntity[a.entity.key] == a.entity
  }

  lemma CandidateOfRow(g: Graph, n: string, cutoff: Time, a: AliasRecord)
    requires a in g.aliases && a.normalized == n && AliasVisible(a, cutoff)
    ensures Candidate(g, n, cutoff, a.entity) <==>
            a.entity in g.entities && LatestVisible(g.entities, a.entity.key, cutoff) == Some(a.entity)
  {
    hide LatestVisible, AliasVisible;
  }

  lemma OneCandidatePerKey(g: Graph, n: string, cutoff: Time, v: EntityVersion, w: EntityVersion)
    requires Candidate(g, n, cutoff, v) && Candidate(g, n, cutoff, w) && v.key == w.key
    ensures v == w
  {
    hide LatestVisible, AliasVisible;
  }

  lemma StaysTaken(g: Graph, n: string, cutoff: Time, a: AliasRecord, byEntity: map<string, EntityVersion>,
                   v: EntityVersion)
    requires Taken(g, n, cutoff, a, byEntity) && Candidate(g, n, cutoff, v)
    ensures Taken(g, n, cutoff, a, byEntity[v.key := v])
  {
    hide Candidate, AliasVisible;
    if Candidate(g, n, cutoff, a.entity) && a.entity.key == v.key {
      OneCandidatePerKey(g, n, cutoff, a.entity, v);
    }
  }

  lemma GatherOne(g: Graph, n: string, cutoff: Time, i: nat, order: seq<string>, byEntity: map<string, EntityVersion>)
    requires i < |g.aliases| && Gathered(g, n, cutoff, i, order, byEntity)
    ensures var a := g.aliases[i];
            var found := a.normalized == n && AliasVisible(a, cutoff) && a.entity in g.entities
                         && LatestVisible(g.entities, a.entity.key, cutoff) == Some(a.entity);
            if !found then Gathered(g, n, cutoff, i + 1, order, byEntity)
            else Gathered(g, n, cutoff, i + 1, if a.entity.key in byEntity then order else order + [a.entity.key],
                          byEntity[a.entity.key := a.entity])
  {
    var a := g.aliases[i];
    hide Candidate, LatestVisible, AliasVisible;
    if a.normalized == n && AliasVisible(a, cutoff) {
      CandidateOfRow(g, n, cutoff, a);
    }
    assert !Candidate(g, n, cutoff, a.entity) || a.normalized != n || !AliasVisible(a, cutoff) ==>
        Taken(g, n, cutoff, a, byEntity);
    assert Taken(g, n, cutoff, a, byEntity[a.entity.key := a.entity]);
    hide Taken;
    if Candidate(g, n, cutoff, a.entity) {
      forall j | 0 <= j < i ensures Taken(g, n, cutoff, g.aliases[j], byEntity[a.entity.key := a.entity]) {
        StaysTaken(g, n, cutoff, g.aliases[j], byEntity, a.entity);
      }
    }
  }

  lemma GatheredAreKnown(g: Graph, n: string, cutoff: Time, i: nat, order: seq<string>,
                         byEntity: map<string, EntityVersion>)
    requires i <= |g.aliases| && Gathered(g, n, cutoff, i, order, byEntity)
    ensures forall k :: 0 <= k < |order| ==> order[k] in byEntity
  {
    hide Candidate, AliasVisible;
  }

  lemma GatheredAll(g: Graph, n: string, cutoff: Time, order: seq<string>, byEntity: map<string, EntityVersion>,
                    values: seq<EntityVersion>)
    requires Gathered(g, n, cutoff, |g.aliases|, order, byEntity) && |values| == |order|
    requires forall k :: 0 <= k < |order| ==> order[k] in byEntity && values[k] == byEntity[order[k]]
    ensures forall v :: v in values <==> Candidate(g, n, cutoff, v)
    ensures forall k :: 0 <= k < |order| ==> values[k].key == order[k]
    ensures forall j, k :: 0 <= j < k < |order| ==> order[j] != order[k]
  {
    forall v | Candidate(g, n, cutoff, v) ensures v in values {
      var a :| a in g.aliases && a.normalized == n && AliasVisible(a, cutoff) && a.entity == v;
      var j :| 0 <= j < |g.aliases| && g.aliases[j] == a;
      hide Candidate, AliasVisible;
      var k :| 0 <= k < |order| && order[k] == v.key;
      assert values[k] == v;
    }
  }

  lemma ResolvedFrom(g: Graph, n: string, cutoff: Time, values: seq<EntityVersion>, order: seq<string>,
                     r: AliasResolution)
    requires forall v :: v in values <==> Candidate(g, n, cutoff, v)
    requires |values| == |order| && forall k :: 0 <= k < |order| ==> values[k].key == order[k]
    requires forall j, k :: 0 <= j < k < |order| ==> order[j] != order[k]
    requires r.candidates == SortBy(values, ById)
    requires r.status == if |r.candidates| == 1 then Resolved else if |r.candidates| > 1 then Ambiguous else NotFound
    ensures ResolutionSpec(g, n, cutoff, r)
  {
    hide Candidate, SortBy;
    CandidatesSorted(values, order, r.candidates);
  }

  class SqlKnowledgeGraph {
    var entities: seq<EntityVersion>
    var aliases: seq<AliasRecord>
    var relationships: seq<Relationship>
    var exposures: seq<Exposure>
    const normalize: Normalizer
    const ids: Ids

    function State(): Graph
      reads this
    {
      Graph(entities, aliases, relationships, exposures)
    }

    ghost predicate Valid()
      reads this
    {
      Versioned(State()) && SoundAliases(State())
    }

    constructor (normalize: Normalizer, ids: Ids)
      ensures Valid() && State() == EMPTY && this.normalize == normalize && this.ids == ids
    {
      this.normalize, this.ids := normalize, ids;
      entities, aliases, relationships, exposures := [], [], [], [];
    }

    /** Afterwards the row is stored if and only if its version is; a row that was there is not stored twice. */
    method AddAlias(a: AliasRecord) returns (added: Added)
      requires Valid()
      modifies this`aliases
      ensures Valid()
      ensures a in aliases <==> a.entity in entities
      ensures forall b :: b != a ==> (b in aliases <==> b in old(aliases))
      ensures |aliases| == |old(aliases)| + (if added == Ok(true) then 1 else 0) && old(aliases) <= aliases
      ensures added == Err(IntegrityViolation) <==> a.entity !in entities
      ensures added == Ok(false) <==> a in old(aliases)
      ensures (State(), added) == KnowledgeGraph.AddAlias(old(State()), a)
    {
      ghost var before := State();
      AddAliasKeepsAliases(before, a);
      if a.entity !in entities {
        return Err(IntegrityViolation);
      }
      if a in aliases {
        return Ok(false);
      }
      aliases := aliases + [a];
      return Ok(true);
    }

    method AddEntity(v: EntityVersion) returns (added: Added)
      requires Valid() && ValidPeriod(v)
      modifies this`entities, this`aliases
      ensures Valid()
      ensures EntityAdded(old(State()), State(), v, normalize, added)
      ensures (State(), added) == KnowledgeGraph.AddEntity(old(State()), v, normalize)
    {
      EntityStep(State(), v, normalize);
      AddEntityAdds(State(), v, normalize);
      hide Versioned, SoundAliases, AddNames, KnowledgeGraph.AddEntity, KnowledgeGraph.AddAlias, NextVersion, NamesOf,
          EntityAdded, AliasFor, ValidPeriod;
      if v in entities {
        return Ok(false);
      }
      if v.version != NextVersion(entities, v.key) {
        return Err(IntegrityViolation);
      }
      entities := entities + [v];
      ghost var inserted := State();
      var names := NamesOf(v);
      assert names[0..] == names;
      for i := 0 to |names|
        invariant entities == inserted.entities
        invariant AddNames(State(), v, names[i..], normalize) == AddNames(inserted, v, names, normalize)
        invariant Valid()
      {
        assert names[i..][1..] == names[i + 1..];
        NamesStep(State(), v, names[i..], normalize);
        if normalize(names[i]) == "" {
          return Err(ValidationError);
        }
        var r := AddAlias(AliasFor(v, names[i], normalize));
        if r.Err? {
          return r;
        }
      }
      NamesStep(State(), v, names[|names|..], normalize);
      return Ok(true);
    }

    method AddRelationship(r: Relationship) returns (added: Added)
      requires Valid() && ValidRelationship(r)
      modifies this`relationships
      ensures Valid()
      ensures added == Ok(false) <==> r in old(relationships)
      ensures added == Ok(true) <==>
              && r !in old(relationships) && NextOf(old(relationships), r)
              && Present(old(State()), r.key.source, r.observedAt) && Present(old(State()), r.key.target, r.observedAt)
      ensures relationships == old(relationships) + if added == Ok(true) then [r] else []
      ensures (State(), added) == Apply(old(State()), RelationshipOp(r), normalize)
    {
      ApplyKeepsVersions(State(), RelationshipOp(r), normalize);
      NextOfIsNextVersion(relationships, r);
      VisibleIsPresent(State(), r.key.source, r.observedAt);
      VisibleIsPresent(State(), r.key.target, r.observedAt);
      hide Versioned, SoundAliases, NextVersion, NextOf, Present, LatestVisible;
      if r in relationships {
        return Ok(false);
      }
      if GetEntityAt(r.key.source, r.observedAt).None? || GetEntityAt(r.key.target, r.observedAt).None? {
        return Err(IntegrityViolation);
      }
      if r.version != NextVersion(relationships, r.key) {
        return Err(IntegrityViolation);
      }
      relationships := relationships + [r];
      return Ok(true);
    }

    method AddExposure(x: Exposure) returns (added: Added)
      requires Valid() && ValidPeriod(x)
      modifies this`exposures
      ensures Valid()
      ensures added == Ok(false) <==> x in old(exposures)
      ensures added == Ok(true) <==>
              && x !in old(exposures) && NextOf(old(exposures), x)
              && Present(old(State()), x.key.source, x.observedAt) && Present(old(State()), x.key.target, x.observedAt)
      ensures exposures == old(exposures) + if added == Ok(true) then [x] else []
      ensures (State(), added) == Apply(old(State()), ExposureOp(x), normalize)
    {
      ApplyKeepsVersions(State(), ExposureOp(x), normalize);
      NextOfIsNextVersion(exposures, x);
      VisibleIsPresent(State(), x.key.source, x.observedAt);
      VisibleIsPresent(State(), x.key.target, x.observedAt);
      hide Versioned, SoundAliases, NextVersion, NextOf, Present, LatestVisible;
      if x in exposures {
        return Ok(false);
      }
      if GetEntityAt(x.key.source, x.observedAt).None? || GetEntityAt(x.key.target, x.observedAt).None? {
        return Err(IntegrityViolation);
      }
      if x.version != NextVersion(exposures, x.key) {
        return Err(IntegrityViolation);
      }
      exposures := exposures + [x];
      return Ok(true);
    }

    function GetEntityAt(id: string, cutoff: Time): (r: Option<EntityVersion>)
      reads this
      ensures r.Some? ==> r.value.key == id && InForce(entities, r.value, cutoff)
      ensures r.None? ==> forall v :: v in entities && v.key == id ==> !Current(v, cutoff)
    {
      LatestVisibleIsInForce(entities, id, cutoff);
      LatestVisible(entities, id, cutoff)
    }

    method GetRelationships(node: string, cutoff: Time) returns (active: seq<Relationship>)
      requires Valid()
      ensures forall e :: e in active <==>
                          && e.data.status == Active && InForce(relationships, e, cutoff)
                          && (e.key.source == node || e.key.target == node)
      ensures forall i, j :: 0 <= i < j < |active| ==> KeyBefore(active[i].key, active[j].key)
    {
      active := ActiveEdgesAt(relationships, node, cutoff);
      ActiveEdgesInForce(relationships, node, cutoff, active);
    }

    method GetExposures(node: string, cutoff: Time) returns (active: seq<Exposure>)
      requires Valid()
      ensures forall e :: e in active <==>
                          && e.data.status == Active && InForce(exposures, e, cutoff)
                          && (e.key.source == node || e.key.target == node)
      ensures forall i, j :: 0 <= i < j < |active| ==> KeyBefore(active[i].key, active[j].key)
    {
      active := ActiveEdgesAt(exposures, node, cutoff);
      ActiveEdgesInForce(exposures, node, cutoff, active);
    }

    method ResolveAlias(alias: string, cutoff: Time) returns (r: AliasResolution)
      ensures ResolutionSpec(State(), normalize(alias), cutoff, r)
      ensures Versioned(State()) ==> forall v :: v in r.candidates <==> Bears(State(), normalize(alias), cutoff, v)
    {
      var n := normalize(alias);
      var byEntity: map<string, EntityVersion> := map[];
      var order: seq<string> := [];
      ghost var g := State();
      assert Gathered(g, n, cutoff, 0, order, byEntity);
      hide Gathered, Candidate, InForce, Bears, Versioned, ResolutionSpec;
      for i := 0 to |aliases|
        invariant Gathered(g, n, cutoff, i, order, byEntity)
      {
        GatherOne(g, n, cutoff, i, order, byEntity);
        var model := aliases[i];
        if model.normalized != n || !AliasVisible(model, cutoff) || model.entity !in entities {
          continue;
        }
        var entity := GetEntityAt(model.entity.key, cutoff);
        if entity == Some(model.entity) {
          if model.entity.key !in byEntity {
            order := order + [model.entity.key];
          }
          byEntity := byEntity[model.entity.key := model.entity];
        }
      }
      var values := seq(|order|, k requires 0 <= k < |order| && order[k] in byEntity => byEntity[order[k]])
        by { GatheredAreKnown(g, n, cutoff, |aliases|, order, byEntity); }
      GatheredAll(g, n, cutoff, order, byEntity, values);
      var candidates := SortBy(values, ById);
      var status := if |candidates| == 1 then Resolved else if |candidates| > 1 then Ambiguous else NotFound;
      r := AliasResolution(status, candidates);
      ResolvedFrom(g, n, cutoff, values, order, r);
      ResolvesBearers(g, n, cutoff, r);
    }

    /** `trace_event`, given the event if it is visible at the cutoff. */
    method TraceEvent(records: EventRecords, eventId: string, cutoff: Time, maxDepth: int)
      returns (r: Result<EventTrace, Violation>)
      requires Valid()
      ensures r.Ok? <==> EventKnown(records, eventId, cutoff)
      ensures r.Err? ==> r.error == IntegrityViolation
      ensures r.Ok? ==> Answers(State(), ids, records.events[eventId], cutoff, maxDepth, r.value)
      ensures r.Ok? <==> EventAt(records, eventId, cutoff).Some?
      ensures r.Ok? ==> TraceSpec(State(), ids, EventAt(records, eventId, cutoff).value, cutoff, maxDepth, r.value)
    {
      var visible := EventAt(records, eventId, cutoff);
      VisibleIsKnown(records, eventId, cutoff);
      if visible.None? {
        return Err(IntegrityViolation);
      }
      var event := visible.value;
      var direct := VisibleSorted(entities, cutoff, event.entities);
      var mechanisms := VisibleSorted(entities, cutoff, MechanismEntities(event.causalMechanisms));
      var starts := StartsOf(direct, mechanisms);
      var paths := EnumeratePaths(starts, relationships, cutoff, event, maxDepth);
      var unique := Deduplicate(paths);
      var trace := EventTrace(event.eventId, cutoff, direct, mechanisms, SortBy(unique, PathOrder(ids)));
      TraceAssembled(State(), ids, event, cutoff, maxDepth, paths, unique, trace);
      TraceAnswersTheQuestion(State(), ids, event, cutoff, maxDepth, trace);
      return Ok(trace);
    }
  }

  lemma ByIdOrder()
    ensures TotalPreorder(ById)
  {
    forall a, b ensures ById(a, b) || ById(b, a) {
      StringLeqTotal(a.key, b.key);
    }
    forall a, b, c | ById(a, b) && ById(b, c) ensures ById(a, c) {
      StringLeqTransitive(a.key, b.key, c.key);
    }
  }

  lemma DistinctKeys(values: seq<EntityVersion>, order: seq<string>)
    requires |values| == |order| && forall k :: 0 <= k < |order| ==> values[k].key == order[k]
    requires forall j, k :: 0 <= j < k < |order| ==> order[j] != order[k]
    ensures forall j, k :: 0 <= j < k < |values| ==> values[j] != values[k]
    ensures forall v, w :: v in values && w in values && v.key == w.key ==> v == w
  {
    forall v, w | v in values && w in values && v.key == w.key ensures v == w {
      var a :| 0 <= a < |values| && values[a] == v;
      var b :| 0 <= b < |values| && values[b] == w;
    }
  }

  lemma CandidatesSorted(values: seq<EntityVersion>, order: seq<string>, candidates: seq<EntityVersion>)
    requires |values| == |order| && forall k :: 0 <= k < |order| ==> values[k].key == order[k]
    requires forall j, k :: 0 <= j < k < |order| ==> order[j] != order[k]
    requires candidates == SortBy(values, ById)
    ensures forall v :: v in candidates <==> v in values
    ensures forall i, j :: 0 <= i < j < |candidates| ==>
              ById(candidates[i], candidates[j]) && candidates[i].key != candidates[j].key
  {
    ByIdOrder();
    DistinctKeys(values, order);
    SortBySorted(values, ById);
    SortByMembers(values, ById);
    SortByDistinct(values, ById);
    forall i, j | 0 <= i < j < |candidates| ensures candidates[i].key != candidates[j].key {
      assert candidates[i] in values && candidates[j] in values && candidates[i] != candidates[j];
    }
  }
}
