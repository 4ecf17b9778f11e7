/** An edge between two named entities: the trace walks it in both directions and keeps one. */
module DroppedPath {
  import opened Prelude
  import opened Ordering
  import opened Bitemporal
  import opened KnowledgeGraph
  import opened EventTracing

  function Bank(name: string): EntityVersion {
    Row(name, 1, 0, None, 0, EntityData(name, name, None, [], []))
  }

  function BelongsTo(): Relationship {
    Row(EdgeKey("A", "B", "belongs_to"), 1, 0, None, 0, EdgeData(Active, RelationshipBody(1.0, {"filing"})))
  }

  function BothNamed(): CanonicalEvent {
    CanonicalEvent("event", ["A", "B"], [], 1.0, {"report"}, 0)
  }

  function TwoBanks(normalize: Normalizer): Graph {
    Run(EMPTY, [EntityOp(Bank("A")), EntityOp(Bank("B")), RelationshipOp(BelongsTo())], normalize)
  }

  // ---------------------------------------------------------------------------------------------
  // The tables after three adds
  // ---------------------------------------------------------------------------------------------

  lemma RunOfThree(g: Graph, a: Op, b: Op, c: Op, normalize: Normalizer)
    ensures Run(g, [a, b, c], normalize)
            == Apply(Apply(Apply(g, a, normalize).0, b, normalize).0, c, normalize).0
  {
    hide Apply;
    assert [a, b, c][1..] == [b, c] && [b, c][1..] == [c] && [c][1..] == [];
    var g1 := Apply(g, a, normalize).0;
    var g2 := Apply(g1, b, normalize).0;
    assert Run(g2, [c], normalize) == Apply(g2, c, normalize).0;
    assert Run(g1, [b, c], normalize) == Run(g2, [c], normalize);
  }

  lemma {:induction false} NewKeyStartsAtOne(rows: seq<EntityVersion>, key: string)
    requires forall v :: v in rows ==> v.key != key
    ensures NextVersion(rows, key) == 1
  {
    if rows != [] {
      NewKeyStartsAtOne(rows[..|rows| - 1], key);
    }
  }

  /** The first version of a new entity is stored, whatever becomes of its names. */
  lemma FirstVersionIsStored(g: Graph, v: EntityVersion, normalize: Normalizer)
    requires v.version == 1 && forall w :: w in g.entities ==> w.key != v.key
    ensures var h := Apply(g, EntityOp(v), normalize).0;
            h.entities == g.entities + [v] && h.relationships == g.relationships
  {
    NewKeyStartsAtOne(g.entities, v.key);
    AddNamesKeepsRows(g.(entities := g.entities + [v]), v, NamesOf(v), normalize);
    hide NamesOf, AddNames, NextVersion;
  }

  lemma FirstEdgeIsStored(g: Graph, e: Relationship, normalize: Normalizer)
    requires e.version == 1 && g.relationships == []
    requires LatestVisible(g.entities, e.key.source, e.observedAt).Some?
             && LatestVisible(g.entities, e.key.target, e.observedAt).Some?
    ensures var h := Apply(g, RelationshipOp(e), normalize).0;
            h.entities == g.entities && h.relationships == [e]
  {
    hide LatestVisible;
    assert [] + [e] == [e];
  }

  lemma ThreeAreStored(a: EntityVersion, b: EntityVersion, e: Relationship, normalize: Normalizer)
    requires a.key != b.key && a.version == b.version == e.version == 1
    requires LatestVisible([a, b], e.key.source, e.observedAt).Some?
             && LatestVisible([a, b], e.key.target, e.observedAt).Some?
    ensures var g := Run(EMPTY, [EntityOp(a), EntityOp(b), RelationshipOp(e)], normalize);
            g.entities == [a, b] && g.relationships == [e]
  {
    RunOfThree(EMPTY, EntityOp(a), EntityOp(b), RelationshipOp(e), normalize);
    hide LatestVisible, Apply, Run;
    FirstVersionIsStored(EMPTY, a, normalize);
    var g1 := Apply(EMPTY, EntityOp(a), normalize).0;
    assert g1.entities == [a];
    FirstVersionIsStored(g1, b, normalize);
    var g2 := Apply(g1, EntityOp(b), normalize).0;
    assert g2.entities == [a, b];
    FirstEdgeIsStored(g2, e, normalize);
  }

  /** Entities that came first are found by their key. */
  lemma FoundAmongTwo(a: EntityVersion, b: EntityVersion, cutoff: Time)
    requires a.key != b.key && Visible(a, cutoff) && Visible(b, cutoff)
    ensures LatestVisible([a, b], a.key, cutoff) == Some(a) && LatestVisible([a, b], b.key, cutoff) == Some(b)
  {
    hide Visible;
    assert [a, b][..1] == [a] && [a][..0] == [];
    assert LatestVisible([a], a.key, cutoff) == Some(a) && LatestVisible([a], b.key, cutoff) == None;
  }

  lemma BankFacts(name: string)
    ensures var v := Bank(name); v.key == name && v.version == 1 && v.observedAt == 0 && Visible(v, 0)
  {
  }

  lemma EdgeFacts()
    ensures var e := BelongsTo();
            e.key.source == "A" && e.key.target == "B" && e.version == 1 && e.observedAt == 0 && Visible(e, 0)
    ensures "A" != "B"
  {
    assert "A"[0] != "B"[0];
  }

  lemma BanksVisible()
    ensures LatestVisible([Bank("A"), Bank("B")], "A", 0) == Some(Bank("A"))
    ensures LatestVisible([Bank("A"), Bank("B")], "B", 0) == Some(Bank("B"))
  {
    hide *;
    EdgeFacts();
    BankFacts("A");
    BankFacts("B");
    FoundAmongTwo(Bank("A"), Bank("B"), 0);
  }

  /** Whatever the normaliser, the three adds store two entities and the edge between them. */
  lemma TwoBanksTables(normalize: Normalizer)
    ensures TwoBanks(normalize).entities == [Bank("A"), Bank("B")] && TwoBanks(normalize).relationships == [BelongsTo()]
  {
    assert TwoBanks(normalize) == Run(EMPTY, [EntityOp(Bank("A")), EntityOp(Bank("B")), RelationshipOp(BelongsTo())],
                                      normalize);
    hide *;
    EdgeFacts();
    BankFacts("A");
    BankFacts("B");
    BanksVisible();
    ThreeAreStored(Bank("A"), Bank("B"), BelongsTo(), normalize);
  }

  // ---------------------------------------------------------------------------------------------
  // The trace
  // ---------------------------------------------------------------------------------------------

  lemma BothKept(x: string, y: string, p: string -> bool)
    requires p(x) && p(y)
    ensures Filter([x, y], p) == [x, y]
  {
    assert [x, y][..1] == [x] && [x][..0] == [];
    assert Filter([x], p) == [x];
  }

  lemma SortedTwo(x: string, y: string)
    requires StringLeq(x, y)
    ensures SortBy([x, y], StringLeq) == [x, y]
  {
    hide StringLeq;
    assert [x, y][1..] == [y] && [y][1..] == [];
    assert SortBy([y], StringLeq) == [y];
  }

  lemma DistinctTwo(x: string, y: string)
    requires x != y
    ensures Distinct([x, y]) == [x, y]
  {
    assert [x, y][..1] == [x] && [x][..0] == [];
    assert Distinct([x]) == [x];
  }

  /** Two visible entities named in order, and no mechanism, are the starts. */
  lemma TwoStarts(entities: seq<EntityVersion>, x: string, y: string, cutoff: Time)
    requires x != y && StringLeq(x, y)
    requires LatestVisible(entities, x, cutoff).Some? && LatestVisible(entities, y, cutoff).Some?
    ensures StartsOf(VisibleSorted(entities, cutoff, [x, y]), VisibleSorted(entities, cutoff, [])) == [x, y]
  {
    hide LatestVisible, StringLeq;
    BothKept(x, y, VisibleEntity(entities, cutoff));
    SortedTwo(x, y);
    DistinctTwo(x, y);
    assert VisibleSorted(entities, cutoff, []) == [];
    assert [x, y] + [] == [x, y];
  }

  lemma NamedStarts(entities: seq<EntityVersion>)
    requires entities == [Bank("A"), Bank("B")]
    ensures StartsOf(VisibleSorted(entities, 0, BothNamed().entities),
                     VisibleSorted(entities, 0, MechanismEntities(BothNamed().causalMechanisms))) == ["A", "B"]
  {
    assert BothNamed().entities == ["A", "B"] && MechanismEntities(BothNamed().causalMechanisms) == [];
    assert StringLeq("A", "B");
    hide *;
    EdgeFacts();
    BanksVisible();
    TwoStarts(entities, "A", "B", 0);
  }

  lemma BothDirections()
    ensures SimplePath(["A", "B"], [BelongsTo()], 0, ["A", "B"], [BelongsTo()])
    ensures SimplePath(["A", "B"], [BelongsTo()], 0, ["B", "A"], [BelongsTo()])
  {
    assert [BelongsTo()][..0] == [];
    assert LatestVisible([BelongsTo()], BelongsTo().key, 0) == Some(BelongsTo());
  }

  lemma OrderOfTwo()
    ensures !Before(["A", "B"], "B", "A") && Before(["A", "B"], "A", "B") && "A" in ["A", "B"] && "B" in ["A", "B"]
  {
    assert ["A", "B"][0] == "A" && ["A", "B"][1] == "B";
  }

  /**
   Of the two directions in which the edge between the two named banks can be walked, the trace keeps only the
   second.
   */
  lemma OneDirectionIsDropped(normalize: Normalizer, ids: Ids, t: EventTrace)
    requires TraceSpec(TwoBanks(normalize), ids, BothNamed(), 0, 1, t)
    ensures StartsOf(t.directEntities, t.candidateMechanisms) == ["A", "B"]
    ensures SimplePath(["A", "B"], TwoBanks(normalize).relationships, 0, ["A", "B"], [BelongsTo()])
    ensures PathOf(BothNamed(), ["A", "B"], [BelongsTo()]) !in t.paths
            && PathOf(BothNamed(), ["B", "A"], [BelongsTo()]) in t.paths
  {
    var g := TwoBanks(normalize);
    TwoBanksTables(normalize);
    NamedStarts(g.entities);
    BothDirections();
    assert StartsOf(t.directEntities, t.candidateMechanisms) == ["A", "B"] by {
      hide TwoBanks, VisibleSorted, StartsOf, SimplePath;
    }
    hide *;
    TraceKeepsEveryPath(g, ids, BothNamed(), 0, 1, t, ["A", "B"], [BelongsTo()]);
    TraceKeepsEveryPath(g, ids, BothNamed(), 0, 1, t, ["B", "A"], [BelongsTo()]);
    OrderOfTwo();
  }
}
