/** The alias table against the entity table it indexes. */
module AliasIndex {
  import opened Prelude
  import opened Ordering
  import opened Bitemporal
  import opened KnowledgeGraph

  predicate HasNormalForm(v: EntityVersion, n: string, normalize: Normalizer) {
    exists s :: s in AllNames(v.data) && normalize(s) == n
  }

  predicate Indexed(g: Graph, v: EntityVersion, n: string) {
    exists a :: a in g.aliases && a.entity == v && a.normalized == n
  }

  /** Every alias row belongs to a stored version and copies its validity period. */
  ghost predicate AliasRowsMatch(g: Graph) {
    forall a :: a in g.aliases ==>
      && a.entity in g.entities
      && a.observedAt == a.entity.observedAt
      && a.validFrom == a.entity.validFrom
      && a.validUntil == a.entity.validUntil
  }

  /** The index holds exactly the normal forms of the names in the entity table. */
  ghost predicate IndexAgrees(g: Graph, normalize: Normalizer) {
    && AliasRowsMatch(g)
    && forall v, n :: Indexed(g, v, n) <==> v in g.entities && HasNormalForm(v, n, normalize)
  }

  predicate AliasVisible(a: AliasRecord, cutoff: Time) {
    a.observedAt <= cutoff && InInterval(a.validFrom, a.validUntil, cutoff)
  }

  /** The versions that the loop of `resolve_alias` puts into its dictionary. */
  predicate Candidate(g: Graph, n: string, cutoff: Time, v: EntityVersion) {
    && (exists a :: a in g.aliases && a.normalized == n && AliasVisible(a, cutoff) && a.entity == v)
    && v in g.entities
    && LatestVisible(g.entities, v.key, cutoff) == Some(v)
  }

  /** With an index that agrees, resolution is a search of the visible entity versions by name. */
  lemma CandidatesAreNamedVersions(g: Graph, n: string, cutoff: Time, normalize: Normalizer)
    requires IndexAgrees(g, normalize)
    ensures forall v: EntityVersion :: Candidate(g, n, cutoff, v) <==>
                        LatestVisible(g.entities, v.key, cutoff) == Some(v) && HasNormalForm(v, n, normalize)
  {
    forall v: EntityVersion | LatestVisible(g.entities, v.key, cutoff) == Some(v) && HasNormalForm(v, n, normalize)
      ensures Candidate(g, n, cutoff, v)
    {
      assert Indexed(g, v, n);
      var a :| a in g.aliases && a.entity == v && a.normalized == n;
      assert AliasVisible(a, cutoff);
    }
    forall v | Candidate(g, n, cutoff, v) ensures HasNormalForm(v, n, normalize) {
      assert Indexed(g, v, n);
    }
  }

  // ---------------------------------------------------------------------------------------------
  // Which names are indexed
  // ---------------------------------------------------------------------------------------------

  /** A name that normalises to the empty string, for which no alias record can be built. */
  predicate HasBlankName(v: EntityVersion, normalize: Normalizer) {
    HasNormalForm(v, "", normalize)
  }

  /** The names before the first blank one. */
  function UpToBlank(names: seq<string>, normalize: Normalizer): (r: seq<string>)
    ensures forall s :: s in r ==> s in names && normalize(s) != ""
    ensures (forall s :: s in names ==> normalize(s) != "") ==> r == names
  {
    if names == [] || normalize(names[0]) == "" then []
    else
      assert names == [names[0]] + names[1..];
      [names[0]] + UpToBlank(names[1..], normalize)
  }

  /** The name sorts before every blank name of its version. */
  predicate Survives(v: EntityVersion, s: string, normalize: Normalizer) {
    s in AllNames(v.data) && forall b :: b in AllNames(v.data) && normalize(b) == "" ==> !StringLeq(b, s)
  }

  ghost predicate HasSurvivingForm(v: EntityVersion, n: string, normalize: Normalizer) {
    exists s :: Survives(v, s, normalize) && normalize(s) == n
  }

  /** The index holds exactly the normal forms of the names that sort before the first blank one. */
  ghost predicate IndexHoldsSurvivors(g: Graph, normalize: Normalizer) {
    && AliasRowsMatch(g)
    && forall v, n :: Indexed(g, v, n) <==> v in g.entities && HasSurvivingForm(v, n, normalize)
  }

  lemma {:induction false} UpToBlankMeaning(names: seq<string>, normalize: Normalizer, s: string)
    requires Sorted(names, StringLeq) && forall i, j :: 0 <= i < j < |names| ==> names[i] != names[j]
    ensures s in UpToBlank(names, normalize) <==> s in names && forall b :: b in names && normalize(b) == "" ==>
              !StringLeq(b, s)
  {
    if names != [] {
      var head, rest := names[0], names[1..];
      assert names == [head] + rest;
      UpToBlankMeaning(rest, normalize, s);
      StringLeqTotal(head, head);
      if s in rest {
        var k :| 0 <= k < |rest| && rest[k] == s;
        assert StringLeq(names[0], names[k + 1]);
      }
      forall b | b in rest && s == head ensures !StringLeq(b, s) {
        var k :| 0 <= k < |rest| && rest[k] == b;
        assert StringLeq(names[0], names[k + 1]) && names[0] != names[k + 1];
        StringLeqTotal(head, b);
      }
    }
  }

  /** The names whose rows `add_entity` gets to are those that sort before every blank one. */
  lemma SurvivorsAreIndexable(v: EntityVersion, normalize: Normalizer, s: string)
    ensures s in UpToBlank(NamesOf(v), normalize) <==> Survives(v, s, normalize)
  {
    var distinct := Distinct(AllNames(v.data));
    StringsAreOrdered();
    SortBySorted(distinct, StringLeq);
    SortByDistinct(distinct, StringLeq);
    NamesOfMembers(v);
    UpToBlankMeaning(NamesOf(v), normalize, s);
    hide StringLeq, UpToBlank, AllNames;
  }

  /** Adding names indexes exactly those before the first blank one, and raises exactly when there is one. */
  lemma {:induction false} AddNamesIndexes(g: Graph, v: EntityVersion, names: seq<string>, normalize: Normalizer)
    requires v in g.entities && AliasRowsMatch(g)
    ensures var (g', r) := AddNames(g, v, names, normalize);
            && AliasRowsMatch(g')
            && (r == Ok(true) <==> UpToBlank(names, normalize) == names)
            && forall w, n :: Indexed(g', w, n) <==>
                 Indexed(g, w, n) || (w == v && exists s :: s in UpToBlank(names, normalize) && normalize(s) == n)
    decreases |names|
  {
    if names != [] && normalize(names[0]) != "" {
      var a := AliasFor(v, names[0], normalize);
      var g1 := AddAlias(g, a).0;
      forall w, n ensures Indexed(g1, w, n) <==> Indexed(g, w, n) || (w == v && normalize(names[0]) == n) {
        if Indexed(g, w, n) {
          var b :| b in g.aliases && b.entity == w && b.normalized == n;
          assert b in g1.aliases;
        }
        if w == v && normalize(names[0]) == n {
          assert a in g1.aliases;
        }
      }
      AddNamesIndexes(g1, v, names[1..], normalize);
      assert names == [names[0]] + names[1..];
      assert UpToBlank(names, normalize) == [names[0]] + UpToBlank(names[1..], normalize);
    }
  }

  /**
   A version that passes the version check is pending in any case; its indexed normal forms are those
   of its surviving names, and the call raises exactly when one of its names is blank.
   */
  lemma AddEntityIndexesSurvivors(g: Graph, v: EntityVersion, normalize: Normalizer)
    requires AliasRowsMatch(g) && v !in g.entities && v.version == NextVersion(g.entities, v.key)
    ensures var (g', r) := AddEntity(g, v, normalize);
            && AliasRowsMatch(g') && g'.entities == g.entities + [v]
            && (r == Ok(true) <==> !HasBlankName(v, normalize))
            && (forall w, n :: w != v ==> (Indexed(g', w, n) <==> Indexed(g, w, n)))
            && forall n :: Indexed(g', v, n) <==> HasSurvivingForm(v, n, normalize)
  {
    var g1 := g.(entities := g.entities + [v]);
    var names := NamesOf(v);
    AddNamesKeepsRows(g1, v, names, normalize);
    AddNamesIndexes(g1, v, names, normalize);
    AllIndexable(v, normalize);
    forall w, n ensures Indexed(g1, w, n) <==> Indexed(g, w, n) {
    }
    forall n ensures (exists s :: s in UpToBlank(names, normalize) && normalize(s) == n) <==>
        HasSurvivingForm(v, n, normalize) {
      FormsOfSurvivors(v, n, normalize);
    }
    hide NamesOf, UpToBlank, AddNames, HasSurvivingForm, HasBlankName;
  }

  /** s is one of the names of the version. */
  predicate IsName(v: EntityVersion, s: string) {
    || s == v.data.canonicalName || s == v.data.englishName || s in v.data.aliases || s in v.data.identifiers
    || (v.data.hebrewName == Some(s) && s != "")
  }

  lemma NamesAreAllNames(v: EntityVersion)
    ensures forall s :: IsName(v, s) <==> s in AllNames(v.data)
  {
  }

  /** A name that sorts before every name that normalises to nothing. */
  ghost predicate Leads(v: EntityVersion, s: string, normalize: Normalizer) {
    IsName(v, s) && forall b :: IsName(v, b) && normalize(b) == "" ==> !StringLeq(b, s)
  }

  /** What becomes of the tables when a version is added. */
  ghost predicate EntityAdded(g: Graph, h: Graph, v: EntityVersion, normalize: Normalizer, added: Added) {
    && h.relationships == g.relationships && h.exposures == g.exposures
    && if v in g.entities then h == g && added == Ok(false)
       else if !NextOf(g.entities, v) then h == g && added == Err(IntegrityViolation)
       else && h.entities == g.entities + [v]
            && (added == if exists s :: IsName(v, s) && normalize(s) == "" then Err(ValidationError) else Ok(true))
            && forall a :: a in h.aliases <==> a in g.aliases || IsRowFor(v, a, normalize)
  }

  /** The alias row of a leading name: the name, its form, and the period of the version. */
  ghost predicate IsRowFor(v: EntityVersion, a: AliasRecord, normalize: Normalizer) {
    && Leads(v, a.alias, normalize) && a.normalized == normalize(a.alias) && a.entity == v
    && a.validFrom == v.validFrom && a.validUntil == v.validUntil && a.observedAt == v.observedAt
  }

  lemma {:induction false} AddNamesAddsRows(g: Graph, v: EntityVersion, names: seq<string>, normalize: Normalizer)
    requires v in g.entities
    ensures var (h, added) := AddNames(g, v, names, normalize);
            && (added == if UpToBlank(names, normalize) == names then Ok(true) else Err(ValidationError))
            && forall a :: a in h.aliases <==>
                 a in g.aliases || (a.alias in UpToBlank(names, normalize) && a == AliasFor(v, a.alias, normalize))
    decreases |names|
  {
    if names != [] && normalize(names[0]) != "" {
      var g1 := AddAlias(g, AliasFor(v, names[0], normalize)).0;
      AddNamesAddsRows(g1, v, names[1..], normalize);
      assert names == [names[0]] + names[1..];
      assert UpToBlank(names, normalize) == [names[0]] + UpToBlank(names[1..], normalize);
    }
  }

  lemma LeadingNamesAreIndexed(v: EntityVersion, normalize: Normalizer, s: string)
    ensures s in UpToBlank(NamesOf(v), normalize) <==> Leads(v, s, normalize)
  {
    NamesAreAllNames(v);
    hide IsName, AllNames, NamesOf, UpToBlank, StringLeq;
    SurvivorsAreIndexable(v, normalize, s);
  }

  lemma BlankNames(v: EntityVersion, normalize: Normalizer)
    ensures UpToBlank(NamesOf(v), normalize) == NamesOf(v) <==> !exists s :: IsName(v, s) && normalize(s) == ""
  {
    AllIndexable(v, normalize);
    NamesAreAllNames(v);
    hide IsName, AllNames, NamesOf, UpToBlank;
  }

  lemma RowsOfVersion(g: Graph, v: EntityVersion, normalize: Normalizer)
    requires v in g.entities
    ensures var (h, added) := AddNames(g, v, NamesOf(v), normalize);
            && h.entities == g.entities && h.relationships == g.relationships && h.exposures == g.exposures
            && (added == if exists s :: IsName(v, s) && normalize(s) == "" then Err(ValidationError) else Ok(true))
            && forall a :: a in h.aliases <==> a in g.aliases || IsRowFor(v, a, normalize)
  {
    AddNamesKeepsRows(g, v, NamesOf(v), normalize);
    AddNamesAddsRows(g, v, NamesOf(v), normalize);
    BlankNames(v, normalize);
    hide NamesOf, UpToBlank, AddNames, Leads, IsName;
    forall a: AliasRecord
      ensures a.alias in UpToBlank(NamesOf(v), normalize) && a == AliasFor(v, a.alias, normalize)
              <==> IsRowFor(v, a, normalize)
    {
      LeadingNamesAreIndexed(v, normalize, a.alias);
    }
  }

  /** Adding a version does just that to the tables. */
  lemma AddEntityAdds(g: Graph, v: EntityVersion, normalize: Normalizer)
    requires Sequential(g.entities) && ValidPeriod(v)
    ensures EntityAdded(g, AddEntity(g, v, normalize).0, v, normalize, AddEntity(g, v, normalize).1)
  {
    NextOfIsNextVersion(g.entities, v);
    RowsOfVersion(g.(entities := g.entities + [v]), v, normalize);
    hide NamesOf, AddNames, IsName, IsRowFor, NextOf, NextVersion, Sequential, ValidPeriod;
  }

  /** A version has a form among its names just when one of its five kinds of names has it. */
  lemma FormsOfNames(v: EntityVersion, n: string, normalize: Normalizer)
    ensures HasNormalForm(v, n, normalize) <==> exists s :: IsName(v, s) && normalize(s) == n
    ensures HasSurvivingForm(v, n, normalize) <==> exists s :: Leads(v, s, normalize) && normalize(s) == n
  {
    NamesAreAllNames(v);
    hide IsName, AllNames;
    forall s ensures Survives(v, s, normalize) <==> Leads(v, s, normalize) {
    }
  }

  /** An index that agreed still agrees after the call exactly when none of the new names is blank. */
  lemma AddEntityKeepsAgreementIff(g: Graph, v: EntityVersion, normalize: Normalizer)
    requires IndexAgrees(g, normalize) && v !in g.entities && v.version == NextVersion(g.entities, v.key)
    ensures var (g', r) := AddEntity(g, v, normalize);
            && v in g'.entities
            && (IndexAgrees(g', normalize) <==> !HasBlankName(v, normalize))
            && (r == Ok(true) <==> !HasBlankName(v, normalize))
  {
    AddEntityIndexesSurvivors(g, v, normalize);
    AllFormsSurviveIff(v, normalize);
    var g' := AddEntity(g, v, normalize).0;
    hide HasSurvivingForm, HasNormalForm, HasBlankName, AddEntity;
    if IndexAgrees(g', normalize) {
      forall n ensures HasSurvivingForm(v, n, normalize) <==> HasNormalForm(v, n, normalize) {
        assert Indexed(g', v, n) <==> HasNormalForm(v, n, normalize);
      }
    }
  }

  lemma FormsOfSurvivors(v: EntityVersion, n: string, normalize: Normalizer)
    ensures (exists s :: s in UpToBlank(NamesOf(v), normalize) && normalize(s) == n) <==>
              HasSurvivingForm(v, n, normalize)
  {
    forall s ensures s in UpToBlank(NamesOf(v), normalize) <==> Survives(v, s, normalize) {
      SurvivorsAreIndexable(v, normalize, s);
    }
    hide Survives, UpToBlank, NamesOf;
  }

  lemma AllIndexable(v: EntityVersion, normalize: Normalizer)
    ensures UpToBlank(NamesOf(v), normalize) == NamesOf(v) <==> !HasBlankName(v, normalize)
  {
    NamesOfMembers(v);
    hide NamesOf, AllNames;
    var names := NamesOf(v);
    if UpToBlank(names, normalize) == names {
      assert forall s :: s in names ==> normalize(s) != "";
    }
  }

  /** All names of a version survive exactly when none of them is blank. */
  lemma AllFormsSurviveIff(v: EntityVersion, normalize: Normalizer)
    ensures (forall n :: HasSurvivingForm(v, n, normalize) <==> HasNormalForm(v, n, normalize)) <==>
              !HasBlankName(v, normalize)
  {
    if HasBlankName(v, normalize) {
      var b :| b in AllNames(v.data) && normalize(b) == "";
      forall s ensures !(Survives(v, s, normalize) && normalize(s) == "") {
        StringLeqTotal(s, s);
      }
      assert !HasSurvivingForm(v, "", normalize);
    } else {
      forall s ensures Survives(v, s, normalize) <==> s in AllNames(v.data) {
        assert s in AllNames(v.data) ==> HasNormalForm(v, normalize(s), normalize);
        assert forall b :: b in AllNames(v.data) && normalize(b) == "" ==> HasNormalForm(v, "", normalize);
      }
      forall n ensures HasSurvivingForm(v, n, normalize) <==> HasNormalForm(v, n, normalize) {
      }
    }
  }

  /** A bank with a blank alias. */
  function NamedBlank(): EntityVersion {
    Row("institution.bank", 1, 0, None, 0, EntityData("Bank", "Bank", None, ["--"], []))
  }

  /**
   The failing case on concrete data: the blank alias "--" sorts before the canonical name, so the
   entity becomes visible in the session but cannot be resolved by its own canonical name.
   */
  lemma BlankNameLosesCanonicalName(normalize: Normalizer)
    requires normalize("--") == "" && normalize("Bank") == "bank"
    ensures var v := NamedBlank();
            var (g, r) := AddEntity(EMPTY, v, normalize);
            && r == Err(ValidationError)
            && LatestVisible(g.entities, v.key, 0) == Some(v) && HasNormalForm(v, "bank", normalize)
            && !Candidate(g, "bank", 0, v)
  {
    BlankComesFirst(normalize);
    BlankVersionIs();
    hide *;
    BlankStopsIndex(NamedBlank(), "bank", normalize);
  }

  lemma BlankVersionIs()
    ensures var v := NamedBlank(); v.version == 1 && Visible(v, 0)
  {
  }

  lemma BlankComesFirst(normalize: Normalizer)
    requires normalize("--") == "" && normalize("Bank") == "bank"
    ensures var v := NamedBlank();
            NamesOf(v) != [] && normalize(NamesOf(v)[0]) == "" && HasNormalForm(v, "bank", normalize)
  {
    BlankSortsFirst(NamedBlank());
    hide NamesOf;
    assert "Bank" in AllNames(NamedBlank().data);
  }

  /** A first version whose first name is blank is pending, visible and without any row in the index. */
  lemma BlankStopsIndex(v: EntityVersion, n: string, normalize: Normalizer)
    requires v.version == 1 && Visible(v, 0) && NamesOf(v) != [] && normalize(NamesOf(v)[0]) == ""
    ensures var (g, r) := AddEntity(EMPTY, v, normalize);
            r == Err(ValidationError) && LatestVisible(g.entities, v.key, 0) == Some(v) && !Candidate(g, n, 0, v)
  {
    hide NamesOf, AddNames, Visible, LatestVisible;
    assert EMPTY.entities + [v] == [v];
    AddNamesStops(Graph([v], [], [], []), v, NamesOf(v), normalize);
    OnlyVersion(v, 0);
  }

  lemma OnlyVersion(v: EntityVersion, cutoff: Time)
    requires Visible(v, cutoff)
    ensures LatestVisible([v], v.key, cutoff) == Some(v)
  {
    assert [v][..0] == [];
  }

  lemma AddNamesStops(g: Graph, v: EntityVersion, names: seq<string>, normalize: Normalizer)
    requires names != [] && normalize(names[0]) == ""
    ensures AddNames(g, v, names, normalize) == (g, Err(ValidationError))
  {
  }

  lemma BlankSortsFirst(v: EntityVersion)
    requires v.data == EntityData("Bank", "Bank", None, ["--"], [])
    ensures NamesOf(v) == ["--", "Bank"]
  {
    DistinctOfThree("Bank", "--");
    assert AllNames(v.data) == ["Bank", "Bank", "--"];
    assert !StringLeq("Bank", "--");
    assert ["Bank", "--"][1..] == ["--"];
    assert SortBy(["--"], StringLeq) == ["--"];
    assert Insert("Bank", ["--"], StringLeq) == ["--"] + Insert("Bank", [], StringLeq);
  }

  lemma DistinctOfThree(a: string, b: string)
    requires a != b
    ensures Distinct([a, a, b]) == [a, b]
  {
    assert [a, a, b][..2] == [a, a] && [a, a][..1] == [a] && [a][..0] == [];
    assert Distinct([a]) == [a];
    assert Distinct([a, a]) == [a];
  }

  /** Aliases enter only with their entity version. */
  predicate NoSeparateAliases(ops: seq<Op>) {
    forall op :: op in ops ==> !op.AliasOp?
  }

  /** Over every such series of calls, raising ones included, the index holds exactly the surviving names. */
  lemma RunIndexHoldsSurvivors(ops: seq<Op>, normalize: Normalizer)
    requires NoSeparateAliases(ops)
    ensures IndexHoldsSurvivors(Run(EMPTY, ops, normalize), normalize)
  {
    RunKeepsSurvivors(EMPTY, ops, normalize);
  }

  lemma {:induction false} RunKeepsSurvivors(g: Graph, ops: seq<Op>, normalize: Normalizer)
    requires IndexHoldsSurvivors(g, normalize) && NoSeparateAliases(ops)
    ensures IndexHoldsSurvivors(Run(g, ops, normalize), normalize)
    decreases |ops|
  {
    if ops != [] {
      assert ops[0] in ops;
      ApplyKeepsSurvivors(g, ops[0], normalize);
      hide IndexHoldsSurvivors;
      RunKeepsSurvivors(Apply(g, ops[0], normalize).0, ops[1..], normalize);
    }
  }

  lemma ApplyKeepsSurvivors(g: Graph, op: Op, normalize: Normalizer)
    requires IndexHoldsSurvivors(g, normalize) && !op.AliasOp?
    ensures IndexHoldsSurvivors(Apply(g, op, normalize).0, normalize)
  {
    hide HasSurvivingForm, NamesOf, AddNames;
    match op
    case EntityOp(v) =>
      if v !in g.entities && v.version == NextVersion(g.entities, v.key) {
        AddEntityIndexesSurvivors(g, v, normalize);
      }
    case RelationshipOp(_) => SameTablesSameIndex(g, Apply(g, op, normalize).0, normalize);
    case ExposureOp(_) => SameTablesSameIndex(g, Apply(g, op, normalize).0, normalize);
  }

  lemma SameTablesSameIndex(g: Graph, h: Graph, normalize: Normalizer)
    requires IndexHoldsSurvivors(g, normalize) && g.entities == h.entities && g.aliases == h.aliases
    ensures IndexHoldsSurvivors(h, normalize)
  {
    hide HasSurvivingForm;
    forall v, n ensures Indexed(h, v, n) == Indexed(g, v, n) {
    }
  }

  /** After such a run the index agrees with the entity table if and only if no stored name is blank. */
  lemma RunIndexAgreesIff(ops: seq<Op>, normalize: Normalizer)
    requires NoSeparateAliases(ops)
    ensures var g := Run(EMPTY, ops, normalize);
            IndexAgrees(g, normalize) <==> forall v :: v in g.entities ==> !HasBlankName(v, normalize)
  {
    RunIndexHoldsSurvivors(ops, normalize);
    AgreesIff(Run(EMPTY, ops, normalize), normalize);
  }

  /**
   Blank names or not, resolution selects exactly the visible versions that have the form among their surviving
   ones.
   */
  lemma CandidatesAreSurvivors(g: Graph, n: string, cutoff: Time, normalize: Normalizer)
    requires IndexHoldsSurvivors(g, normalize)
    ensures forall v: EntityVersion :: Candidate(g, n, cutoff, v) <==>
                        LatestVisible(g.entities, v.key, cutoff) == Some(v) && HasSurvivingForm(v, n, normalize)
  {
    hide HasSurvivingForm;
    forall v: EntityVersion | LatestVisible(g.entities, v.key, cutoff) == Some(v) && HasSurvivingForm(v, n, normalize)
      ensures Candidate(g, n, cutoff, v)
    {
      assert Indexed(g, v, n);
      var a :| a in g.aliases && a.entity == v && a.normalized == n;
      assert AliasVisible(a, cutoff);
    }
    forall v | Candidate(g, n, cutoff, v) ensures HasSurvivingForm(v, n, normalize) {
      assert Indexed(g, v, n);
    }
  }

  /** So it is after every run in which aliases enter only with entities. */
  lemma RunResolvesSurvivors(ops: seq<Op>, n: string, cutoff: Time, normalize: Normalizer)
    requires NoSeparateAliases(ops)
    ensures var g := Run(EMPTY, ops, normalize);
            forall v: EntityVersion :: Candidate(g, n, cutoff, v) <==>
                        LatestVisible(g.entities, v.key, cutoff) == Some(v) && HasSurvivingForm(v, n, normalize)
  {
    RunIndexHoldsSurvivors(ops, normalize);
    hide *;
    CandidatesAreSurvivors(Run(EMPTY, ops, normalize), n, cutoff, normalize);
  }

  lemma AgreesIff(g: Graph, normalize: Normalizer)
    requires IndexHoldsSurvivors(g, normalize)
    ensures IndexAgrees(g, normalize) <==> forall v :: v in g.entities ==> !HasBlankName(v, normalize)
  {
    forall v | v in g.entities
      ensures (forall n :: Indexed(g, v, n) <==> HasNormalForm(v, n, normalize)) <==> !HasBlankName(v, normalize)
    {
      AllFormsSurviveIff(v, normalize);
      assert forall n :: Indexed(g, v, n) <==> HasSurvivingForm(v, n, normalize);
    }
    hide HasSurvivingForm, HasNormalForm, HasBlankName;
  }

  // ---------------------------------------------------------------------------------------------
  // Point-in-time stability
  // ---------------------------------------------------------------------------------------------

  function AliasObservedBy(cutoff: Time): AliasRecord -> bool {
    (a: AliasRecord) => a.observedAt <= cutoff
  }

  /** The part of the tables that had been observed by the cutoff. */
  function Known(g: Graph, cutoff: Time): Graph {
    Graph(
      Filter(g.entities, ObservedBy(cutoff)),
      Filter(g.aliases, AliasObservedBy(cutoff)),
      Filter(g.relationships, ObservedBy(cutoff)),
      Filter(g.exposures, ObservedBy(cutoff))
    )
  }

  /** g and h answer every question about the cutoff in the same way. */
  ghost predicate SameAnswers(g: Graph, h: Graph, cutoff: Time) {
    && (forall id :: LatestVisible(g.entities, id, cutoff) == LatestVisible(h.entities, id, cutoff))
    && (forall key :: LatestVisible(g.relationships, key, cutoff) == LatestVisible(h.relationships, key, cutoff))
    && (forall key :: LatestVisible(g.exposures, key, cutoff) == LatestVisible(h.exposures, key, cutoff))
    && (forall n, v :: Candidate(g, n, cutoff, v) <==> Candidate(h, n, cutoff, v))
  }

  lemma KnownAnswers(g: Graph, cutoff: Time)
    ensures SameAnswers(g, Known(g, cutoff), cutoff)
  {
    var k := Known(g, cutoff);
    forall id ensures LatestVisible(g.entities, id, cutoff) == LatestVisible(k.entities, id, cutoff) {
      LatestVisibleKnown(g.entities, id, cutoff);
    }
    forall key ensures LatestVisible(g.relationships, key, cutoff) == LatestVisible(k.relationships, key, cutoff) {
      LatestVisibleKnown(g.relationships, key, cutoff);
    }
    forall key ensures LatestVisible(g.exposures, key, cutoff) == LatestVisible(k.exposures, key, cutoff) {
      LatestVisibleKnown(g.exposures, key, cutoff);
    }
    forall n, v ensures Candidate(g, n, cutoff, v) <==> Candidate(k, n, cutoff, v) {
    }
  }

  lemma {:induction false} LaterNamesUnknown(g: Graph, v: EntityVersion, names: seq<string>, normalize: Normalizer,
                                             cutoff: Time)
    requires cutoff < v.observedAt
    ensures Known(AddNames(g, v, names, normalize).0, cutoff) == Known(g, cutoff)
    decreases |names|
  {
    if names != [] && normalize(names[0]) != "" {
      var g1 := AddAlias(g, AliasFor(v, names[0], normalize)).0;
      assert Known(g1, cutoff) == Known(g, cutoff);
      LaterNamesUnknown(g1, v, names[1..], normalize, cutoff);
    }
  }

  lemma LaterOpUnknown(g: Graph, op: Op, normalize: Normalizer, cutoff: Time)
    requires cutoff < op.ObservedAt()
    ensures Known(Apply(g, op, normalize).0, cutoff) == Known(g, cutoff)
  {
    match op
    case EntityOp(v) =>
      if v !in g.entities && v.version == NextVersion(g.entities, v.key) {
        var g1 := g.(entities := g.entities + [v]);
        assert Known(g1, cutoff) == Known(g, cutoff);
        LaterNamesUnknown(g1, v, NamesOf(v), normalize, cutoff);
      }
    case AliasOp(_) =>
    case RelationshipOp(_) =>
    case ExposureOp(_) =>
  }

  /** No series of calls about records observed after the cutoff changes an answer at the cutoff. */
  lemma {:induction false} LaterRunsChangeNoAnswer(g: Graph, ops: seq<Op>, normalize: Normalizer, cutoff: Time)
    requires forall op :: op in ops ==> cutoff < op.ObservedAt()
    ensures SameAnswers(g, Run(g, ops, normalize), cutoff)
  {
    LaterRunUnknown(g, ops, normalize, cutoff);
    KnownAnswers(g, cutoff);
    KnownAnswers(Run(g, ops, normalize), cutoff);
  }

  lemma {:induction false} LaterRunUnknown(g: Graph, ops: seq<Op>, normalize: Normalizer, cutoff: Time)
    requires forall op :: op in ops ==> cutoff < op.ObservedAt()
    ensures Known(Run(g, ops, normalize), cutoff) == Known(g, cutoff)
    decreases |ops|
  {
    if ops != [] {
      LaterOpUnknown(g, ops[0], normalize, cutoff);
      LaterRunUnknown(Apply(g, ops[0], normalize).0, ops[1..], normalize, cutoff);
    }
  }
}
