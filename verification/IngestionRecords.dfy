/** Where every stored row of the ingestion comes from, field by field, and when a run stores anything. */
module IngestionRecords {
  import opened Prelude
  import opened Ingestion
  import opened IngestionHistory

  // ---------------------------------------------------------------------------------------------
  // Rows that a run writes
  // ---------------------------------------------------------------------------------------------

  /** The payload and the items of the run, and the key that its rows share. */
  ghost predicate Parsed(q: Request, key: Key, f: Fetched, items: seq<ParsedItem>) {
    && q.connector.fetched == Some(f) && q.connector.items == Some(items)
    && key.sourceId == q.connector.sourceId && key.dataset == q.dataset && key.sha == f.sha
  }

  /** The source row of a payload that was first observed at the given time, fit for the constructor of a source. */
  ghost predicate IsSource(q: Request, first: Time, s: SourceRow) {
    exists key: Key, f: Fetched, items: seq<ParsedItem> ::
      && Parsed(q, key, f, items)
      && s.uri == f.sourceUri && s.mimeType == f.contentType && s.sha == f.sha && s.publisher == q.connector.publisher
      && s.observedAt == first && s.ingestedAt == q.clock.ingested
      && (forall item: ParsedItem :: item in items && item.publishedAt.Some? ==>
            s.publishedAt.Some? && item.publishedAt.value <= s.publishedAt.value)
      && (s.publishedAt.Some? ==> exists item: ParsedItem :: item in items && item.publishedAt == s.publishedAt)
      && s.uri != "" && s.publisher != "" && s.mimeType != ""
      && (s.publishedAt.Some? ==> s.publishedAt.value <= s.observedAt) && s.observedAt <= s.ingestedAt
  }

  /** The observation of a parsed item of such a payload, fit for the constructor of an observation. */
  ghost predicate IsObservation(q: Request, first: Time, o: Observation) {
    exists f: Fetched, items: seq<ParsedItem> ::
      && Parsed(q, o.key, f, items) && o.item in items && IsSource(q, first, o.source)
      && o.firstObservedAt == first && o.parserVersion == q.connector.parserVersion
      && o.item.periodStart <= o.item.periodEnd
      && (o.item.publishedAt.Some? ==> o.item.publishedAt.value <= first)
      && o.key.sourceId != "" && o.key.dataset != "" && o.key.sha != "" && o.parserVersion != ""
      && o.item.itemKey != "" && o.item.value != "" && o.item.unit != ""
  }

  /** What the connector emitted for a parsed item and the source row of the payload. */
  ghost predicate IsEvidence(q: Request, first: Time, e: Evidence) {
    exists key: Key, f: Fetched, items: seq<ParsedItem>, item, source ::
      && Parsed(q, key, f, items) && item in items && IsSource(q, first, source)
      && q.connector.emit(item, source) == Some(e)
  }

  /** Evidence cites stored sources, none observed after it. */
  ghost predicate Cites(t: Tables, e: Evidence) {
    forall s :: s in e.sources ==> s in t.sources && s.observedAt <= e.observedAt
  }

  /** The item has its observation, that one its source, and what is emitted for the two is stored. */
  ghost predicate ItemStored(t: Tables, q: Request, first: Time, item: ParsedItem) {
    exists o :: && o in t.observations && o.item == item && IsObservation(q, first, o) && o.source in t.sources
                && q.connector.emit(item, o.source).Some? && q.connector.emit(item, o.source).value in t.evidence
  }

  /** The first observation of the payload of the run, according to its receipt. */
  ghost predicate FirstSeen(t: Tables, q: Request, first: Time) {
    && q.connector.fetched.Some?
    && var key := Key(q.connector.sourceId, q.dataset, q.connector.fetched.value.sha);
       key in t.receipts && t.receipts[key].firstObservedAt == first
  }

  // ---------------------------------------------------------------------------------------------
  // One run
  // ---------------------------------------------------------------------------------------------

  lemma OriginIsSource(t: Tables, q: Request)
    requires q.connector.fetched.Some? && q.connector.items.Some? && Inserts(t, q)
    ensures IsSource(q, ReceiptFor(t, q).firstObservedAt, OriginFor(t, q).source)
  {
    var f, items := q.connector.fetched.value, q.connector.items.value;
    assert Parsed(q, KeyOf(q), f, items);
    hide AllGood, ReceiptFor;
  }

  lemma GoodItemIsStored(t: Tables, q: Request, item: ParsedItem)
    requires q.connector.fetched.Some? && q.connector.items.Some? && Inserts(t, q) && item in q.connector.items.value
    ensures IsObservation(q, ReceiptFor(t, q).firstObservedAt, OriginFor(t, q).Observe(item))
    ensures var e := q.connector.emit(item, OriginFor(t, q).source);
            && e.Some? && IsEvidence(q, ReceiptFor(t, q).firstObservedAt, e.value)
            && (e.value in t.evidence || Cites(t.(sources := t.sources + {OriginFor(t, q).source}), e.value))
  {
    var f, items := q.connector.fetched.value, q.connector.items.value;
    var origin := OriginFor(t, q);
    OriginIsSource(t, q);
    assert Parsed(q, KeyOf(q), f, items);
    var i :| 0 <= i < |items| && items[i] == item;
    assert GoodItem(t.evidence, t.sources + {origin.source}, origin, q, items, i);
    hide IsSource, LatestPublication, ReceiptFor;
  }

  /** The rows that an inserting run adds, and that it adds all of them. */
  lemma InsertingRunAdds(t: Tables, q: Request)
    requires q.connector.fetched.Some? && q.connector.items.Some? && Inserts(t, q)
    ensures var first, after := ReceiptFor(t, q).firstObservedAt, Inserted(t, q);
            && FirstSeen(after, q, first)
            && (forall s :: s in after.sources && s !in t.sources ==> IsSource(q, first, s))
            && (forall o :: o in after.observations && o !in t.observations ==> IsObservation(q, first, o))
            && (forall e :: e in after.evidence && e !in t.evidence ==> IsEvidence(q, first, e) && Cites(after, e))
            && (forall item :: item in q.connector.items.value ==> ItemStored(after, q, first, item))
  {
    var first, after := ReceiptFor(t, q).firstObservedAt, Inserted(t, q);
    var origin, items := OriginFor(t, q), q.connector.items.value;
    OriginIsSource(t, q);
    assert origin.source in after.sources;
    hide IsSource, IsObservation, IsEvidence, OriginFor, Inserts;
    forall o | o in after.observations && o !in t.observations ensures IsObservation(q, first, o) {
      var i :| 0 <= i < |items| && o == origin.Observe(items[i]);
      GoodItemIsStored(t, q, items[i]);
    }
    forall e | e in after.evidence && e !in t.evidence ensures IsEvidence(q, first, e) && Cites(after, e) {
      var i :| 0 <= i < |items| && q.connector.emit(items[i], origin.source) == Some(e);
      GoodItemIsStored(t, q, items[i]);
    }
    forall item | item in items ensures ItemStored(after, q, first, item) {
      GoodItemIsStored(t, q, item);
      var i :| 0 <= i < |items| && items[i] == item;
      assert origin.Observe(items[i]) in Batch(origin, items, |items|);
      assert q.connector.emit(items[i], origin.source).value in Emitted(origin, q.connector, items, |items|);
    }
  }

  /** What one run adds to the tables. */
  ghost predicate AddsRows(t: Tables, after: Tables, q: Request, first: Time) {
    && FirstSeen(after, q, first)
    && (forall s :: s in after.sources && s !in t.sources ==> IsSource(q, first, s))
    && (forall o :: o in after.observations && o !in t.observations ==> IsObservation(q, first, o))
    && (forall e :: e in after.evidence && e !in t.evidence ==> IsEvidence(q, first, e) && Cites(after, e))
  }

  ghost predicate AddsNone(t: Tables, after: Tables) {
    after.sources == t.sources && after.observations == t.observations && after.evidence == t.evidence
  }

  /** A run adds nothing but rows of its own payload, and a run that inserts adds one for every item. */
  lemma RunAddsItsRows(before: Db, after: Db, q: Request, m: Manifest) returns (first: Time)
    requires RunEffect(before, after, q, m)
    ensures before.tables.sources <= after.tables.sources
    ensures AddsNone(before.tables, after.tables) || AddsRows(before.tables, after.tables, q, first)
    ensures m.status == Succeeded && !AlreadyIngested(before.tables, q) ==>
              && q.connector.items.Some? && FirstSeen(after.tables, q, first)
              && forall item :: item in q.connector.items.value ==> ItemStored(after.tables, q, first, item)
  {
    first := 0;
    hide Inserts, AlreadyIngested, IsSource, IsObservation, IsEvidence, Cites, FirstSeen, Batch, Emitted, OriginFor,
        Parses;
    if Succeeds(before.tables, q) && !AlreadyIngested(before.tables, q) {
      assert Inserts(before.tables, q);
      first := ReceiptFor(before.tables, q).firstObservedAt;
      hide *;
      InsertingRunAdds(before.tables, q);
      InsertedIs(before, after, q, m);
    }
  }

  lemma InsertedIs(before: Db, after: Db, q: Request, m: Manifest)
    requires RunEffect(before, after, q, m) && Succeeds(before.tables, q) && !AlreadyIngested(before.tables, q)
    ensures q.connector.fetched.Some? && q.connector.items.Some? && after.tables == Inserted(before.tables, q)
    ensures before.tables.sources <= after.tables.sources
  {
    hide Succeeds, AlreadyIngested, Batch, Emitted, OriginFor, ReceiptFor;
  }

  // ---------------------------------------------------------------------------------------------
  // All runs
  // ---------------------------------------------------------------------------------------------

  lemma StepOfHistory(dbs: seq<Db>, qs: seq<Request>, k: nat) returns (m: Manifest, first: Time)
    requires History(dbs, qs) && k < |qs|
    ensures RunEffect(dbs[k], dbs[k + 1], qs[k], m) && dbs[k].tables.sources <= dbs[k + 1].tables.sources
    ensures AddsNone(dbs[k].tables, dbs[k + 1].tables) || AddsRows(dbs[k].tables, dbs[k + 1].tables, qs[k], first)
  {
    assert RanAt(dbs, qs, k);
    m := dbs[k + 1].manifests[qs[k].runId];
    hide *;
    first := RunAddsItsRows(dbs[k], dbs[k + 1], qs[k], m);
  }

  lemma FirstSeenStays(dbs: seq<Db>, qs: seq<Request>, i: nat, j: nat, q: Request, first: Time)
    requires History(dbs, qs) && i <= j <= |qs| && FirstSeen(dbs[i].tables, q, first)
    ensures FirstSeen(dbs[j].tables, q, first)
  {
    hide History;
    ReceiptsStay(dbs, qs, i, j, Key(q.connector.sourceId, q.dataset, q.connector.fetched.value.sha));
  }

  /** Every stored source describes the payload of one of the runs, as of the first observation on its receipt. */
  lemma {:induction false} SourcesComeFromRuns(dbs: seq<Db>, qs: seq<Request>, n: nat, s: SourceRow)
      returns (k: nat, first: Time)
    requires History(dbs, qs) && n <= |qs| && s in dbs[n].tables.sources
    ensures k < n && FirstSeen(dbs[n].tables, qs[k], first) && IsSource(qs[k], first, s)
  {
    assert n != 0;
    hide *;
    var m, time := StepOfHistory(dbs, qs, n - 1);
    if s in dbs[n - 1].tables.sources {
      k, first := SourcesComeFromRuns(dbs, qs, n - 1, s);
      FirstSeenStays(dbs, qs, n - 1, n, qs[k], first);
    } else {
      NewRows(dbs[n - 1].tables, dbs[n].tables, qs[n - 1], time);
      k, first := n - 1, time;
    }
  }

  /** Every stored observation is a parsed item of one of the runs, under the first observation on its receipt. */
  lemma {:induction false} ObservationsComeFromRuns(dbs: seq<Db>, qs: seq<Request>, n: nat, o: Observation)
      returns (k: nat, first: Time)
    requires History(dbs, qs) && n <= |qs| && o in dbs[n].tables.observations
    ensures k < n && FirstSeen(dbs[n].tables, qs[k], first) && IsObservation(qs[k], first, o)
  {
    assert n != 0;
    hide *;
    var m, time := StepOfHistory(dbs, qs, n - 1);
    if o in dbs[n - 1].tables.observations {
      k, first := ObservationsComeFromRuns(dbs, qs, n - 1, o);
      FirstSeenStays(dbs, qs, n - 1, n, qs[k], first);
    } else {
      NewRows(dbs[n - 1].tables, dbs[n].tables, qs[n - 1], time);
      k, first := n - 1, time;
    }
  }

  /** Every stored piece of evidence was emitted by one of the runs, and cites stored sources not later than it. */
  lemma {:induction false} EvidenceComesFromRuns(dbs: seq<Db>, qs: seq<Request>, n: nat, e: Evidence)
      returns (k: nat, first: Time)
    requires History(dbs, qs) && n <= |qs| && e in dbs[n].tables.evidence
    ensures k < n && FirstSeen(dbs[n].tables, qs[k], first) && IsEvidence(qs[k], first, e) && Cites(dbs[n].tables, e)
  {
    assert n != 0;
    hide *;
    var m, time := StepOfHistory(dbs, qs, n - 1);
    if e in dbs[n - 1].tables.evidence {
      k, first := EvidenceComesFromRuns(dbs, qs, n - 1, e);
      FirstSeenStays(dbs, qs, n - 1, n, qs[k], first);
      CitesStays(dbs[n - 1].tables, dbs[n].tables, e);
    } else {
      NewRows(dbs[n - 1].tables, dbs[n].tables, qs[n - 1], time);
      k, first := n - 1, time;
    }
  }

  lemma CitesStays(t: Tables, after: Tables, e: Evidence)
    requires Cites(t, e) && t.sources <= after.sources
    ensures Cites(after, e)
  {
  }

  lemma NewRows(t: Tables, after: Tables, q: Request, first: Time)
    requires AddsNone(t, after) || AddsRows(t, after, q, first)
    ensures forall s :: s in after.sources && s !in t.sources ==> IsSource(q, first, s) && FirstSeen(after, q, first)
    ensures forall o :: o in after.observations && o !in t.observations ==>
                        IsObservation(q, first, o) && FirstSeen(after, q, first)
    ensures forall e :: e in after.evidence && e !in t.evidence ==>
                        IsEvidence(q, first, e) && Cites(after, e) && FirstSeen(after, q, first)
  {
    hide IsSource, IsObservation, IsEvidence, Cites, FirstSeen;
  }

  // ---------------------------------------------------------------------------------------------
  // Bytes
  // ---------------------------------------------------------------------------------------------

  /** The metadata of the bytes is the size and the content type under which the run fetched them. */
  ghost predicate Fetches(q: Request, sha: string, meta: ArtifactMeta) {
    && q.connector.fetched.Some? && q.connector.fetched.value.sha == sha
    && meta.size == q.connector.fetched.value.size && meta.mimeType == q.connector.fetched.value.contentType
  }

  /** A receipt gives its bytes the content type that their metadata gives them. */
  ghost predicate TypesAgree(t: Tables) {
    forall key :: key in t.receipts ==>
      key.sha in t.artifacts && t.receipts[key].contentType == t.artifacts[key.sha].mimeType
  }

  /** One run: known metadata stay, new metadata are those of the payload, and receipts and metadata keep agreeing. */
  lemma RunKeepsTypes(before: Db, after: Db, q: Request, m: Manifest)
    requires RunEffect(before, after, q, m) && TypesAgree(before.tables)
    ensures TypesAgree(after.tables)
    ensures forall sha :: sha in after.tables.artifacts ==>
              if sha in before.tables.artifacts then after.tables.artifacts[sha] == before.tables.artifacts[sha]
              else Fetches(q, sha, after.tables.artifacts[sha])
  {
    hide Inserts, Batch, Emitted, ObservationsFor, AlreadyIngested, OriginFor, LatestPublication;
  }

  /** Every stored artifact was fetched by one of the runs, and every receipt agrees with its artifact. */
  lemma {:induction false} ArtifactsComeFromRuns(dbs: seq<Db>, qs: seq<Request>, n: nat)
    requires History(dbs, qs) && n <= |qs|
    ensures TypesAgree(dbs[n].tables)
    ensures forall sha :: sha in dbs[n].tables.artifacts ==>
              exists k :: 0 <= k < n && Fetches(qs[k], sha, dbs[n].tables.artifacts[sha])
  {
    if n > 0 {
      ArtifactsComeFromRuns(dbs, qs, n - 1);
      assert RanAt(dbs, qs, n - 1);
      hide RunEffect, Fetches, TypesAgree;
      RunKeepsTypes(dbs[n - 1], dbs[n], qs[n - 1], dbs[n].manifests[qs[n - 1].runId]);
      forall sha | sha in dbs[n].tables.artifacts
        ensures exists k :: 0 <= k < n && Fetches(qs[k], sha, dbs[n].tables.artifacts[sha])
      {
        if sha in dbs[n - 1].tables.artifacts {
          var k :| 0 <= k < n - 1 && Fetches(qs[k], sha, dbs[n - 1].tables.artifacts[sha]);
          assert Fetches(qs[k], sha, dbs[n].tables.artifacts[sha]);
        }
      }
    }
  }

  // ---------------------------------------------------------------------------------------------
  // When a run succeeds
  // ---------------------------------------------------------------------------------------------

  /** Observations of the payload are stored already. */
  ghost predicate Ingested(t: Tables, q: Request) {
    exists o :: && o in t.observations && q.connector.fetched.Some? && o.key.sourceId == q.connector.sourceId
                && o.key.dataset == q.dataset && o.key.sha == q.connector.fetched.value.sha
  }

  /** The steps that the run gets to, with n items to store, all succeed. */
  ghost predicate NoFault(t: Tables, q: Request, n: nat) {
    && !q.faults(ExistsStep) && !q.faults(WriteStep) && !q.faults(CleanupStep) && !q.faults(MetadataStep)
    && !q.faults(FinishStep) && !q.faults(CommitStep)
    && ((forall first :: !FirstSeen(t, q, first)) ==> !q.faults(ReceiptCommitStep))
    && (!Ingested(t, q) ==>
          && !q.faults(NormalizeStep) && !q.faults(SourceStep)
          && forall i: nat :: i < n ==> !q.faults(ObservationStep(i)) && !q.faults(EvidenceStep(i)))
  }

  /** An item makes an observation, and evidence that is known or cites what is stored by then. */
  ghost predicate ItemFits(t: Tables, q: Request, first: Time, source: SourceRow, item: ParsedItem) {
    && (exists o: Observation :: o.item == item && o.source == source && IsObservation(q, first, o))
    && q.connector.emit(item, source).Some?
    && var e := q.connector.emit(item, source).value;
       e in t.evidence || Cites(t.(sources := t.sources + {source}), e)
  }

  ghost predicate ItemsFit(t: Tables, q: Request, first: Time, source: SourceRow) {
    && q.connector.items.Some? && IsSource(q, first, source)
    && forall item :: item in q.connector.items.value ==> ItemFits(t, q, first, source, item)
  }

  /** The time that the rows of the payload would carry: that on its receipt, if there is one. */
  ghost predicate Dates(t: Tables, q: Request, first: Time) {
    FirstSeen(t, q, first) || ((forall other :: !FirstSeen(t, q, other)) && first == q.clock.observed)
  }

  /** The bytes are new, or stored under the same size and content type. */
  ghost predicate BytesFit(t: Tables, f: Fetched) {
    f.sha in t.artifacts ==> t.artifacts[f.sha].size == f.size && t.artifacts[f.sha].mimeType == f.contentType
  }

  lemma DatesIsReceipt(t: Tables, q: Request, first: Time)
    requires q.connector.fetched.Some?
    ensures Dates(t, q, first) <==> first == ReceiptFor(t, q).firstObservedAt
    ensures (exists other :: FirstSeen(t, q, other)) <==> KeyOf(q) in t.receipts
  {
    if KeyOf(q) in t.receipts {
      assert FirstSeen(t, q, t.receipts[KeyOf(q)].firstObservedAt);
    }
  }

  lemma IngestedIsAlreadyIngested(t: Tables, q: Request)
    ensures Ingested(t, q) <==> AlreadyIngested(t, q)
  {
    if Ingested(t, q) {
      var o :| && o in t.observations && q.connector.fetched.Some? && o.key.sourceId == q.connector.sourceId
               && o.key.dataset == q.dataset && o.key.sha == q.connector.fetched.value.sha;
      assert o in ObservationsFor(t.observations, KeyOf(q));
    }
    if AlreadyIngested(t, q) {
      var o :| o in ObservationsFor(t.observations, KeyOf(q));
    }
  }

  /** The description of a source leaves one row only. */
  lemma IsSourceIff(t: Tables, q: Request, s: SourceRow)
    requires q.connector.fetched.Some? && q.connector.items.Some?
    ensures IsSource(q, ReceiptFor(t, q).firstObservedAt, s) <==> s == OriginFor(t, q).source && ValidSource(s)
  {
    var f, items := q.connector.fetched.value, q.connector.items.value;
    var first := ReceiptFor(t, q).firstObservedAt;
    hide ReceiptFor;
    if s == OriginFor(t, q).source && ValidSource(s) {
      assert Parsed(q, KeyOf(q), f, items);
    }
    if IsSource(q, first, s) {
      assert s.publishedAt == LatestPublication(items);
    }
  }

  lemma IsObservationIff(t: Tables, q: Request, o: Observation)
    requires q.connector.fetched.Some? && q.connector.items.Some? && ValidSource(OriginFor(t, q).source)
    requires o.item in q.connector.items.value && o.source == OriginFor(t, q).source
    ensures IsObservation(q, ReceiptFor(t, q).firstObservedAt, o) <==>
            o == OriginFor(t, q).Observe(o.item) && ValidObservation(o)
  {
    IsSourceIff(t, q, o.source);
    var f, items := q.connector.fetched.value, q.connector.items.value;
    assert Parsed(q, KeyOf(q), f, items);
    hide IsSource, ReceiptFor, ValidSource;
  }

  lemma ItemFitsIff(t: Tables, q: Request, item: ParsedItem)
    requires q.connector.fetched.Some? && q.connector.items.Some? && ValidSource(OriginFor(t, q).source)
    requires item in q.connector.items.value
    ensures ItemFits(t, q, ReceiptFor(t, q).firstObservedAt, OriginFor(t, q).source, item) <==>
            var origin := OriginFor(t, q);
            var e := q.connector.emit(item, origin.source);
            && ValidObservation(origin.Observe(item)) && e.Some?
            && (e.value in t.evidence || Supported(e.value, t.sources + {origin.source}))
  {
    var origin, first := OriginFor(t, q), ReceiptFor(t, q).firstObservedAt;
    hide ReceiptFor, OriginFor, IsObservation, ValidObservation, ValidSource;
    IsObservationIff(t, q, origin.Observe(item));
    if ItemFits(t, q, first, origin.source, item) {
      var o: Observation :| o.item == item && o.source == origin.source && IsObservation(q, first, o);
      IsObservationIff(t, q, o);
    }
  }

  /** Source and items fit, and no step of storing them fails. */
  lemma InsertsIff(t: Tables, q: Request)
    requires q.connector.fetched.Some? && q.connector.items.Some?
    ensures Inserts(t, q) <==>
      && !q.faults(SourceStep)
      && (forall i: nat :: i < |q.connector.items.value| ==>
            !q.faults(ObservationStep(i)) && !q.faults(EvidenceStep(i)))
      && exists source :: ItemsFit(t, q, ReceiptFor(t, q).firstObservedAt, source)
  {
    var origin, items, first := OriginFor(t, q), q.connector.items.value, ReceiptFor(t, q).firstObservedAt;
    IsSourceIff(t, q, origin.source);
    hide ReceiptFor, OriginFor, IsSource, ValidSource, ItemFits, ValidObservation, Supported;
    if Inserts(t, q) {
      forall item | item in items ensures ItemFits(t, q, first, origin.source, item) {
        var i :| 0 <= i < |items| && items[i] == item;
        assert GoodItem(t.evidence, t.sources + {origin.source}, origin, q, items, i);
        ItemFitsIff(t, q, item);
      }
      assert ItemsFit(t, q, first, origin.source);
      forall i: nat | i < |items| ensures !q.faults(ObservationStep(i)) && !q.faults(EvidenceStep(i)) {
        assert GoodItem(t.evidence, t.sources + {origin.source}, origin, q, items, i);
      }
    }
    if && !q.faults(SourceStep)
       && (forall i: nat :: i < |items| ==> !q.faults(ObservationStep(i)) && !q.faults(EvidenceStep(i)))
       && exists source :: ItemsFit(t, q, first, source)
    {
      var source :| ItemsFit(t, q, first, source);
      IsSourceIff(t, q, source);
      forall i | 0 <= i < |items|
        ensures GoodItem(t.evidence, t.sources + {origin.source}, origin, q, items, i)
      {
        ItemFitsIff(t, q, items[i]);
      }
    }
  }

  /** When a run succeeds: bytes, source and items fit, or the payload is known, and no step that it gets to fails. */
  lemma SucceedsIff(t: Tables, q: Request)
    requires Consistent(t) && q.connector.fetched.Some?
    ensures Succeeds(t, q) <==>
      && BytesFit(t, q.connector.fetched.value)
      && NoFault(t, q, if q.connector.items.Some? then |q.connector.items.value| else 0)
      && (Ingested(t, q) || exists first, source :: Dates(t, q, first) && ItemsFit(t, q, first, source))
  {
    var first := ReceiptFor(t, q).firstObservedAt;
    forall other ensures Dates(t, q, other) <==> other == first {
      DatesIsReceipt(t, q, other);
    }
    DatesIsReceipt(t, q, first);
    IngestedIsAlreadyIngested(t, q);
    KnownPayload(t, q);
    if q.connector.items.Some? {
      InsertsIff(t, q);
    }
    hide Inserts, Ingested, AlreadyIngested, Dates, FirstSeen, ReceiptFor, Consistent;
    assert BytesFit(t, q.connector.fetched.value) <==> MetadataAgrees(t, q.connector.fetched.value);
  }

  /** When a run leaves its payload durable: it was so before, or its bytes fit and no step up to the commit fails. */
  lemma RawIsDurableIff(before: Db, after: Db, q: Request, m: Manifest, f: Fetched)
    requires Consistent(before.tables) && RunEffect(before, after, q, m) && q.connector.fetched == Some(f)
    ensures var key := Key(q.connector.sourceId, q.dataset, f.sha);
            key in after.tables.receipts <==>
            || key in before.tables.receipts
            || (&& BytesFit(before.tables, f) && !q.faults(ExistsStep) && !q.faults(WriteStep)
                && !q.faults(CleanupStep) && !q.faults(MetadataStep) && !q.faults(ReceiptCommitStep))
  {
    KnownPayload(before.tables, q);
    hide Inserts, AlreadyIngested, Batch, Emitted, OriginFor, Parses;
  }

  /** No run before the one that wrote the receipt got the payload past the commit. */
  lemma FirstDurableRun(dbs: seq<Db>, qs: seq<Request>, first: nat, i: nat, key: Key, f: Fetched)
    requires History(dbs, qs) && first < |qs| && ReceivedAt(dbs, qs, first, key) && i < first
    requires qs[i].connector.fetched == Some(f) && key == Key(qs[i].connector.sourceId, qs[i].dataset, f.sha)
    ensures !BytesFit(dbs[i].tables, f) || qs[i].faults(ExistsStep) || qs[i].faults(WriteStep)
            || qs[i].faults(CleanupStep) || qs[i].faults(MetadataStep) || qs[i].faults(ReceiptCommitStep)
  {
    assert RanAt(dbs, qs, i) && key !in dbs[first].tables.receipts;
    HistoryConsistent(dbs, qs, i);
    hide *;
    RawIsDurableIff(dbs[i], dbs[i + 1], qs[i], dbs[i + 1].manifests[qs[i].runId], f);
    if key in dbs[i + 1].tables.receipts {
      ReceiptsStay(dbs, qs, i + 1, first, key);
    }
  }
}
