/**
 The ingestion protocol: a run commits its manifest, then commits the raw receipt, and then either
 commits everything parsed from the payload or rolls back and commits a failed manifest.
 */
module Ingestion {
  import opened Prelude

  /** A fetched payload; its body is represented by its SHA-256. */
  datatype Fetched = Fetched(sha: string, size: nat, sourceUri: string, contentType: string)

  datatype ParsedItem = ParsedItem(
    itemKey: string,
    periodStart: int,
    periodEnd: int,
    publishedAt: Option<Time>,
    effectiveAt: Option<Time>,
    supersededAt: Option<Time>,
    value: string,
    unit: string
  )

  // Rows. Content identifiers are injective, so a row stands for its own identifier.
  datatype ArtifactMeta = ArtifactMeta(size: nat, mimeType: string)
  datatype Key = Key(sourceId: string, dataset: string, sha: string)
  datatype Receipt = Receipt(sourceUri: string, contentType: string, firstObservedAt: Time)
  datatype SourceRow = SourceRow(
    uri: string, publisher: string, publishedAt: Option<Time>, observedAt: Time, ingestedAt: Time, sha: string,
        mimeType: string)
  datatype Observation = Observation(
    key: Key, source: SourceRow, item: ParsedItem, firstObservedAt: Time, parserVersion: string)
  datatype Evidence = Evidence(claim: string, sources: set<SourceRow>, observedAt: Time)

  datatype Status = Running | Succeeded | Failed

  /** What ended a run: an exception from the environment, or an error of the checks below. */
  datatype Failure = Environment | Refusal(error: Violation)

  datatype Manifest = Manifest(
    runId: string, sourceId: string, dataset: string, startedAt: Time, finishedAt: Option<Time>, status: Status,
    itemsFetched: nat, itemsInserted: nat, duplicates: nat, bytesDownloaded: nat, rawArtifactsCreated: nat,
    parserVersion: string, errorSummary: Option<Failure>)

  /** Everything a run may store, apart from its manifest. */
  datatype Tables = Tables(
    artifacts: map<string, ArtifactMeta>,
    receipts: map<Key, Receipt>,
    sources: set<SourceRow>,
    observations: set<Observation>,
    evidence: set<Evidence>
  )

  datatype Db = Db(manifests: map<string, Manifest>, tables: Tables)

  const NO_TABLES := Tables(map[], map[], {}, {}, {})

  /** A connector and what the outside world makes of it in one run; None stands for an exception. */
  datatype Connector = Connector(
    sourceId: string,
    publisher: string,
    parserVersion: string,
    enabled: bool,
    fetched: Option<Fetched>,
    items: Option<seq<ParsedItem>>,
    emit: (ParsedItem, SourceRow) -> Option<Evidence>
  )

  /** The readings of the clock. */
  datatype Clock = Clock(started: Time, observed: Time, ingested: Time, finished: Time)

  /** The points at which the environment may raise. */
  datatype Step =
    | ExistsStep
    | WriteStep
    | CleanupStep
    | MetadataStep
    | ReceiptCommitStep
    | NormalizeStep
    | SourceStep
    | ObservationStep(index: nat)
    | EvidenceStep(index: nat)
    | FinishStep
    | CommitStep

  type Faults = Step -> bool

  datatype Request = Request(connector: Connector, dataset: string, runId: string, clock: Clock, faults: Faults)

  /** The clock never runs backwards. */
  predicate Ordered(clock: Clock) {
    clock.started <= clock.observed <= clock.ingested <= clock.finished
  }

  function ObservationsFor(observations: set<Observation>, key: Key): set<Observation> {
    set o | o in observations && o.key == key
  }

  /** What the constructor of a normalised observation checks. */
  predicate ValidObservation(o: Observation) {
    && o.item.periodStart <= o.item.periodEnd
    && (o.item.publishedAt.Some? ==> o.item.publishedAt.value <= o.firstObservedAt)
    && o.key.sourceId != "" && o.key.dataset != "" && o.key.sha != "" && o.parserVersion != ""
    && o.item.itemKey != "" && o.item.value != "" && o.item.unit != ""
  }

  /** What the constructor of a source checks. */
  predicate ValidSource(s: SourceRow) {
    && s.uri != "" && s.publisher != "" && s.mimeType != ""
    && (s.publishedAt.Some? ==> s.publishedAt.value <= s.observedAt) && s.observedAt <= s.ingestedAt
  }

  /** The error of a source that the constructor refuses: the timeline is checked after uri and publisher. */
  function SourceError(s: SourceRow): Violation
    requires !ValidSource(s)
  {
    if s.uri == "" || s.publisher == "" then ValidationError
    else if (s.publishedAt.Some? && s.publishedAt.value > s.observedAt) || s.observedAt > s.ingestedAt
        then PointInTimeViolation
    else ValidationError
  }

  /** The latest publication time that any item names. */
  function LatestPublication(items: seq<ParsedItem>): (latest: Option<Time>)
    ensures forall item :: item in items && item.publishedAt.Some? ==>
              latest.Some? && item.publishedAt.value <= latest.value
    ensures latest.Some? ==> exists item :: item in items && item.publishedAt == latest
  {
    if items == [] then None
    else
      var rest := LatestPublication(items[..|items| - 1]);
      var last := items[|items| - 1].publishedAt;
      if last.None? then rest
      else if rest.None? || rest.value < last.value then last
      else rest
  }

  /** Evidence may only cite stored sources, none of them observed after it. */
  predicate Supported(e: Evidence, sources: set<SourceRow>) {
    forall s :: s in e.sources ==> s in sources && s.observedAt <= e.observedAt
  }

  // ---------------------------------------------------------------------------------------------
  // What a run makes of a payload
  // ---------------------------------------------------------------------------------------------

  /** What all observations of one payload share. */
  datatype Origin = Origin(key: Key, source: SourceRow, firstObservedAt: Time, parserVersion: string) {
    function Observe(item: ParsedItem): Observation {
      Observation(key, source, item, firstObservedAt, parserVersion)
    }
  }

  function KeyOf(q: Request): Key
    requires q.connector.fetched.Some?
  {
    Key(q.connector.sourceId, q.dataset, q.connector.fetched.value.sha)
  }

  /** The receipt of the payload: the stored one, or a new one with the time of this observation. */
  function ReceiptFor(t: Tables, q: Request): Receipt
    requires q.connector.fetched.Some?
  {
    var f := q.connector.fetched.value;
    if KeyOf(q) in t.receipts then t.receipts[KeyOf(q)] else Receipt(f.sourceUri, f.contentType, q.clock.observed)
  }

  /** The tables once the raw payload is durable. */
  function WithRaw(t: Tables, q: Request): Tables
    requires q.connector.fetched.Some?
  {
    var f := q.connector.fetched.value;
    t.(artifacts := t.artifacts[f.sha := ArtifactMeta(f.size, f.contentType)],
       receipts := t.receipts[KeyOf(q) := ReceiptFor(t, q)])
  }

  function OriginFor(t: Tables, q: Request): Origin
    requires q.connector.fetched.Some? && q.connector.items.Some?
  {
    var f, first := q.connector.fetched.value, ReceiptFor(t, q).firstObservedAt;
    Origin(KeyOf(q),
           SourceRow(f.sourceUri, q.connector.publisher, LatestPublication(q.connector.items.value), first,
                     q.clock.ingested, f.sha, f.contentType),
           first, q.connector.parserVersion)
  }

  /** The observations of the first n parsed items. */
  function Batch(origin: Origin, items: seq<ParsedItem>, n: nat): set<Observation>
    requires n <= |items|
  {
    set i | 0 <= i < n :: origin.Observe(items[i])
  }

  /** The evidence emitted for the first n parsed items. */
  function Emitted(origin: Origin, c: Connector, items: seq<ParsedItem>, n: nat): set<Evidence>
    requires n <= |items|
  {
    set i | 0 <= i < n && c.emit(items[i], origin.source).Some? :: c.emit(items[i], origin.source).value
  }

  /** Nothing stands in the way of storing item i. */
  predicate GoodItem(evidence: set<Evidence>, sources: set<SourceRow>, origin: Origin, q: Request,
                     items: seq<ParsedItem>, i: nat)
    requires i < |items|
  {
    var e := q.connector.emit(items[i], origin.source);
    && ValidObservation(origin.Observe(items[i])) && e.Some?
    && (e.value in evidence || Supported(e.value, sources))
    && !q.faults(ObservationStep(i)) && !q.faults(EvidenceStep(i))
  }

  predicate AllGood(t: Tables, origin: Origin, q: Request, items: seq<ParsedItem>, n: nat)
    requires n <= |items|
  {
    forall i :: 0 <= i < n ==> GoodItem(t.evidence, t.sources, origin, q, items, i)
  }

  /** The stored metadata of these bytes, if any, has the same size and content type. */
  predicate MetadataAgrees(t: Tables, f: Fetched) {
    f.sha in t.artifacts ==> t.artifacts[f.sha] == ArtifactMeta(f.size, f.contentType)
  }

  /** The run gets past the point at which artifact and receipt are durable. */
  predicate RawStored(t: Tables, q: Request) {
    && q.connector.fetched.Some? && MetadataAgrees(t, q.connector.fetched.value)
    && !q.faults(ExistsStep) && !q.faults(WriteStep) && !q.faults(CleanupStep) && !q.faults(MetadataStep)
    && (KeyOf(q) in t.receipts || !q.faults(ReceiptCommitStep))
  }

  /** What ends a run that does not get there. */
  function RawFailure(t: Tables, q: Request): Failure {
    if q.connector.fetched.Some? && !q.faults(ExistsStep) && !q.faults(WriteStep) && !q.faults(CleanupStep)
        && !q.faults(MetadataStep)
       && !MetadataAgrees(t, q.connector.fetched.value)
    then Refusal(IntegrityViolation)
    else Environment
  }

  /** The counter of raw artifacts: it is set before the bytes are written. */
  function RawCounter(q: Request, store: set<string>): nat {
    if q.connector.fetched.None? || q.faults(ExistsStep) || q.connector.fetched.value.sha in store then 0 else 1
  }

  /** The artifact store after the run. */
  function StoreAfter(q: Request, store: set<string>): set<string> {
    if q.connector.fetched.None? || q.faults(ExistsStep) || q.faults(WriteStep) then store
    else store + {q.connector.fetched.value.sha}
  }

  /** The counter is the growth of the store, if and only if new bytes were not refused by a failing write. */
  lemma CounterIsGrowthIff(q: Request, store: set<string>)
    ensures store <= StoreAfter(q, store)
    ensures RawCounter(q, store)
            == |StoreAfter(q, store)| - |store| + if RawCounter(q, store) == 1 && q.faults(WriteStep) then 1 else 0
    ensures RawCounter(q, store) == |StoreAfter(q, store) - store| <==>
              !(RawCounter(q, store) == 1 && q.faults(WriteStep))
  {
    var after := StoreAfter(q, store);
    if q.connector.fetched.Some? {
      var sha := q.connector.fetched.value.sha;
      assert store + {sha} - store == if sha in store then {} else {sha};
    }
    assert store - store == {};
    assert q.connector.fetched.Some? && q.connector.fetched.value.sha in store ==>
        store + {q.connector.fetched.value.sha} == store;
  }

  predicate AlreadyIngested(t: Tables, q: Request) {
    q.connector.fetched.Some? && ObservationsFor(t.observations, KeyOf(q)) != {}
  }

  predicate Parses(q: Request) {
    !q.faults(NormalizeStep) && q.connector.items.Some?
  }

  /** Source and items pass every check when stored on top of the raw payload. */
  predicate Inserts(t: Tables, q: Request)
    requires q.connector.fetched.Some? && q.connector.items.Some?
  {
    var origin, items := OriginFor(t, q), q.connector.items.value;
    && ValidSource(origin.source) && !q.faults(SourceStep)
    && AllGood(t.(sources := t.sources + {origin.source}), origin, q, items, |items|)
  }

  predicate Succeeds(t: Tables, q: Request) {
    && RawStored(t, q) && !q.faults(FinishStep) && !q.faults(CommitStep)
    && (AlreadyIngested(t, q) || (Parses(q) && Inserts(t, q)))
  }

  // ---------------------------------------------------------------------------------------------
  // The effect of a run on the committed tables
  // ---------------------------------------------------------------------------------------------

  /** Observations are backed by a receipt, an artifact and one source record per payload. */
  ghost predicate Consistent(t: Tables) {
    && (forall k :: k in t.receipts ==> k.sha in t.artifacts)
    && (forall o :: o in t.observations ==>
          o.key in t.receipts && o.firstObservedAt == t.receipts[o.key].firstObservedAt && o.source in t.sources)
    && (forall o, p :: o in t.observations && p in t.observations && o.key == p.key ==> o.source == p.source)
  }

  /** The receipt names the uri and the content type under which the run fetched the payload, and when. */
  ghost predicate WrittenBy(q: Request, key: Key, receipt: Receipt) {
    && q.connector.fetched.Some?
    && var f := q.connector.fetched.value;
       && key.sourceId == q.connector.sourceId && key.dataset == q.dataset && key.sha == f.sha
       && receipt.sourceUri == f.sourceUri && receipt.contentType == f.contentType
       && receipt.firstObservedAt == q.clock.observed
  }

  /** The bytes of every receipt are in the artifact store. */
  ghost predicate Backed(t: Tables, store: set<string>) {
    forall k :: k in t.receipts ==> k.sha in store
  }

  /** The run failed: at most the raw payload has become durable. */
  ghost predicate FailedRun(before: Tables, after: Tables, q: Request, m: Manifest) {
    && m.status == Failed && m.itemsInserted == 0 && m.duplicates == 0
    && m.errorSummary.Some? && (!RawStored(before, q) ==> m.errorSummary == Some(RawFailure(before, q)))
    && after == AfterFailure(before, q) && m.itemsFetched == FetchedBeforeFailure(before, q)
  }

  /** The payload had already been turned into observations: nothing but the manifest is new. */
  ghost predicate DuplicateRun(before: Tables, after: Tables, q: Request, m: Manifest) {
    && AlreadyIngested(before, q)
    && m.status == Succeeded && m.errorSummary == None && m.itemsInserted == 0
    && m.itemsFetched == m.duplicates == |ObservationsFor(before.observations, KeyOf(q))|
    && after == before
  }

  /** The payload was new to the observation table: all of it is inserted, under its first receipt. */
  ghost predicate InsertingRun(before: Tables, after: Tables, q: Request, m: Manifest) {
    && q.connector.fetched.Some? && q.connector.items.Some?
    && ObservationsFor(before.observations, KeyOf(q)) == {}
    && after == Inserted(before, q)
    && m.status == Succeeded && m.errorSummary == None && m.itemsFetched == |q.connector.items.value|
    && m.itemsInserted == |Batch(OriginFor(before, q), q.connector.items.value, |q.connector.items.value|)|
    && m.itemsInserted + m.duplicates == m.itemsFetched
  }

  function Inserted(t: Tables, q: Request): Tables
    requires q.connector.fetched.Some? && q.connector.items.Some?
  {
    var origin, items := OriginFor(t, q), q.connector.items.value;
    WithRaw(t, q).(sources := t.sources + {origin.source},
                   observations := t.observations + Batch(origin, items, |items|),
                   evidence := t.evidence + Emitted(origin, q.connector, items, |items|))
  }

  ghost predicate RunEffect(before: Db, after: Db, q: Request, m: Manifest) {
    && after.manifests == before.manifests[q.runId := m]
    && m.runId == q.runId && m.sourceId == q.connector.sourceId && m.dataset == q.dataset
    && m.parserVersion == q.connector.parserVersion
    && m.startedAt == q.clock.started && m.finishedAt == Some(q.clock.finished)
    && m.bytesDownloaded == (if q.connector.fetched.Some? then q.connector.fetched.value.size else 0)
    && if !Succeeds(before.tables, q) then FailedRun(before.tables, after.tables, q, m)
       else if AlreadyIngested(before.tables, q) then DuplicateRun(before.tables, after.tables, q, m)
       else InsertingRun(before.tables, after.tables, q, m)
  }

  lemma RawKeepsConsistent(t: Tables, q: Request)
    requires q.connector.fetched.Some? && Consistent(t)
    ensures Consistent(WithRaw(t, q))
  {
  }

  lemma InsertionKeepsConsistent(t: Tables, q: Request)
    requires q.connector.fetched.Some? && q.connector.items.Some? && Consistent(t)
    requires ObservationsFor(t.observations, KeyOf(q)) == {}
    ensures Consistent(Inserted(t, q))
  {
    RawKeepsConsistent(t, q);
    var known := ObservationsFor(t.observations, KeyOf(q));
    assert forall o :: o in t.observations && o.key == KeyOf(q) ==> o in known;
    hide Emitted;
  }

  /** Every run keeps the tables consistent and every receipt as first written; a new one is written by the run. */
  lemma RunKeepsTables(before: Db, after: Db, q: Request, m: Manifest, key: Key)
    requires Consistent(before.tables) && RunEffect(before, after, q, m)
    ensures Consistent(after.tables)
    ensures key in before.tables.receipts ==>
      key in after.tables.receipts && after.tables.receipts[key] == before.tables.receipts[key]
    ensures key !in before.tables.receipts && key in after.tables.receipts ==>
      WrittenBy(q, key, after.tables.receipts[key])
  {
    hide Inserts, Batch, Emitted, Consistent, ObservationsFor, MetadataAgrees, AlreadyIngested;
    if q.connector.fetched.Some? {
      RawKeepsConsistent(before.tables, q);
      if q.connector.items.Some? && ObservationsFor(before.tables.observations, KeyOf(q)) == {} {
        InsertionKeepsConsistent(before.tables, q);
      }
    }
  }

  // ---------------------------------------------------------------------------------------------
  // The runner
  // ---------------------------------------------------------------------------------------------

  /** What the exception handler still knows: the counters that were set before the failure. */
  datatype Tally = Tally(itemsFetched: nat, itemsInserted: nat, duplicates: nat, bytesDownloaded: nat,
    rawArtifactsCreated: nat)

  function ManifestOf(q: Request, status: Status, finishedAt: Option<Time>, n: Tally, error: Option<Failure>)
    : Manifest
  {
    Manifest(q.runId, q.connector.sourceId, q.dataset, q.clock.started, finishedAt, status,
             n.itemsFetched, n.itemsInserted, n.duplicates, n.bytesDownloaded, n.rawArtifactsCreated,
             q.connector.parserVersion, error)
  }

  class IngestionRunner {
    var committed: Db
    var session: Db
    var store: set<string>

    ghost predicate Valid()
      reads this
    {
      session == committed && Consistent(committed.tables) && Backed(committed.tables, store)
    }

    lemma ValidParts()
      ensures Valid() <==> session == committed && Consistent(committed.tables) && Backed(committed.tables, store)
    {
    }

    constructor ()
      ensures Valid() && committed == Db(map[], NO_TABLES) && store == {}
    {
      committed, session, store := Db(map[], NO_TABLES), Db(map[], NO_TABLES), {};
    }

    method Commit()
      modifies this`committed
      ensures committed == session
    {
      committed := session;
    }

    method Rollback()
      modifies this`session
      ensures session == committed
    {
      session := committed;
    }

    /** `SqlObservationRepository.add`; the source and the artifact must be stored. */
    method AddObservation(o: Observation) returns (created: Result<bool, Violation>)
      modifies this`session
      ensures created.Err? <==> o !in old(session).tables.observations
                                && (o.source !in old(session).tables.sources
                                    || o.key.sha !in old(session).tables.artifacts)
      ensures created.Err? ==> session == old(session)
      ensures created.Ok? ==>
        && session.manifests == old(session).manifests
        && session.tables == old(session).tables.(observations := old(session).tables.observations + {o})
        && (created.value <==> o !in old(session).tables.observations)
    {
      var t := session.tables;
      if o in t.observations {
        assert t.observations + {o} == t.observations;
        return Ok(false);
      }
      if o.source !in t.sources || o.key.sha !in t.artifacts {
        return Err(IntegrityViolation);
      }
      session := session.(tables := t.(observations := t.observations + {o}));
      return Ok(true);
    }

    /** `SqlEvidenceRepository.add`. */
    method AddEvidence(e: Evidence) returns (added: Result<(), Violation>)
      modifies this`session
      ensures added.Ok? <==> e in old(session).tables.evidence || Supported(e, old(session).tables.sources)
      ensures added.Err? ==> session == old(session)
      ensures added.Ok? ==>
        session == old(session).(tables := old(session).tables.(evidence := old(session).tables.evidence + {e}))
    {
      var t := session.tables;
      if e in t.evidence {
        assert t.evidence + {e} == t.evidence;
        return Ok(());
      }
      if !Supported(e, t.sources) {
        return Err(IntegrityViolation);
      }
      session := session.(tables := t.(evidence := t.evidence + {e}));
      return Ok(());
    }

    /** One turn of the item loop; t holds the tables as they were before the loop. */
    method InsertItem(origin: Origin, q: Request, i: nat, ghost t: Tables) returns (created: Result<bool, Failure>)
      requires q.connector.items.Some? && i < |q.connector.items.value|
      requires origin.source in t.sources && origin.key.sha in t.artifacts
      requires session.tables == Stored(t, origin, q, i) && AllGood(t, origin, q, q.connector.items.value, i)
      modifies this`session
      ensures created.Ok? <==> GoodItem(t.evidence, t.sources, origin, q, q.connector.items.value, i)
      ensures session.manifests == old(session).manifests
      ensures created.Ok? ==> session.tables == Stored(t, origin, q, i + 1)
      ensures created.Ok? ==>
                (created.value <==> origin.Observe(q.connector.items.value[i]) !in old(session).tables.observations)
    {
      hide Batch, Emitted, Supported, ValidObservation, AllGood;
      var item := q.connector.items.value[i];
      var observation := origin.Observe(item);
      if !ValidObservation(observation) {
        return Err(Refusal(ValidationError));
      }
      if q.faults(ObservationStep(i)) {
        return Err(Environment);
      }
      var stored := AddObservation(observation);
      assert stored.Ok?;
      var evidence := q.connector.emit(item, origin.source);
      if evidence.None? || q.faults(EvidenceStep(i)) {
        return Err(Environment);
      }
      if evidence.value in Emitted(origin, q.connector, q.connector.items.value, i) {
        SupportedBefore(t, origin, q, i, evidence.value);
      }
      StoredGrows(t, origin, q, i, observation, evidence.value);
      var added := AddEvidence(evidence.value);
      if added.Err? {
        return Err(Refusal(added.error));
      }
      return Ok(stored.value);
    }

    /** The item loop: one observation and one piece of evidence for every parsed item. */
    method InsertItems(origin: Origin, q: Request) returns (r: Result<(nat, nat), Failure>)
      requires q.connector.items.Some?
      requires origin.source in session.tables.sources && origin.key.sha in session.tables.artifacts
      modifies this`session
      ensures r.Ok? <==> AllGood(old(session).tables, origin, q, q.connector.items.value, |q.connector.items.value|)
      ensures session.manifests == old(session).manifests
      ensures r.Ok? ==> session.tables == Stored(old(session).tables, origin, q, |q.connector.items.value|)
      ensures r.Ok? ==> r.value.0 == NewRows(old(session).tables, origin, q.connector.items.value,
                                             |q.connector.items.value|)
      ensures r.Ok? ==> r.value.0 + r.value.1 == |q.connector.items.value|
    {
      var n := |q.connector.items.value|;
      var inserted, duplicates := 0, 0;
      ghost var before := session.tables;
      LoopStarts(before, origin, q);
      hide *;
      for i := 0 to n
        invariant session.manifests == old(session).manifests
        invariant LoopState(before, session.tables, origin, q, i, inserted, duplicates)
      {
        LoopStateIs(before, session.tables, origin, q, i, inserted, duplicates);
        ghost var known := session.tables;
        var created := InsertItem(origin, q, i, before);
        LoopStep(before, known, session.tables, origin, q, i, inserted, duplicates, created);
        if created.Err? {
          return Err(created.error);
        }
        if created.value {
          inserted := inserted + 1;
        } else {
          duplicates := duplicates + 1;
        }
      }
      LoopStateIs(before, session.tables, origin, q, n, inserted, duplicates);
      return Ok((inserted, duplicates));
    }

    /** `add_artifact_metadata`. */
    method AddArtifactMetadata(f: Fetched) returns (added: bool)
      modifies this`session
      ensures added <==> MetadataAgrees(old(session).tables, f)
      ensures session.manifests == old(session).manifests
      ensures added ==>
        var known, meta := old(session).tables.artifacts, ArtifactMeta(f.size, f.contentType);
        session.tables == old(session).tables.(artifacts := known[f.sha := meta])
    {
      var t, meta := session.tables, ArtifactMeta(f.size, f.contentType);
      if f.sha in t.artifacts {
        assert t.artifacts[f.sha] == meta ==> t.artifacts[f.sha := meta] == t.artifacts;
        return t.artifacts[f.sha] == meta;
      }
      session := session.(tables := t.(artifacts := t.artifacts[f.sha := meta]));
      return true;
    }

    /** Makes the payload durable: the bytes in the store, then metadata and receipt in one commit. */
    method StoreRaw(q: Request) returns (r: Result<(Receipt, bool), Failure>, created: nat)
      requires q.connector.fetched.Some? && session == committed && Consistent(session.tables)
      modifies this
      ensures r.Ok? <==> RawStored(old(session).tables, q)
      ensures r.Err? ==> committed == old(committed) && r.error == RawFailure(old(session).tables, q)
      ensures r.Ok? ==> session == committed == old(session).(tables := WithRaw(old(session).tables, q))
      ensures r.Ok? ==> r.value == (ReceiptFor(old(session).tables, q), KeyOf(q) in old(session).tables.receipts)
      ensures store == StoreAfter(q, old(store)) && created == RawCounter(q, old(store))
    {
      var f, before := q.connector.fetched.value, session.tables;
      created := 0;
      if q.faults(ExistsStep) {
        return Err(Environment), 0;
      }
      created := if f.sha in store then 0 else 1;
      if q.faults(WriteStep) {
        return Err(Environment), created;
      }
      store := store + {f.sha};
      if q.faults(CleanupStep) || q.faults(MetadataStep) {
        return Err(Environment), created;
      }
      var added := AddArtifactMetadata(f);
      if !added {
        return Err(Refusal(IntegrityViolation)), created;
      }
      var key := KeyOf(q);
      if key in session.tables.receipts {
        KnownReceipt(before, q);
        return Ok((session.tables.receipts[key], true)), created;
      }
      var receipt := Receipt(f.sourceUri, f.contentType, q.clock.observed);
      session := session.(tables := session.tables.(receipts := session.tables.receipts[key := receipt]));
      if q.faults(ReceiptCommitStep) {
        return Err(Environment), created;
      }
      Commit();
      return Ok((receipt, false)), created;
    }

    /** `SqlManifestRepository.finish`: updates the fields that a running manifest leaves open. */
    method FinishManifest(m: Manifest) returns (found: bool)
      modifies this`session
      ensures found <==> m.runId in old(session).manifests
      ensures session.tables == old(session).tables
      ensures found ==>
        session.manifests == old(session).manifests[m.runId := Finished(old(session).manifests[m.runId], m)]
      ensures !found ==> session == old(session)
    {
      if m.runId !in session.manifests {
        return false;
      }
      session := session.(manifests := session.manifests[m.runId := Finished(session.manifests[m.runId], m)]);
      return true;
    }

    /** Ends a successful run: the manifest and everything pending become durable together. */
    method Succeed(q: Request, tally: Tally) returns (r: Result<Manifest, Failure>)
      requires StartedManifest(session, q)
      modifies this`session, this`committed
      ensures r.Ok? <==> !q.faults(FinishStep) && !q.faults(CommitStep)
      ensures r.Err? ==> committed == old(committed)
      ensures r.Ok? ==> r.value == ManifestOf(q, Succeeded, Some(q.clock.finished), tally, None)
      ensures r.Ok? ==> session == committed == old(session).(manifests := old(session).manifests[q.runId := r.value])
    {
      var finished := ManifestOf(q, Succeeded, Some(q.clock.finished), tally, None);
      var found := FinishManifest(finished);
      if !found {
        return Err(Refusal(IntegrityViolation));
      }
      if q.faults(FinishStep) || q.faults(CommitStep) {
        return Err(Environment);
      }
      Commit();
      return Ok(finished);
    }

    /** Normalising, parsing and storing the source, the observations and the evidence. */
    method InsertParsed(q: Request, firstObservedAt: Time, created: nat, ghost before: Tables)
      returns (r: Result<Manifest, Failure>, fetched: nat)
      requires q.connector.fetched.Some? && StartedManifest(session, q)
      requires session.tables == WithRaw(before, q) && firstObservedAt == ReceiptFor(before, q).firstObservedAt
      requires !AlreadyIngested(before, q)
      modifies this`session, this`committed
      ensures r.Ok? <==> Parses(q) && Inserts(before, q) && !q.faults(FinishStep) && !q.faults(CommitStep)
      ensures fetched == if Parses(q) then |q.connector.items.value| else 0
      ensures r.Err? ==> committed == old(committed)
      ensures r.Ok? ==> session == committed && committed.manifests == old(session).manifests[q.runId := r.value]
      ensures r.Ok? ==> InsertingRun(before, committed.tables, q, r.value) && r.value.rawArtifactsCreated == created
      ensures r.Ok? ==> exists tally :: r.value == ManifestOf(q, Succeeded, Some(q.clock.finished), tally, None)
                                        && tally.bytesDownloaded == q.connector.fetched.value.size
    {
      hide *;
      ParsesIs(q);
      fetched := 0;
      if q.faults(NormalizeStep) || q.connector.items.None? {
        return Err(Environment), 0;
      }
      var f, items := q.connector.fetched.value, q.connector.items.value;
      fetched := |items|;
      InsertsIs(before, q);
      var source := SourceRow(f.sourceUri, q.connector.publisher, LatestPublication(items), firstObservedAt,
                              q.clock.ingested, f.sha, f.contentType);
      if !ValidSource(source) {
        return Err(Refusal(SourceError(source))), fetched;
      }
      if q.faults(SourceStep) {
        return Err(Environment), fetched;
      }
      session := session.(tables := session.tables.(sources := session.tables.sources + {source}));
      var origin := Origin(KeyOf(q), source, firstObservedAt, q.connector.parserVersion);
      InsertionEffect(before, q);
      StartedStays(old(session), session, q);
      var counts := InsertItems(origin, q);
      if counts.Err? {
        return Err(counts.error), fetched;
      }
      StartedStays(old(session), session, q);
      r := Succeed(q, Tally(fetched, counts.value.0, counts.value.1, f.size, created));
      if r.Ok? {
        InsertingRunIs(before, q, Tally(fetched, counts.value.0, counts.value.1, f.size, created));
      }
    }

    /** The body of the try block; what it returns on an exception is what the handler still knows. */
    method Attempt(q: Request) returns (r: Result<Manifest, Failure>, tally: Tally)
      requires session == committed && Consistent(session.tables) && StartedManifest(session, q)
      requires Backed(session.tables, store)
      modifies this
      ensures r.Ok? <==> Succeeds(old(session).tables, q)
      ensures r.Err? ==> committed == old(session).(tables := AfterFailure(old(session).tables, q))
      ensures r.Err? ==> tally.itemsFetched == FetchedBeforeFailure(old(session).tables, q)
      ensures r.Err? && !RawStored(old(session).tables, q) ==> r.error == RawFailure(old(session).tables, q)
      ensures tally.itemsInserted == 0 && tally.duplicates == 0
      ensures tally.bytesDownloaded == (if q.connector.fetched.Some? then q.connector.fetched.value.size else 0)
      ensures tally.rawArtifactsCreated == RawCounter(q, old(store)) && store == StoreAfter(q, old(store))
      ensures r.Ok? ==> session == committed && committed.manifests == old(session).manifests[q.runId := r.value]
      ensures r.Ok? ==>
        exists n :: && r.value == ManifestOf(q, Succeeded, Some(q.clock.finished), n, None)
                    && n.bytesDownloaded == tally.bytesDownloaded
      ensures r.Ok? && AlreadyIngested(old(session).tables, q) ==>
                DuplicateRun(old(session).tables, committed.tables, q, r.value)
      ensures r.Ok? && !AlreadyIngested(old(session).tables, q) ==>
                InsertingRun(old(session).tables, committed.tables, q, r.value)
      ensures r.Ok? ==> r.value.rawArtifactsCreated == RawCounter(q, old(store))
    {
      ghost var before := session.tables;
      tally := Tally(0, 0, 0, 0, 0);
      if q.connector.fetched.None? {
        return Err(Environment), tally;
      }
      tally := tally.(bytesDownloaded := q.connector.fetched.value.size);
      var stored, created := StoreRaw(q);
      tally := tally.(rawArtifactsCreated := created);
      if stored.Err? {
        return Err(stored.error), tally;
      }
      var (receipt, known) := stored.value;
      KnownPayload(before, q);
      if known {
        var duplicates := |ObservationsFor(session.tables.observations, KeyOf(q))|;
        if duplicates != 0 {
          r := Succeed(q, Tally(duplicates, 0, duplicates, tally.bytesDownloaded, 0));
          return;
        }
      }
      hide *;
      var fetched: nat;
      r, fetched := InsertParsed(q, receipt.firstObservedAt, created, before);
      tally := tally.(itemsFetched := fetched);
    }

    /** Commits the running manifest before anything else can fail. */
    method StartRun(q: Request)
      requires session == committed
      modifies this`session, this`committed
      ensures session == committed && StartedManifest(session, q) && session.tables == old(session).tables
      ensures var running := ManifestOf(q, Running, None, Tally(0, 0, 0, 0, 0), None);
              session.manifests == old(session).manifests[q.runId := running]
    {
      var running := ManifestOf(q, Running, None, Tally(0, 0, 0, 0, 0), None);
      session := session.(manifests := session.manifests[q.runId := running]);
      Commit();
    }

    /** The exception handler: roll back and commit a failed manifest. */
    method FailRun(q: Request, tally: Tally, error: Failure) returns (failed: Manifest)
      requires StartedManifest(committed, q)
      modifies this`session, this`committed
      ensures failed == ManifestOf(q, Failed, Some(q.clock.finished), tally, Some(error))
      ensures failed.rawArtifactsCreated == tally.rawArtifactsCreated
      ensures session == committed == old(committed).(manifests := old(committed).manifests[q.runId := failed])
    {
      Rollback();
      failed := ManifestOf(q, Failed, Some(q.clock.finished), tally, Some(error));
      var found := FinishManifest(failed);
      Commit();
    }

    /** One ingestion run, from the running manifest to the finished or failed one. */
    method Run(q: Request) returns (r: Result<Manifest, Violation>)
      requires Valid() && q.runId !in committed.manifests && Ordered(q.clock)
      modifies this
      ensures Valid()
      ensures r.Err? <==> !q.connector.enabled
      ensures r.Err? ==> committed == old(committed) && store == old(store)
      ensures r.Ok? ==> RunEffect(old(committed), committed, q, r.value)
      ensures r.Ok? ==> r.value.rawArtifactsCreated == RawCounter(q, old(store)) && store == StoreAfter(q, old(store))
    {
      if !q.connector.enabled {
        return Err(GovernanceViolation);
      }
      ghost var before, bytes := committed, store;
      hide *;
      ValidParts();
      StartRun(q);
      var attempt, tally := Attempt(q);
      if attempt.Ok? {
        r := Ok(attempt.value);
        SuccessIsEffect(before, committed, q, r.value);
      } else {
        AfterFailureKeepsManifest(q, before, committed);
        var failed := FailRun(q, tally, attempt.error);
        r := Ok(failed);
        FailureIsEffect(before, committed, q, tally, attempt.error);
      }
      RunKeepsTables(before, committed, q, r.value, Key("", "", ""));
      ReceiptsHaveBytes(before, committed, q, r.value, bytes);
      ValidParts();
    }
  }

  lemma AfterFailureKeepsManifest(q: Request, before: Db, db: Db)
    requires db.manifests == before.manifests[q.runId := ManifestOf(q, Running, None, Tally(0, 0, 0, 0, 0), None)]
    ensures StartedManifest(db, q)
  {
  }

  lemma SuccessIsEffect(before: Db, after: Db, q: Request, m: Manifest)
    requires Succeeds(before.tables, q) && after.manifests == before.manifests[q.runId := m]
    requires exists n :: m == ManifestOf(q, Succeeded, Some(q.clock.finished), n, None)
                         && n.bytesDownloaded == (if q.connector.fetched.Some? then q.connector.fetched.value.size
                                                  else 0)
    requires if AlreadyIngested(before.tables, q) then DuplicateRun(before.tables, after.tables, q, m)
             else InsertingRun(before.tables, after.tables, q, m)
    ensures RunEffect(before, after, q, m)
  {
    hide Succeeds, DuplicateRun, InsertingRun, AlreadyIngested;
  }

  lemma FailureIsEffect(before: Db, after: Db, q: Request, tally: Tally, error: Failure)
    requires !Succeeds(before.tables, q) && (!RawStored(before.tables, q) ==> error == RawFailure(before.tables, q))
    requires var failed := ManifestOf(q, Failed, Some(q.clock.finished), tally, Some(error));
             after == Db(before.manifests[q.runId := failed], AfterFailure(before.tables, q))
    requires tally.itemsInserted == 0 && tally.duplicates == 0
    requires tally.itemsFetched == FetchedBeforeFailure(before.tables, q)
    requires tally.bytesDownloaded == (if q.connector.fetched.Some? then q.connector.fetched.value.size else 0)
    ensures RunEffect(before, after, q, ManifestOf(q, Failed, Some(q.clock.finished), tally, Some(error)))
  {
    hide Succeeds, AfterFailure, FetchedBeforeFailure, AlreadyIngested, RawStored, RawFailure;
  }

  lemma ReceiptsHaveBytes(before: Db, after: Db, q: Request, m: Manifest, store: set<string>)
    requires RunEffect(before, after, q, m)
    requires Backed(before.tables, store)
    ensures Backed(after.tables, StoreAfter(q, store))
  {
    hide Inserts, Batch, Emitted, ObservationsFor, MetadataAgrees, AlreadyIngested;
  }

  /** What the exception handler finds committed. */
  function AfterFailure(t: Tables, q: Request): Tables {
    if RawStored(t, q) then WithRaw(t, q) else t
  }

  /** The item counter of a failed run. */
  function FetchedBeforeFailure(t: Tables, q: Request): nat {
    if RawStored(t, q) && !AlreadyIngested(t, q) && Parses(q) then |q.connector.items.value| else 0
  }

  /** Only a payload with a receipt can have observations. */
  lemma KnownPayload(t: Tables, q: Request)
    requires q.connector.fetched.Some? && Consistent(t)
    ensures AlreadyIngested(t, q) ==> KeyOf(q) in t.receipts
    ensures WithRaw(t, q).observations == t.observations
    ensures AlreadyIngested(t, q) <==> |ObservationsFor(t.observations, KeyOf(q))| != 0
  {
  }

  function Finished(row: Manifest, m: Manifest): Manifest {
    row.(finishedAt := m.finishedAt, status := m.status,
         itemsFetched := m.itemsFetched, itemsInserted := m.itemsInserted, duplicates := m.duplicates,
         bytesDownloaded := m.bytesDownloaded, rawArtifactsCreated := m.rawArtifactsCreated,
         errorSummary := m.errorSummary)
  }

  predicate StartedManifest(db: Db, q: Request) {
    q.runId in db.manifests && db.manifests[q.runId] == ManifestOf(q, Running, None, Tally(0, 0, 0, 0, 0), None)
  }

  /** A payload with a receipt adds nothing to the raw tables. */
  lemma KnownReceipt(t: Tables, q: Request)
    requires q.connector.fetched.Some? && KeyOf(q) in t.receipts && Consistent(t)
    requires MetadataAgrees(t, q.connector.fetched.value)
    ensures WithRaw(t, q) == t
  {
    var f := q.connector.fetched.value;
    assert t.artifacts[f.sha := ArtifactMeta(f.size, f.contentType)] == t.artifacts;
    assert t.receipts[KeyOf(q) := t.receipts[KeyOf(q)]] == t.receipts;
  }

  /** A payload without observations shares none with the table. */
  lemma BatchIsNew(t: Tables, q: Request)
    requires q.connector.fetched.Some? && q.connector.items.Some? && !AlreadyIngested(t, q)
    ensures Batch(OriginFor(t, q), q.connector.items.value, |q.connector.items.value|) !! t.observations
  {
    var known := ObservationsFor(t.observations, KeyOf(q));
    forall o | o in Batch(OriginFor(t, q), q.connector.items.value, |q.connector.items.value|)
        ensures o !in t.observations {
      assert o in t.observations ==> o in known;
    }
  }

  /** The item loop, run on top of the raw payload and the source, inserts exactly the batch. */
  lemma InsertionEffect(t: Tables, q: Request)
    requires q.connector.fetched.Some? && q.connector.items.Some? && !AlreadyIngested(t, q)
    ensures
      var origin, items := OriginFor(t, q), q.connector.items.value;
      var base := WithRaw(t, q).(sources := t.sources + {origin.source});
      && origin.source in base.sources && origin.key.sha in base.artifacts
      && (AllGood(base, origin, q, items, |items|)
          <==> AllGood(t.(sources := t.sources + {origin.source}), origin, q, items, |items|))
      && Stored(base, origin, q, |items|) == Inserted(t, q)
      && NewRows(base, origin, items, |items|) == |Batch(origin, items, |items|)|
  {
    hide GoodItem, Emitted;
    var origin, items := OriginFor(t, q), q.connector.items.value;
    BatchIsNew(t, q);
    var batch := Batch(origin, items, |items|);
    assert batch - t.observations == batch;
  }

  lemma ParsesIs(q: Request)
    ensures Parses(q) <==> !q.faults(NormalizeStep) && q.connector.items.Some?
  {
  }

  /** The origin of a payload, and when its source and items are stored on top of it. */
  lemma InsertsIs(t: Tables, q: Request)
    requires q.connector.fetched.Some? && q.connector.items.Some?
    ensures
      var f, items := q.connector.fetched.value, q.connector.items.value;
      var first := ReceiptFor(t, q).firstObservedAt;
      var source := SourceRow(f.sourceUri, q.connector.publisher, LatestPublication(items), first, q.clock.ingested,
                              f.sha, f.contentType);
      && OriginFor(t, q) == Origin(KeyOf(q), source, first, q.connector.parserVersion)
      && (Inserts(t, q) <==> ValidSource(source) && !q.faults(SourceStep)
                             && AllGood(t.(sources := t.sources + {source}), OriginFor(t, q), q, items, |items|))
      && WithRaw(t, q).sources == t.sources
  {
    hide ReceiptFor, LatestPublication, AllGood, ValidSource;
  }

  lemma StartedStays(db: Db, later: Db, q: Request)
    requires StartedManifest(db, q) && later.manifests == db.manifests
    ensures StartedManifest(later, q)
  {
  }

  lemma InsertingRunIs(t: Tables, q: Request, tally: Tally)
    requires q.connector.fetched.Some? && q.connector.items.Some? && !AlreadyIngested(t, q)
    requires tally.itemsFetched == |q.connector.items.value| == tally.itemsInserted + tally.duplicates
    requires tally.itemsInserted == |Batch(OriginFor(t, q), q.connector.items.value, |q.connector.items.value|)|
    ensures var m := ManifestOf(q, Succeeded, Some(q.clock.finished), tally, None);
            InsertingRun(t, Inserted(t, q), q, m) && m.rawArtifactsCreated == tally.rawArtifactsCreated
  {
    hide Inserted, Batch, OriginFor;
  }

  /** The tables after the item loop has stored the first n items. */
  function Stored(t: Tables, origin: Origin, q: Request, n: nat): Tables
    requires q.connector.items.Some? && n <= |q.connector.items.value|
  {
    var items := q.connector.items.value;
    t.(observations := t.observations + Batch(origin, items, n),
       evidence := t.evidence + Emitted(origin, q.connector, items, n))
  }

  /** How many rows of the batch are new to the observation table. */
  function NewRows(t: Tables, origin: Origin, items: seq<ParsedItem>, n: nat): nat
    requires n <= |items|
  {
    |Batch(origin, items, n) - t.observations|
  }

  /** The state of the item loop after i items, over the tables t of its start. */
  ghost predicate LoopState(t: Tables, now: Tables, origin: Origin, q: Request, i: nat, inserted: nat,
                            duplicates: nat) {
    && q.connector.items.Some? && i <= |q.connector.items.value|
    && now == Stored(t, origin, q, i) && AllGood(t, origin, q, q.connector.items.value, i)
    && inserted == NewRows(t, origin, q.connector.items.value, i) && inserted + duplicates == i
  }

  lemma LoopStateIs(t: Tables, now: Tables, origin: Origin, q: Request, i: nat, inserted: nat, duplicates: nat)
    requires LoopState(t, now, origin, q, i, inserted, duplicates)
    ensures q.connector.items.Some? && i <= |q.connector.items.value|
    ensures now == Stored(t, origin, q, i) && AllGood(t, origin, q, q.connector.items.value, i)
    ensures inserted == NewRows(t, origin, q.connector.items.value, i) && inserted + duplicates == i
  {
    hide Stored, AllGood, NewRows;
  }

  lemma LoopStarts(t: Tables, origin: Origin, q: Request)
    requires q.connector.items.Some?
    ensures LoopState(t, t, origin, q, 0, 0, 0)
  {
    hide Stored, AllGood, NewRows;
    StoredNone(t, origin, q);
  }

  /** One turn of the loop either meets a bad item or counts a new observation or a duplicate. */
  lemma LoopStep(t: Tables, was: Tables, now: Tables, origin: Origin, q: Request, i: nat, inserted: nat,
                 duplicates: nat,
                 created: Result<bool, Failure>)
    requires LoopState(t, was, origin, q, i, inserted, duplicates) && i < |q.connector.items.value|
    requires created.Ok? <==> GoodItem(t.evidence, t.sources, origin, q, q.connector.items.value, i)
    requires created.Ok? ==> now == Stored(t, origin, q, i + 1)
    requires created.Ok? ==> (created.value <==> origin.Observe(q.connector.items.value[i]) !in was.observations)
    ensures created.Err? ==> !AllGood(t, origin, q, q.connector.items.value, |q.connector.items.value|)
    ensures created.Ok? ==> LoopState(t, now, origin, q, i + 1,
                                      if created.value then inserted + 1 else inserted,
                                      if created.value then duplicates else duplicates + 1)
  {
    hide Stored, AllGood, NewRows, GoodItem;
    NewRowsGrow(t, origin, q, i);
    AllGoodStep(t, origin, q, i);
  }

  lemma StoredNone(t: Tables, origin: Origin, q: Request)
    requires q.connector.items.Some?
    ensures Stored(t, origin, q, 0) == t && NewRows(t, origin, q.connector.items.value, 0) == 0
    ensures AllGood(t, origin, q, q.connector.items.value, 0)
  {
    assert Batch(origin, q.connector.items.value, 0) == {};
    assert Emitted(origin, q.connector, q.connector.items.value, 0) == {};
    assert t.observations + {} == t.observations && t.evidence + {} == t.evidence;
  }

  /** Adding o to a batch raises the number of rows that are new to the table just when o is new. */
  lemma CountNew<T>(table: set<T>, batch: set<T>, o: T)
    ensures |batch + {o} - table| == |batch - table| + (if o in table + batch then 0 else 1)
  {
    if o in table + batch {
      assert batch + {o} - table == batch - table;
    } else {
      assert batch + {o} - table == (batch - table) + {o};
    }
  }

  lemma BatchGrows(origin: Origin, items: seq<ParsedItem>, i: nat)
    requires i < |items|
    ensures Batch(origin, items, i + 1) == Batch(origin, items, i) + {origin.Observe(items[i])}
  {
  }

  lemma NewRowsGrow(t: Tables, origin: Origin, q: Request, i: nat)
    requires q.connector.items.Some? && i < |q.connector.items.value|
    ensures
      var items := q.connector.items.value;
      NewRows(t, origin, items, i + 1)
      == NewRows(t, origin, items, i)
         + (if origin.Observe(items[i]) in Stored(t, origin, q, i).observations then 0 else 1)
  {
    var items := q.connector.items.value;
    BatchGrows(origin, items, i);
    CountNew(t.observations, Batch(origin, items, i), origin.Observe(items[i]));
  }

  lemma AllGoodStep(t: Tables, origin: Origin, q: Request, i: nat)
    requires q.connector.items.Some? && i < |q.connector.items.value|
    ensures
      var items := q.connector.items.value;
      var good := GoodItem(t.evidence, t.sources, origin, q, items, i);
      && (AllGood(t, origin, q, items, i + 1) <==> AllGood(t, origin, q, items, i) && good)
      && (!good ==> !AllGood(t, origin, q, items, |items|))
  {
    hide GoodItem;
  }

  lemma EmittedGrows(origin: Origin, c: Connector, items: seq<ParsedItem>, i: nat)
    requires i < |items| && c.emit(items[i], origin.source).Some?
    ensures Emitted(origin, c, items, i + 1) == Emitted(origin, c, items, i) + {c.emit(items[i], origin.source).value}
  {
    forall e ensures e in Emitted(origin, c, items, i + 1) <==>
        e in Emitted(origin, c, items, i) || e == c.emit(items[i], origin.source).value {
      if e in Emitted(origin, c, items, i + 1) {
        var k :| 0 <= k < i + 1 && c.emit(items[k], origin.source).Some? && e == c.emit(items[k], origin.source).value;
        assert k == i || e in Emitted(origin, c, items, i);
      }
    }
  }

  /** One more item: its observation and evidence join, and only a new observation is counted. */
  lemma StoredGrows(t: Tables, origin: Origin, q: Request, i: nat, o: Observation, e: Evidence)
    requires q.connector.items.Some? && i < |q.connector.items.value|
    requires o == origin.Observe(q.connector.items.value[i])
    requires q.connector.emit(q.connector.items.value[i], origin.source) == Some(e)
    ensures
      var now := Stored(t, origin, q, i);
      Stored(t, origin, q, i + 1) == now.(observations := now.observations + {o}, evidence := now.evidence + {e})
  {
    var items := q.connector.items.value;
    BatchGrows(origin, items, i);
    EmittedGrows(origin, q.connector, items, i);
    hide Batch, Emitted;
    var batch, emitted := Batch(origin, items, i), Emitted(origin, q.connector, items, i);
    assert t.observations + (batch + {o}) == t.observations + batch + {o};
    assert t.evidence + (emitted + {e}) == t.evidence + emitted + {e};
  }

  /** Evidence that an earlier item emitted passed the check then. */
  lemma SupportedBefore(t: Tables, origin: Origin, q: Request, i: nat, e: Evidence)
    requires q.connector.items.Some? && i <= |q.connector.items.value|
    requires AllGood(t, origin, q, q.connector.items.value, i)
    requires e in Emitted(origin, q.connector, q.connector.items.value, i)
    ensures e in t.evidence || Supported(e, t.sources)
  {
    var items := q.connector.items.value;
    var k :| 0 <= k < i && q.connector.emit(items[k], origin.source).Some?
        && e == q.connector.emit(items[k], origin.source).value;
    assert GoodItem(t.evidence, t.sources, origin, q, items, k);
  }
}
