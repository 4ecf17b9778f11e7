/** What holds over any series of ingestion runs, whatever fails in them. */
module IngestionHistory {
  import opened Prelude
  import opened Ingestion

  /** The committed states of a series of runs from empty tables; run ids are fresh. */
  ghost predicate History(dbs: seq<Db>, qs: seq<Request>) {
    && |dbs| == |qs| + 1 && dbs[0] == Db(map[], NO_TABLES)
    && forall i :: 0 <= i < |qs| ==> RanAt(dbs, qs, i)
  }

  ghost predicate RanAt(dbs: seq<Db>, qs: seq<Request>, i: nat)
    requires i < |qs| && |dbs| == |qs| + 1
  {
    && qs[i].runId !in dbs[i].manifests && qs[i].runId in dbs[i + 1].manifests
    && RunEffect(dbs[i], dbs[i + 1], qs[i], dbs[i + 1].manifests[qs[i].runId])
  }

  /** Run i inserted the payload of the key. */
  ghost predicate InsertedAt(dbs: seq<Db>, qs: seq<Request>, i: nat, key: Key)
    requires i < |qs| && History(dbs, qs)
  {
    && qs[i].runId in dbs[i + 1].manifests
    && InsertingRun(dbs[i].tables, dbs[i + 1].tables, qs[i], dbs[i + 1].manifests[qs[i].runId])
    && KeyOf(qs[i]) == key
  }

  /** Run i wrote the receipt of the key. */
  ghost predicate ReceivedAt(dbs: seq<Db>, qs: seq<Request>, i: nat, key: Key)
    requires i < |qs| && History(dbs, qs)
  {
    && key !in dbs[i].tables.receipts && key in dbs[i + 1].tables.receipts
    && WrittenBy(qs[i], key, dbs[i + 1].tables.receipts[key])
  }

  // ---------------------------------------------------------------------------------------------
  // One run
  // ---------------------------------------------------------------------------------------------

  /** Run by run, the observations of a payload are either left alone or all inserted at once. */
  lemma RunInsertsOnce(before: Db, after: Db, q: Request, m: Manifest, key: Key)
    requires RunEffect(before, after, q, m)
    ensures
      var was, now := ObservationsFor(before.tables.observations, key), ObservationsFor(after.tables.observations, key);
      || now == was
      || (&& was == {} && InsertingRun(before.tables, after.tables, q, m) && KeyOf(q) == key
          && now == Batch(OriginFor(before.tables, q), q.connector.items.value, |q.connector.items.value|))
  {
    hide Succeeds, RawStored, AlreadyIngested, Inserts, Emitted;
    if after.tables.observations != before.tables.observations {
      InsertedObservations(before.tables, q, key);
    }
  }

  lemma InsertedObservations(t: Tables, q: Request, key: Key)
    requires q.connector.fetched.Some? && q.connector.items.Some? && ObservationsFor(t.observations, KeyOf(q)) == {}
    ensures ObservationsFor(Inserted(t, q).observations, key)
            == if key == KeyOf(q) then Batch(OriginFor(t, q), q.connector.items.value, |q.connector.items.value|)
               else ObservationsFor(t.observations, key)
  {
    var origin, items, known := OriginFor(t, q), q.connector.items.value, ObservationsFor(t.observations, KeyOf(q));
    assert forall o :: o in t.observations && o.key == KeyOf(q) ==> o in known;
    assert forall o :: o in Batch(origin, items, |items|) ==> o.key == KeyOf(q);
  }

  /** A rerun after the payload has been ingested changes the manifests alone, however it ends. */
  lemma RerunChangesOnlyManifests(before: Db, after: Db, q: Request, m: Manifest)
    requires Consistent(before.tables) && RunEffect(before, after, q, m) && AlreadyIngested(before.tables, q)
    ensures after.tables == before.tables && m.itemsInserted == 0
  {
    if RawStored(before.tables, q) {
      KnownReceipt(before.tables, q);
    }
  }

  /** A failed run leaves no source, observation or evidence, and a receipt just when it got past the raw commit. */
  lemma FailureLeavesAtMostTheReceipt(before: Db, after: Db, q: Request, m: Manifest)
    requires Consistent(before.tables) && RunEffect(before, after, q, m) && m.status == Failed
    ensures after.tables.sources == before.tables.sources && after.tables.observations == before.tables.observations
    ensures after.tables.evidence == before.tables.evidence
    ensures after.tables != before.tables ==>
      RawStored(before.tables, q) && after.tables.receipts
          == before.tables.receipts[KeyOf(q) := ReceiptFor(before.tables, q)]
    ensures m.itemsFetched > 0 ==> q.connector.fetched.Some? && KeyOf(q) in after.tables.receipts
  {
  }

  // ---------------------------------------------------------------------------------------------
  // All runs
  // ---------------------------------------------------------------------------------------------

  /** Whatever failed on the way, observations stay backed by their receipt, artifact and source. */
  lemma {:induction false} HistoryConsistent(dbs: seq<Db>, qs: seq<Request>, n: nat)
    requires History(dbs, qs) && n <= |qs|
    ensures Consistent(dbs[n].tables)
  {
    if n != 0 {
      HistoryConsistent(dbs, qs, n - 1);
      assert RanAt(dbs, qs, n - 1);
      RunKeepsTables(dbs[n - 1], dbs[n], qs[n - 1], dbs[n].manifests[qs[n - 1].runId], Key("", "", ""));
    }
  }

  /**
   A receipt is written once, by the earliest run that made the payload durable: there was none before, and it
   carries the uri, the content type and the time of that run ever after.
   */
  lemma {:induction false} ReceiptsAreWrittenOnce(dbs: seq<Db>, qs: seq<Request>, n: nat, key: Key) returns (first: nat)
    requires History(dbs, qs) && n <= |qs| && key in dbs[n].tables.receipts
    ensures first < n && ReceivedAt(dbs, qs, first, key)
    ensures forall i :: first < i <= n ==>
      key in dbs[i].tables.receipts && WrittenBy(qs[first], key, dbs[i].tables.receipts[key])
    ensures forall i :: 0 <= i <= first ==> key !in dbs[i].tables.receipts
  {
    assert n != 0;
    var k := n - 1;
    HistoryConsistent(dbs, qs, k);
    assert RanAt(dbs, qs, k);
    RunKeepsTables(dbs[k], dbs[n], qs[k], dbs[n].manifests[qs[k].runId], key);
    hide Consistent, RunEffect;
    if key in dbs[k].tables.receipts {
      first := ReceiptsAreWrittenOnce(dbs, qs, k, key);
    } else {
      first := k;
      forall i | 0 <= i <= k ensures key !in dbs[i].tables.receipts {
        if key in dbs[i].tables.receipts {
          ReceiptsStay(dbs, qs, i, k, key);
        }
      }
    }
  }

  /** Once a payload has observations, they never change again. */
  lemma {:induction false} ObservationsAreFrozen(dbs: seq<Db>, qs: seq<Request>, i: nat, j: nat, key: Key)
    requires History(dbs, qs) && i <= j <= |qs| && ObservationsFor(dbs[i].tables.observations, key) != {}
    ensures ObservationsFor(dbs[j].tables.observations, key) == ObservationsFor(dbs[i].tables.observations, key)
  {
    if i < j {
      ObservationsAreFrozen(dbs, qs, i, j - 1, key);
      assert RanAt(dbs, qs, j - 1);
      hide RunEffect, InsertingRun, ObservationsFor;
      RunInsertsOnce(dbs[j - 1], dbs[j], qs[j - 1], dbs[j].manifests[qs[j - 1].runId], key);
    }
  }

  /** The run that gave a payload its observations. */
  lemma {:induction false} FindInsertion(dbs: seq<Db>, qs: seq<Request>, n: nat, key: Key) returns (k: nat)
    requires History(dbs, qs) && n <= |qs| && ObservationsFor(dbs[n].tables.observations, key) != {}
    ensures k < n && InsertedAt(dbs, qs, k, key)
    ensures ObservationsFor(dbs[n].tables.observations, key)
            == Batch(OriginFor(dbs[k].tables, qs[k]), qs[k].connector.items.value, |qs[k].connector.items.value|)
  {
    assert n != 0;
    k := n - 1;
    assert RanAt(dbs, qs, k);
    RunInsertsOnce(dbs[k], dbs[n], qs[k], dbs[n].manifests[qs[k].runId], key);
    hide RunEffect, InsertingRun, ObservationsFor, Batch;
    if ObservationsFor(dbs[k].tables.observations, key) != {} {
      k := FindInsertion(dbs, qs, k, key);
    }
  }

  /**
   Exactly-once ingestion: the observations of a payload are the batch of one single run, and all of
   them carry the observation time of the earliest run that made the payload durable.
   */
  lemma ExactlyOnce(dbs: seq<Db>, qs: seq<Request>, n: nat, key: Key) returns (first: nat, k: nat)
    requires History(dbs, qs) && n <= |qs| && ObservationsFor(dbs[n].tables.observations, key) != {}
    ensures first <= k < n && ReceivedAt(dbs, qs, first, key) && InsertedAt(dbs, qs, k, key)
    ensures ObservationsFor(dbs[n].tables.observations, key)
            == Batch(OriginFor(dbs[k].tables, qs[k]), qs[k].connector.items.value, |qs[k].connector.items.value|)
    ensures forall o :: o in dbs[n].tables.observations && o.key == key ==>
              o.firstObservedAt == qs[first].clock.observed
    ensures forall j: nat :: j < n && InsertedAt(dbs, qs, j, key) && qs[j].connector.items.value != [] ==> j == k
  {
    k := FindInsertion(dbs, qs, n, key);
    HistoryConsistent(dbs, qs, n);
    HistoryConsistent(dbs, qs, k);
    ObservationsHaveReceipt(dbs[n].tables, key);
    hide *;
    first := ReceiptsAreWrittenOnce(dbs, qs, n, key);
    ReceiptBeforeInsertion(dbs, qs, k, first, key);
    FoundObservations(dbs, qs, n, k, key);
    forall j: nat | j < n && InsertedAt(dbs, qs, j, key) && qs[j].connector.items.value != [] ensures j == k {
      if j < k {
        NoSecondInsertion(dbs, qs, j, k, key);
      } else if k < j {
        NoSecondInsertion(dbs, qs, k, j, key);
      }
    }
  }

  /** After an insertion that found items, no run inserts the payload again. */
  lemma NoSecondInsertion(dbs: seq<Db>, qs: seq<Request>, j: nat, k: nat, key: Key)
    requires History(dbs, qs) && j < k < |qs| && InsertedAt(dbs, qs, j, key) && qs[j].connector.items.value != []
    ensures !InsertedAt(dbs, qs, k, key)
  {
    var origin, items := OriginFor(dbs[j].tables, qs[j]), qs[j].connector.items.value;
    assert origin.Observe(items[0]) in Batch(origin, items, |items|);
    assert origin.Observe(items[0]) in ObservationsFor(dbs[j + 1].tables.observations, key);
    ObservationsAreFrozen(dbs, qs, j + 1, k, key);
  }

  lemma FoundObservations(dbs: seq<Db>, qs: seq<Request>, n: nat, k: nat, key: Key)
    requires History(dbs, qs) && k < n <= |qs| && InsertedAt(dbs, qs, k, key)
    requires ObservationsFor(dbs[n].tables.observations, key) != {}
    requires ObservationsFor(dbs[n].tables.observations, key)
             == Batch(OriginFor(dbs[k].tables, qs[k]), qs[k].connector.items.value, |qs[k].connector.items.value|)
    ensures qs[k].connector.items.value != []
  {
  }

  lemma ObservationsHaveReceipt(t: Tables, key: Key)
    requires Consistent(t)
    ensures ObservationsFor(t.observations, key) != {} ==> key in t.receipts
    ensures forall o :: o in t.observations && o.key == key ==>
      key in t.receipts && o.firstObservedAt == t.receipts[key].firstObservedAt
  {
    if ObservationsFor(t.observations, key) != {} {
      var o :| o in ObservationsFor(t.observations, key);
    }
  }

  /** The receipt is at most as late as the insertion. */
  lemma ReceiptBeforeInsertion(dbs: seq<Db>, qs: seq<Request>, k: nat, first: nat, key: Key)
    requires History(dbs, qs) && k < |qs| && first < |qs| && InsertedAt(dbs, qs, k, key)
             && ReceivedAt(dbs, qs, first, key)
    ensures first <= k
  {
    if k < first {
      assert key in dbs[k + 1].tables.receipts;
      ReceiptsStay(dbs, qs, k + 1, first, key);
      assert false;
    }
  }

  lemma {:induction false} ReceiptsStay(dbs: seq<Db>, qs: seq<Request>, i: nat, j: nat, key: Key)
    requires History(dbs, qs) && i <= j <= |qs| && key in dbs[i].tables.receipts
    ensures key in dbs[j].tables.receipts && dbs[j].tables.receipts[key] == dbs[i].tables.receipts[key]
  {
    if i < j {
      ReceiptsStay(dbs, qs, i, j - 1, key);
      HistoryConsistent(dbs, qs, j - 1);
      assert RanAt(dbs, qs, j - 1);
      hide RunEffect, Consistent;
      RunKeepsTables(dbs[j - 1], dbs[j], qs[j - 1], dbs[j].manifests[qs[j - 1].runId], key);
    }
  }

  // ---------------------------------------------------------------------------------------------
  // Manifests account for the observation table
  // ---------------------------------------------------------------------------------------------

  function ItemsInserted(): Manifest -> nat {
    (m: Manifest) => m.itemsInserted
  }

  function RawArtifacts(): Manifest -> nat {
    (m: Manifest) => m.rawArtifactsCreated
  }

  /** The sum of a counter over the stored manifests of the first n runs. */
  function Total(counter: Manifest -> nat, manifests: map<string, Manifest>, qs: seq<Request>, n: nat): nat
    requires n <= |qs|
  {
    if n == 0 then 0
    else
      var id := qs[n - 1].runId;
      Total(counter, manifests, qs, n - 1) + (if id in manifests then counter(manifests[id]) else 0)
  }

  lemma {:induction false} LaterManifestsAddNothing(
    counter: Manifest -> nat, manifests: map<string, Manifest>, qs: seq<Request>, n: nat, id: string, m: Manifest)
    requires n <= |qs| && forall i :: 0 <= i < n ==> qs[i].runId != id
    ensures Total(counter, manifests[id := m], qs, n) == Total(counter, manifests, qs, n)
  {
    if n != 0 {
      LaterManifestsAddNothing(counter, manifests, qs, n - 1, id, m);
    }
  }

  /** The last run adds its own counter to the total. */
  lemma TotalGrows(counter: Manifest -> nat, dbs: seq<Db>, qs: seq<Request>, n: nat)
    requires History(dbs, qs) && n < |qs|
    ensures RanAt(dbs, qs, n)
    ensures Total(counter, dbs[n + 1].manifests, qs, n + 1)
            == Total(counter, dbs[n].manifests, qs, n) + counter(dbs[n + 1].manifests[qs[n].runId])
  {
    assert RanAt(dbs, qs, n);
    RunIdsAreKnown(dbs, qs, n);
    LaterManifestsAddNothing(counter, dbs[n].manifests, qs, n, qs[n].runId, dbs[n + 1].manifests[qs[n].runId]);
    hide InsertingRun, DuplicateRun, FailedRun, Succeeds;
  }

  lemma {:induction false} RunIdsAreKnown(dbs: seq<Db>, qs: seq<Request>, n: nat)
    requires History(dbs, qs) && n <= |qs|
    ensures forall i :: 0 <= i < n ==> qs[i].runId in dbs[n].manifests
  {
    if n != 0 {
      RunIdsAreKnown(dbs, qs, n - 1);
      assert RanAt(dbs, qs, n - 1);
    }
  }

  lemma RunCountsItsObservations(before: Db, after: Db, q: Request, m: Manifest)
    requires RunEffect(before, after, q, m)
    ensures |after.tables.observations| == |before.tables.observations| + m.itemsInserted
  {
    if Succeeds(before.tables, q) && !AlreadyIngested(before.tables, q) {
      var t, origin, items := before.tables, OriginFor(before.tables, q), q.connector.items.value;
      var batch := Batch(origin, items, |items|);
      BatchIsNew(t, q);
      assert |t.observations + batch| == |t.observations| + |batch|;
    }
  }

  /** The stored manifests account for the observation table exactly, failed and duplicate runs included. */
  lemma {:induction false} ManifestsCountObservations(dbs: seq<Db>, qs: seq<Request>, n: nat)
    requires History(dbs, qs) && n <= |qs|
    ensures Total(ItemsInserted(), dbs[n].manifests, qs, n) == |dbs[n].tables.observations|
  {
    if n != 0 {
      ManifestsCountObservations(dbs, qs, n - 1);
      TotalGrows(ItemsInserted(), dbs, qs, n - 1);
      RunCountsItsObservations(dbs[n - 1], dbs[n], qs[n - 1], dbs[n].manifests[qs[n - 1].runId]);
      hide RunEffect, History;
    }
  }

  // ---------------------------------------------------------------------------------------------
  // Manifests and the artifact store
  // ---------------------------------------------------------------------------------------------

  /** The artifact stores along the runs, starting empty, and the counters of raw artifacts in the manifests. */
  ghost predicate StoreHistory(dbs: seq<Db>, qs: seq<Request>, stores: seq<set<string>>)
    requires History(dbs, qs)
  {
    && |stores| == |qs| + 1 && stores[0] == {}
    && forall i :: 0 <= i < |qs| ==> StoredAt(dbs, qs, stores, i)
  }

  ghost predicate StoredAt(dbs: seq<Db>, qs: seq<Request>, stores: seq<set<string>>, i: nat)
    requires History(dbs, qs) && i < |qs| && |stores| == |qs| + 1
  {
    && RanAt(dbs, qs, i) && stores[i + 1] == StoreAfter(qs[i], stores[i])
    && dbs[i + 1].manifests[qs[i].runId].rawArtifactsCreated == RawCounter(qs[i], stores[i])
  }

  /** The runs among the first n that failed while they wrote bytes that were new. */
  function FailedWrites(qs: seq<Request>, stores: seq<set<string>>, n: nat): nat
    requires n <= |qs| && |stores| == |qs| + 1
  {
    if n == 0 then 0
    else FailedWrites(qs, stores, n - 1)
         + if RawCounter(qs[n - 1], stores[n - 1]) == 1 && qs[n - 1].faults(WriteStep) then 1 else 0
  }

  /** The manifests count every artifact in the store once, and a write of new bytes that failed as well. */
  lemma {:induction false} ManifestsCountArtifacts(dbs: seq<Db>, qs: seq<Request>, stores: seq<set<string>>, n: nat)
    requires History(dbs, qs) && StoreHistory(dbs, qs, stores) && n <= |qs|
    ensures Total(RawArtifacts(), dbs[n].manifests, qs, n) == |stores[n]| + FailedWrites(qs, stores, n)
  {
    if n != 0 {
      ManifestsCountArtifacts(dbs, qs, stores, n - 1);
      assert StoredAt(dbs, qs, stores, n - 1);
      TotalGrows(RawArtifacts(), dbs, qs, n - 1);
      CounterIsGrowthIff(qs[n - 1], stores[n - 1]);
      hide RunEffect, History, RawCounter, StoreAfter;
    }
  }

  // ---------------------------------------------------------------------------------------------
  // A series of runs of the runner
  // ---------------------------------------------------------------------------------------------

  /** The requests whose source is enabled; the others are refused before they leave a manifest. */
  function Enabled(qs: seq<Request>): seq<Request> {
    if qs == [] then []
    else Enabled(qs[..|qs| - 1]) + if qs[|qs| - 1].connector.enabled then [qs[|qs| - 1]] else []
  }

  lemma HistoryExtends(dbs: seq<Db>, qs: seq<Request>, q: Request, db: Db)
    requires History(dbs, qs) && q.runId !in dbs[|qs|].manifests && q.runId in db.manifests
    requires RunEffect(dbs[|qs|], db, q, db.manifests[q.runId])
    ensures History(dbs + [db], qs + [q])
  {
    hide RunEffect;
    forall i | 0 <= i < |qs + [q]| ensures RanAt(dbs + [db], qs + [q], i) {
      assert i < |qs| ==> RanAt(dbs, qs, i);
    }
  }

  lemma StoreHistoryExtends(dbs: seq<Db>, qs: seq<Request>, stores: seq<set<string>>, q: Request, db: Db,
                            store: set<string>)
    requires History(dbs, qs) && StoreHistory(dbs, qs, stores) && History(dbs + [db], qs + [q])
    requires store == StoreAfter(q, stores[|qs|])
    requires q.runId in db.manifests && db.manifests[q.runId].rawArtifactsCreated == RawCounter(q, stores[|qs|])
    ensures StoreHistory(dbs + [db], qs + [q], stores + [store])
  {
    hide RunEffect, StoreAfter, RawCounter, History;
    var all, series, kept := dbs + [db], qs + [q], stores + [store];
    forall i | 0 <= i < |series| ensures StoredAt(all, series, kept, i) {
      RanInHistory(all, series, i);
      assert i < |qs| ==> StoredAt(dbs, qs, stores, i);
    }
  }

  lemma RanInHistory(dbs: seq<Db>, qs: seq<Request>, i: nat)
    requires History(dbs, qs) && i < |qs|
    ensures RanAt(dbs, qs, i) && |dbs| == |qs| + 1
  {
    hide RunEffect;
  }

  lemma NothingHasRun()
    ensures History([Db(map[], NO_TABLES)], []) && StoreHistory([Db(map[], NO_TABLES)], [], [{}])
  {
  }

  lemma EnabledStep(qs: seq<Request>, i: nat)
    requires i < |qs|
    ensures Enabled(qs[..i + 1]) == Enabled(qs[..i]) + if qs[i].connector.enabled then [qs[i]] else []
  {
    assert qs[..i + 1][..i] == qs[..i];
  }

  /** The history of the requests that ran so far, up to the committed state and the artifact store. */
  ghost predicate SoFar(dbs: seq<Db>, stores: seq<set<string>>, ran: seq<Request>, db: Db, store: set<string>) {
    && |dbs| == |stores| == |ran| + 1 && dbs[|ran|] == db && stores[|ran|] == store
    && History(dbs, ran) && StoreHistory(dbs, ran, stores)
  }

  lemma OneMoreRun(dbs: seq<Db>, stores: seq<set<string>>, ran: seq<Request>, before: Db, bytes: set<string>,
                   q: Request, m: Manifest, after: Db, store: set<string>)
    requires SoFar(dbs, stores, ran, before, bytes) && q.runId !in before.manifests
    requires RunEffect(before, after, q, m) && after.manifests == before.manifests[q.runId := m]
    requires m.rawArtifactsCreated == RawCounter(q, bytes) && store == StoreAfter(q, bytes)
    ensures SoFar(dbs + [after], stores + [store], ran + [q], after, store)
  {
    hide History, StoreHistory, RunEffect, RawCounter, StoreAfter;
    HistoryExtends(dbs, ran, q, after);
    StoreHistoryExtends(dbs, ran, stores, q, after, store);
  }

  /** The stored manifests are those that the first requests returned. */
  ghost predicate Returned(db: Db, qs: seq<Request>, results: seq<Result<Manifest, Violation>>) {
    && |results| <= |qs|
    && (forall id :: id in db.manifests ==> exists k :: 0 <= k < |results| && qs[k].runId == id)
    && (forall k :: 0 <= k < |results| ==> (results[k].Ok? <==> qs[k].connector.enabled))
    && (forall k :: 0 <= k < |results| && results[k].Ok? ==>
          qs[k].runId in db.manifests && db.manifests[qs[k].runId] == results[k].value)
  }

  lemma OneMoreResult(db: Db, qs: seq<Request>, results: seq<Result<Manifest, Violation>>,
                      after: Db, r: Result<Manifest, Violation>)
    requires Returned(db, qs, results) && |results| < |qs| && (r.Ok? <==> qs[|results|].connector.enabled)
    requires forall i, j :: 0 <= i < j < |qs| ==> qs[i].runId != qs[j].runId
    requires after.manifests == if r.Ok? then db.manifests[qs[|results|].runId := r.value] else db.manifests
    ensures Returned(after, qs, results + [r])
  {
    var i, more := |results|, results + [r];
    forall id | id in after.manifests ensures exists k :: 0 <= k < |more| && qs[k].runId == id {
      if id in db.manifests {
        var k :| 0 <= k < i && qs[k].runId == id;
        assert k < |more|;
      } else {
        assert qs[i].runId == id;
      }
    }
  }

  lemma FreshId(db: Db, qs: seq<Request>, results: seq<Result<Manifest, Violation>>)
    requires Returned(db, qs, results) && |results| < |qs|
    requires forall i, j :: 0 <= i < j < |qs| ==> qs[i].runId != qs[j].runId
    ensures qs[|results|].runId !in db.manifests
  {
  }

  /** What a run adds to the manifests. */
  lemma RunAddsManifest(before: Db, after: Db, q: Request, m: Manifest)
    requires RunEffect(before, after, q, m)
    ensures after.manifests == before.manifests[q.runId := m]
  {
    hide Succeeds, FailedRun, DuplicateRun, InsertingRun;
  }

  lemma NoRequestsYet(qs: seq<Request>)
    ensures Enabled(qs[..0]) == [] && Enabled(qs[..|qs|]) == Enabled(qs)
    ensures SoFar([Db(map[], NO_TABLES)], [{}], [], Db(map[], NO_TABLES), {}) && Returned(Db(map[], NO_TABLES), qs, [])
  {
    assert qs[..0] == [] && qs[..|qs|] == qs;
    NothingHasRun();
  }

  /**
   Whatever the requests and whatever fails in them, a series of runs of the runner is a history: so the laws
   of histories are laws of the runner.
   */
  method RunSeries(runner: IngestionRunner, qs: seq<Request>)
    returns (results: seq<Result<Manifest, Violation>>, ghost dbs: seq<Db>, ghost stores: seq<set<string>>)
    requires runner.Valid() && runner.committed == Db(map[], NO_TABLES) && runner.store == {}
    requires forall i, j :: 0 <= i < j < |qs| ==> qs[i].runId != qs[j].runId
    requires forall i :: 0 <= i < |qs| ==> Ordered(qs[i].clock)
    modifies runner
    ensures runner.Valid()
    ensures SoFar(dbs, stores, Enabled(qs), runner.committed, runner.store)
    ensures |results| == |qs| && Returned(runner.committed, qs, results)
  {
    results, dbs, stores := [], [Db(map[], NO_TABLES)], [{}];
    hide *;
    NoRequestsYet(qs);
    for i := 0 to |qs|
      invariant runner.Valid() && |results| == i
      invariant SoFar(dbs, stores, Enabled(qs[..i]), runner.committed, runner.store)
      invariant Returned(runner.committed, qs, results)
    {
      ghost var before, bytes := runner.committed, runner.store;
      EnabledStep(qs, i);
      FreshId(before, qs, results);
      var r := runner.Run(qs[i]);
      if r.Ok? {
        RunAddsManifest(before, runner.committed, qs[i], r.value);
        OneMoreRun(dbs, stores, Enabled(qs[..i]), before, bytes, qs[i], r.value, runner.committed, runner.store);
        dbs, stores := dbs + [runner.committed], stores + [runner.store];
      } else {
        assert Enabled(qs[..i]) + [] == Enabled(qs[..i]);
      }
      OneMoreResult(before, qs, results, runner.committed, r);
      results := results + [r];
    }
  }

  // ---------------------------------------------------------------------------------------------
  // Bytes and content types
  // ---------------------------------------------------------------------------------------------

  lemma RunKeepsArtifacts(before: Db, after: Db, q: Request, m: Manifest, sha: string)
    requires RunEffect(before, after, q, m) && sha in before.tables.artifacts
    ensures sha in after.tables.artifacts && after.tables.artifacts[sha] == before.tables.artifacts[sha]
  {
    hide Inserts, Batch, Emitted, ObservationsFor, AlreadyIngested;
  }

  lemma {:induction false} ArtifactsStay(dbs: seq<Db>, qs: seq<Request>, i: nat, j: nat, sha: string)
    requires History(dbs, qs) && i <= j <= |qs| && sha in dbs[i].tables.artifacts
    ensures sha in dbs[j].tables.artifacts && dbs[j].tables.artifacts[sha] == dbs[i].tables.artifacts[sha]
  {
    if i < j {
      ArtifactsStay(dbs, qs, i, j - 1, sha);
      assert RanAt(dbs, qs, j - 1);
      RunKeepsArtifacts(dbs[j - 1], dbs[j], qs[j - 1], dbs[j].manifests[qs[j - 1].runId], sha);
    }
  }

  /**
   Bytes that are stored under one content type are never ingested under another: from then on every
   run that fetches them as something else fails and changes nothing but its manifest.
   */
  lemma OtherContentTypeAlwaysFails(dbs: seq<Db>, qs: seq<Request>, i: nat, j: nat)
    requires History(dbs, qs) && i <= j < |qs| && qs[j].connector.fetched.Some?
    requires var f := qs[j].connector.fetched.value;
             f.sha in dbs[i].tables.artifacts && dbs[i].tables.artifacts[f.sha].mimeType != f.contentType
    ensures qs[j].runId in dbs[j + 1].manifests && dbs[j + 1].manifests[qs[j].runId].status == Failed
    ensures dbs[j + 1].tables == dbs[j].tables
    ensures dbs[j + 1].manifests[qs[j].runId].errorSummary == Some(RawFailure(dbs[j].tables, qs[j]))
    ensures !qs[j].faults(ExistsStep) && !qs[j].faults(WriteStep) && !qs[j].faults(CleanupStep)
            && !qs[j].faults(MetadataStep) ==>
      RawFailure(dbs[j].tables, qs[j]) == Refusal(IntegrityViolation)
  {
    ArtifactsStay(dbs, qs, i, j, qs[j].connector.fetched.value.sha);
    assert RanAt(dbs, qs, j);
  }

  /** After a failure past the raw commit, a clean rerun ingests the payload under its first receipt. */
  lemma RetrySucceeds(before: Db, failed: Db, q: Request, m: Manifest, retry: Request, after: Db, n: Manifest)
    requires Consistent(before.tables) && RunEffect(before, failed, q, m) && m.status == Failed
             && RawStored(before.tables, q)
    requires retry.connector == q.connector && retry.dataset == q.dataset && RunEffect(failed, after, retry, n)
    requires !AlreadyIngested(before.tables, q) && forall s :: !retry.faults(s)
    requires q.connector.items.Some? && Inserts(failed.tables, retry)
    ensures n.status == Succeeded
    ensures after.tables.observations - failed.tables.observations
            == Batch(OriginFor(failed.tables, retry), q.connector.items.value, |q.connector.items.value|)
    ensures OriginFor(failed.tables, retry).firstObservedAt == ReceiptFor(before.tables, q).firstObservedAt
  {
    assert failed.tables == WithRaw(before.tables, q);
    assert RawStored(failed.tables, retry);
    assert Succeeds(failed.tables, retry);
    BatchIsNew(failed.tables, retry);
  }

  // ---------------------------------------------------------------------------------------------
  // A payload that can never be ingested again
  // ---------------------------------------------------------------------------------------------

  function CitesSource(): (ParsedItem, SourceRow) -> Option<Evidence> {
    (item: ParsedItem, source: SourceRow) => Some(Evidence("observed", {source}, source.observedAt))
  }

  function OneItem(): ParsedItem {
    ParsedItem("rate", 0, 0, None, None, None, "4.5", "percent")
  }

  /** The same bytes fetched as some content type, with given failures of the environment. */
  function FetchAs(sha: string, size: nat, contentType: string, runId: string, at: Time, faults: Faults): Request {
    var fetched := Fetched(sha, size, "uri", contentType);
    Request(Connector("il.boi", "Bank of Israel", "1", true, Some(fetched), Some([OneItem()]), CitesSource()),
            "rates", runId, Clock(at, at, at, at), faults)
  }

  /** A request whose parser fails after the raw commit. */
  function Unparsed(sha: string, size: nat): Request {
    FetchAs(sha, size, "text/csv", "first", 0, step => step == NormalizeStep)
  }

  function Corrected(sha: string, size: nat): Request {
    FetchAs(sha, size, "application/json", "second", 1, step => false)
  }

  /** By itself the corrected request succeeds. */
  lemma CorrectedAloneSucceeds(sha: string, size: nat)
    requires sha != ""
    ensures Succeeds(NO_TABLES, Corrected(sha, size))
  {
    var q := Corrected(sha, size);
    var origin, items := OriginFor(NO_TABLES, q), q.connector.items.value;
    assert items == [OneItem()] && LatestPublication(items) == None by {
      assert items[..0] == [];
      assert LatestPublication(items[..0]) == None;
    }
    assert GoodItem(NO_TABLES.evidence, NO_TABLES.sources + {origin.source}, origin, q, items, 0);
  }

  function UnparsedManifest(size: nat): Manifest {
    Manifest("first", "il.boi", "rates", 0, Some(0), Failed, 0, 0, 0, size, 1, "1", Some(Environment))
  }

  function CorrectedManifest(size: nat): Manifest {
    Manifest("second", "il.boi", "rates", 1, Some(1), Failed, 0, 0, 0, size, 0, "1", Some(Refusal(IntegrityViolation)))
  }

  lemma UnparsedRun(sha: string, size: nat)
    ensures RunEffect(Db(map[], NO_TABLES), Db(map["first" := UnparsedManifest(size)],
                                               WithRaw(NO_TABLES, Unparsed(sha, size))),
                      Unparsed(sha, size), UnparsedManifest(size))
  {
    assert map[]["first" := UnparsedManifest(size)] == map["first" := UnparsedManifest(size)];
    hide Inserts;
  }

  /** A run that is refused before its payload is durable changes its manifest alone. */
  lemma RefusedRun(before: Db, q: Request, counter: nat)
    requires q.connector.fetched.Some? && !RawStored(before.tables, q)
    ensures var tally := Tally(0, 0, 0, q.connector.fetched.value.size, counter);
            var m := ManifestOf(q, Failed, Some(q.clock.finished), tally, Some(RawFailure(before.tables, q)));
            RunEffect(before, before.(manifests := before.manifests[q.runId := m]), q, m)
  {
    hide RawStored, RawFailure, AlreadyIngested, Inserts, Parses;
  }

  lemma CorrectedFields(sha: string, size: nat)
    ensures var q := Corrected(sha, size);
            && q.connector.fetched == Some(Fetched(sha, size, "uri", "application/json")) && q.runId == "second"
            && ManifestOf(q, Failed, Some(q.clock.finished), Tally(0, 0, 0, size, 0), Some(Refusal(IntegrityViolation)))
               == CorrectedManifest(size)
            && forall step :: !q.faults(step)
  {
  }

  lemma UnparsedFields(sha: string, size: nat)
    ensures var q := Unparsed(sha, size); q.connector.fetched == Some(Fetched(sha, size, "uri", "text/csv"))
    ensures "application/json" != "text/csv"
  {
    assert "application/json"[0] != "text/csv"[0];
  }

  /** Bytes stored by one request are refused to another that gives them another content type. */
  lemma OtherTypeIsRefused(first: Request, second: Request)
    requires first.connector.fetched.Some? && second.connector.fetched.Some? && forall step :: !second.faults(step)
    requires first.connector.fetched.value.sha == second.connector.fetched.value.sha
    requires first.connector.fetched.value.contentType != second.connector.fetched.value.contentType
    ensures var t := WithRaw(NO_TABLES, first);
            !RawStored(t, second) && RawFailure(t, second) == Refusal(IntegrityViolation)
  {
    hide ReceiptFor, KeyOf;
    assert !MetadataAgrees(WithRaw(NO_TABLES, first), second.connector.fetched.value);
  }

  lemma CorrectedRun(sha: string, size: nat)
    ensures var t := WithRaw(NO_TABLES, Unparsed(sha, size));
            var first, second := UnparsedManifest(size), CorrectedManifest(size);
            RunEffect(Db(map["first" := first], t), Db(map["first" := first]["second" := second], t),
                      Corrected(sha, size), second)
  {
    hide *;
    CorrectedFields(sha, size);
    UnparsedFields(sha, size);
    OtherTypeIsRefused(Unparsed(sha, size), Corrected(sha, size));
    var t := WithRaw(NO_TABLES, Unparsed(sha, size));
    RefusedRun(Db(map["first" := UnparsedManifest(size)], t), Corrected(sha, size), 0);
  }

  lemma HistoryOfTwo(a: Db, b: Db, p: Request, q: Request)
    requires p.runId in a.manifests && q.runId !in a.manifests && q.runId in b.manifests
    requires RunEffect(Db(map[], NO_TABLES), a, p, a.manifests[p.runId]) && RunEffect(a, b, q, b.manifests[q.runId])
    ensures History([Db(map[], NO_TABLES), a, b], [p, q])
  {
    hide RunEffect;
    var dbs, qs := [Db(map[], NO_TABLES), a, b], [p, q];
    assert RanAt(dbs, qs, 0) && RanAt(dbs, qs, 1);
  }

  lemma RunIds(sha: string, size: nat)
    ensures Unparsed(sha, size).runId == "first" && Corrected(sha, size).runId == "second" && "first" != "second"
    ensures CorrectedManifest(size).status == Failed
    ensures CorrectedManifest(size).errorSummary == Some(Refusal(IntegrityViolation))
    ensures Unparsed(sha, size).connector.fetched.Some? && WithRaw(NO_TABLES, Unparsed(sha, size)).observations == {}
  {
    assert "first"[0] != "second"[0];
  }

  /**
   Any bytes: they are stored as text/csv by a run whose parser fails. The request that fetches them under the
   right content type would succeed on empty tables; after that run it fails.
   */
  lemma ContentTypeIsFinal(sha: string, size: nat)
    requires sha != ""
    ensures
      var first, second := UnparsedManifest(size), CorrectedManifest(size);
      var t := WithRaw(NO_TABLES, Unparsed(sha, size));
      && History([Db(map[], NO_TABLES), Db(map["first" := first], t), Db(map["first" := first]["second" := second], t)],
                 [Unparsed(sha, size), Corrected(sha, size)])
      && Succeeds(NO_TABLES, Corrected(sha, size)) && second.status == Failed
          && second.errorSummary == Some(Refusal(IntegrityViolation))
      && t.observations == {}
  {
    hide *;
    CorrectedAloneSucceeds(sha, size);
    UnparsedRun(sha, size);
    CorrectedRun(sha, size);
    RunIds(sha, size);
    var first, second, t := UnparsedManifest(size), CorrectedManifest(size), WithRaw(NO_TABLES, Unparsed(sha, size));
    HistoryOfTwo(Db(map["first" := first], t), Db(map["first" := first]["second" := second], t),
                 Unparsed(sha, size), Corrected(sha, size));
  }
}
