# MarketEvolver: a verified model of its hard core

This project models the parts of MarketEvolver that carry its central promises (records
are append-only, questions are answered as of a cutoff, money is conserved, payloads are
ingested once) and proves those promises for all inputs, all runs and all reachable
states. `dafny verify dfyconfig.toml` checks everything with Dafny 4.11.

Code that computes values is written as functions, with lemmas about them. Code that changes
things step by step is written as classes and methods with loops, and every such method
is proved against a specification function or predicate whose own laws are proved beside it.

| files | component |
|---|---|
| `Bitemporal`, `KnowledgeGraph`, `AliasIndex`, `EventTracing`, `TraceAnswers`, `KnowledgeStore`, `DroppedPath` | the bitemporal knowledge graph: versions, as-of queries, alias index, path enumeration |
| `Costs`, `Execution`, `Backtest`, `BacktestRun`, `ReportFigures`, `TimeOrder`, `ProcessingOrder`, `NavHistory`, `WalkForward` | the backtest: costs, entry and exit, budgeted orders, the run, drawdown, walk-forward windows |
| `PaperLedger`, `FillLaws`, `LedgerLaws` | the paper account and its conservation laws |
| `MacroTrend` | the macro trend classifier and Samuelson's inequality |
| `Ingestion`, `IngestionHistory`, `IngestionRecords` | the ingestion protocol with a failure at any step, and series of runs |
| `ClaimRevisions`, `Fusion`, `Reputation`, `ReputationCounts`, `Copies` | claim revisions, causal records, source reputation, credit for copies |
| `Lifecycle`, `Government`, `BackDating` | the lifecycle of government actions |
| `Prelude`, `Ordering`, `RealFacts` | options, results and filters; stable sorting; facts about products and quotients |

## How the source is read

- Content identifiers are injective, so a row stands for its own identifier. Claims and
  government actions keep explicit identifiers because other rows refer to them by name.
- Decimals are exact reals; the rounding of costs to six decimals, half to even, is modelled.
  Floats of the trend classifier enter as a square root `deviation` that is exact or close
  (`ExactRoot`, `NearRoot`).
- Timestamps are whole microseconds. Alias normalisation is an uninterpreted function.
- What the database, the network, the clock or a connector contributes is a parameter. In
  the ingestion protocol a fault may be raised at every step at which the environment can
  raise; a run is described exactly for every choice of faults.
- `requires` clauses state what record constructors check before a row can exist, that market
  bars come in time order, that run identifiers are fresh, and that the clock does not run
  backwards.

## Where the code does not do what one would expect

Each of these is a theorem here, with the exact condition where the promise is kept.

- A name that normalises to nothing (`"--"`) makes `add_entity` raise while the entity row is
  already pending in the caller's session. Only names sorting before the first blank one are
  indexed, so in that session the entity can be invisible to alias resolution under its own
  canonical name (`AddEntityIndexesSurvivors`, `RunIndexAgreesIff`, `RunResolvesSurvivors`,
  `BlankNameLosesCanonicalName`).
- De-duplicating traced paths by their edges drops one orientation of an edge between two
  start nodes, and nothing else (`TraceKeepsEveryPath`, `OneDirectionIsDropped`).
- The SHORT horizon can never report ANOMALY, because three values cannot lie two standard
  deviations from their mean (`ShortHorizonNeverAnomalous`, `AnomalyReachableIff`).
- A backtest without a trade never reports "all signals skipped": it raises "dataset
  provenance is missing" first (`ReportsIff`, `NoTradeNoReport`, `AllSkippedRaises`).
- Backtest trades are sized in processing order, not in time order: the result of a later exit of an
  asset processed earlier moves the size of an earlier entry. The windows from entry to exit, which
  are known before the run, decide when this cannot happen and when it does (`SizingUsesOpenTrades`,
  `OrderedWindowsOrderTheRun`, `FilledWindowsDecide`, `FreeRunsAreDecidedByWindows`,
  `LateResultSizesEarlyEntry`).
- `raw_artifacts_created` is set before the bytes are written, so a failed write of new bytes counts
  (`CounterIsGrowthIff`, `ManifestsCountArtifacts`).
- Bytes stored under one content type can never be ingested under another
  (`OtherContentTypeAlwaysFails`, `ContentTypeIsFinal`).
- `add_claim` checks a revision only if `revision_of` is not the empty string, so it accepts any
  version of the empty identifier. The foreign key of the table refuses the row at the next
  flush, so versions count revisions in every stored table (`AcceptedClaimIsStoredIff`,
  `EmptyRevisionIsRefusedLate`, `VersionsCountRevisions`).
- The documentation gives copied and forwarded claims no origination credit; the code counts
  them in the sample, the outcomes and the leads. It meets the documentation if and only if no
  claim in the window is a copied or forwarded one (`DocumentedIffNothingCopied`,
  `CopiesAreCredited`, `ACreditedCopy`).
- The documentation says that the state at a cutoff uses only transitions recorded by then;
  the code filters by the transition's own date, so a back-dated transition rewrites the past
  and breaks the chain of the lifecycle graph, until another one repairs it
  (`ChainsIffTimely`, `ChainAfterStepIff`, `StatusChangesIff`, `BackDatingBreaksAndRepairs`).
- An action whose first status is not an initial one is refused, but its row stays pending and
  a second call reports success (`FirstStatusDecides`).

## Model

| member | source | states |
|---|---|---|
| Bitemporal.LatestVisible | src/market_evolver/knowledge/repositories.py:197-216 | the as-of query returns a stored row of the key that is observed by the cutoff and valid at it, of the highest version among those; nothing only when there is none |
| Bitemporal.VersionsExactlyOneToN | src/market_evolver/knowledge/repositories.py:433-445 | the stored versions of a key are exactly 1..n, so the next admissible version is n + 1 |
| Bitemporal.VersionsIncrease | src/market_evolver/knowledge/repositories.py:433-445 | of two rows of one key the later stored has the strictly higher version |
| Bitemporal.SequentialAppend | src/market_evolver/knowledge/repositories.py:433-445 | a row that passes the version check keeps every key gap-free |
| Bitemporal.LatestVisibleUnique | src/market_evolver/knowledge/repositories.py:210-215 | a visible row that no visible row of its key exceeds in version is the one the query returns |
| Bitemporal.LatestVisibleIsInForce | src/market_evolver/knowledge/repositories.py:197-216 | in terms of the fields: the row found was observed by the cutoff, is valid from then or before and not expired, and no such row of the key has a higher version; nothing is found only if there is no such row |
| Bitemporal.InForceIsLatestVisible | src/market_evolver/knowledge/repositories.py:210-215 | in a gap-free table the row that meets this description is the one found, for one key at most one |
| Bitemporal.LatestVisibleKnown | src/market_evolver/knowledge/repositories.py:197-216 | an as-of answer is a function of the rows observed by the cutoff alone |
| KnowledgeGraph.ApplyKeepsVersions | src/market_evolver/knowledge/repositories.py:50-195 | every add, accepted or rejected, keeps versions 1..n in the entity, relationship and exposure tables |
| KnowledgeGraph.RunKeepsVersions | src/market_evolver/knowledge/repositories.py:50-195 | the same over every series of adds |
| KnowledgeGraph.RunKeepsAnchors | src/market_evolver/knowledge/repositories.py:121-195 | over every run, both ends of every stored relationship and exposure are entities that were visible when it was observed |
| KnowledgeGraph.RunKeepsAliases | src/market_evolver/knowledge/repositories.py:101-119 | over every run no alias row is stored twice and none names a version that is not stored |
| KnowledgeGraph.LatestRecords | src/market_evolver/knowledge/repositories.py:447-456 | keeps exactly the first row of every key, once each, in the order of the input |
| KnowledgeGraph.LatestRecordsAreView | src/market_evolver/knowledge/repositories.py:267-300 | on rows sorted by falling version, the first row of a key is the latest visible version of the whole table |
| KnowledgeGraph.ActiveEdgesAt | src/market_evolver/knowledge/repositories.py:267-333 | the per-node query returns exactly the edges of the global latest-version-per-key view that are active and touch the node, one per key, sorted by source, target and type |
| AliasIndex.CandidatesAreNamedVersions | src/market_evolver/knowledge/repositories.py:236-258 | with an index that agrees, the loop of alias resolution selects exactly the visible versions that have the normal form among their names |
| AliasIndex.AddNamesIndexes | src/market_evolver/knowledge/repositories.py:80-98 | indexing names in order adds exactly the forms of those before the first blank one, for that version alone, and raises if and only if one is blank |
| AliasIndex.AddEntityIndexesSurvivors | src/market_evolver/knowledge/repositories.py:50-99 | which names survive: after an accepted version the index holds for it exactly the forms of its names that sort before every blank one, and is unchanged for all others |
| AliasIndex.AddEntityAdds | src/market_evolver/knowledge/repositories.py:50-119 | all that adding a version does: known rows and wrong versions change nothing; otherwise the row is stored, every name that sorts before all blank ones gets exactly its alias row with the period of the version, and the call raises if and only if a name is blank |
| AliasIndex.FormsOfNames | src/market_evolver/knowledge/repositories.py:80-92 | a version has a form among its names if and only if the canonical, English, or non-empty Hebrew name, an alias or an identifier has it |
| AliasIndex.AllFormsSurviveIff | src/market_evolver/knowledge/repositories.py:80-98 | all forms of a version survive if and only if none of its names is blank |
| AliasIndex.AddEntityKeepsAgreementIff | src/market_evolver/knowledge/repositories.py:50-99 | a version that passes the version check stays pending in the session in any case; the index still agrees with the entity table if and only if none of its names normalises to nothing, which is exactly when the call does not raise |
| AliasIndex.BlankNameLosesCanonicalName | src/market_evolver/knowledge/repositories.py:80-98 | concrete failing case: with the alias "--" the call raises, the entity is visible in the session, and it does not resolve by its own canonical name |
| AliasIndex.RunIndexAgreesIff | src/market_evolver/knowledge/repositories.py:50-119 | over every run in which aliases enter only with entities, the index agrees with the entity table if and only if no stored version has a blank name |
| AliasIndex.RunIndexHoldsSurvivors | src/market_evolver/knowledge/repositories.py:50-119 | over every such run, blank names or not, the index holds for every stored version exactly its surviving forms |
| AliasIndex.CandidatesAreSurvivors | src/market_evolver/knowledge/repositories.py:236-258 | blank names or not, the loop of alias resolution selects exactly the visible versions that have the normal form among their surviving ones |
| AliasIndex.RunResolvesSurvivors | src/market_evolver/knowledge/repositories.py:50-258 | so it does for every query after every run in which aliases enter only with entities |
| AliasIndex.KnownAnswers | src/market_evolver/knowledge/repositories.py:197-333 | entity, alias, relationship and exposure answers at a cutoff are those of the rows observed by it |
| AliasIndex.LaterRunsChangeNoAnswer | src/market_evolver/knowledge/repositories.py:197-333 | no run of adds observed after a cutoff changes an entity, alias, relationship or exposure answer at it |
| EventTracing.EdgeIdsFixNodes | src/market_evolver/knowledge/repositories.py:386-415 | the edges of a simple path of two or more edges determine its nodes |
| EventTracing.CollisionsAreReversedEdges | src/market_evolver/knowledge/repositories.py:386-415 | two simple paths share their edges if and only if they are the same, or a single edge between two starts walked both ways |
| EventTracing.TraceKeepsEveryPath | src/market_evolver/knowledge/repositories.py:415-426 | an enumerated path survives de-duplication if and only if it has two or more edges, or ends outside the starts, or its end precedes its beginning among the starts |
| EventTracing.ConfidenceOfWeakestLink | src/market_evolver/knowledge/repositories.py:392-398 | a path is at most as credible as the event and as each of its edges, and never negative |
| EventTracing.ExtendWalk | src/market_evolver/knowledge/repositories.py:380-411 | the inner loop yields exactly the one-edge extensions to nodes not yet on the walk |
| EventTracing.ExtendThroughGraph | src/market_evolver/knowledge/repositories.py:379-411 | a simple path is extended by every active visible edge at its end and by nothing else |
| EventTracing.Expand | src/market_evolver/knowledge/repositories.py:378-412 | one round turns all simple paths of n edges into all simple paths of n + 1 edges, in frontier order |
| EventTracing.EnumeratePaths | src/market_evolver/knowledge/repositories.py:363-414 | soundness and completeness: the paths found are exactly the simple paths of 1..max_depth visible active edges from a start, with their confidence and provenance |
| EventTracing.EmptyLevel | src/market_evolver/knowledge/repositories.py:412-414 | an empty frontier means there is no longer simple path, so stopping early loses none |
| EventTracing.Deduplicate | src/market_evolver/knowledge/repositories.py:415 | keeps for every edge sequence exactly the last path that has it |
| EventTracing.LaterStartWins | src/market_evolver/knowledge/repositories.py:415 | of the two orientations of one edge between two starts, the one from the later start is kept |
| EventTracing.TraceAssembled | src/market_evolver/knowledge/repositories.py:416-427 | the assembled answer: visible sorted starts, exactly the enumerated edge sequences, once each, sorted by length and then by the edge identifiers |
| EventTracing.TraceIsUnique | src/market_evolver/knowledge/repositories.py:335-427 | the specification of a trace has one answer only: two traces of the same event, cutoff and depth that meet it are equal, order of the paths included |
| TraceAnswers.TraceNamesTheStarts | src/market_evolver/knowledge/repositories.py:346-362 | an id is a candidate mechanism if and only if some mechanism of the event has it behind the prefix and an entity version is current under it, as often as the event names it; the direct entities likewise; both sorted |
| TraceAnswers.ReachesIsSimplePath | src/market_evolver/knowledge/repositories.py:363-414 | the paths that are enumerated lead from a named, present entity to ever new nodes along edges that are the highest current version of their key and active, in either direction |
| TraceAnswers.TraceAnswersTheQuestion | src/market_evolver/knowledge/repositories.py:335-427 | the whole answer in terms of the fields of event and rows: starts, paths with versions, provenance and the product of confidences, no edge sequence missing or twice, order of the paths, and which direction of an edge between two starts is kept |
| EventTracing.LaterRecordsChangeNoEvent | src/market_evolver/observatory/repositories.py:134-150 | events and evidence observed after a cutoff change no visibility at it |
| DroppedPath.OneDirectionIsDropped | src/market_evolver/knowledge/repositories.py:363-426 | concrete case of de-duplication: after a run that adds two entities and an edge between them, an event naming both is traced from the second to the first only |
| KnowledgeStore.ResolutionIsExact | src/market_evolver/knowledge/repositories.py:236-265 | with an index that agrees, an alias resolves to exactly the visible versions bearing the name, and is RESOLVED if and only if there is exactly one |
| KnowledgeStore.LaterRunsChangeNoResolution | src/market_evolver/knowledge/repositories.py:236-265 | a resolution at a cutoff does not depend on later observations |
| KnowledgeStore.LaterRunsChangeNoTrace | src/market_evolver/knowledge/repositories.py:335-427 | neither does a trace: before and after any run of later observations the same single answer meets the specification |
| KnowledgeStore.SqlKnowledgeGraph.AddAlias | src/market_evolver/knowledge/repositories.py:101-119 | afterwards the row is stored if and only if its entity version is; no other row comes or goes, the table grows by one exactly when a row is reported as added, and no row is stored twice or dangles |
| KnowledgeStore.SqlKnowledgeGraph.AddEntity | src/market_evolver/knowledge/repositories.py:50-99 | the loop over the sorted names does to the tables exactly what adding a version does, errors in the middle included, and keeps all versions gap-free |
| KnowledgeStore.SqlKnowledgeGraph.AddRelationship | src/market_evolver/knowledge/repositories.py:121-155 | a known row, or one row appended if and only if both end points have a current version when the edge is observed and its version is the next of its key; versions stay gap-free |
| KnowledgeStore.SqlKnowledgeGraph.AddExposure | src/market_evolver/knowledge/repositories.py:157-195 | the same for exposures |
| KnowledgeStore.SqlKnowledgeGraph.GetEntityAt | src/market_evolver/knowledge/repositories.py:197-216 | the current version of highest number, and nothing only if no version is current |
| KnowledgeStore.SqlKnowledgeGraph.GetRelationships | src/market_evolver/knowledge/repositories.py:267-300 | exactly the active edges at the node that are in force, one per key, in the order of source, target and type |
| KnowledgeStore.SqlKnowledgeGraph.GetExposures | src/market_evolver/knowledge/repositories.py:302-333 | exactly the active exposures at the node that are in force, one per key, in the same order |
| KnowledgeStore.SqlKnowledgeGraph.ResolveAlias | src/market_evolver/knowledge/repositories.py:236-265 | the versions in force to which a current alias row gives the form, once each, sorted by entity id, and the status that their number implies |
| KnowledgeStore.SqlKnowledgeGraph.TraceEvent | src/market_evolver/knowledge/repositories.py:335-427 | raises exactly when the event or a piece of its evidence is missing or later than the cutoff; otherwise gives that whole answer for the stored event |
| Costs.FmtMonotone | src/market_evolver/experiment/costs.py:32-33 | rounding to six decimals, half to even, preserves order |
| Costs.FmtNearest | src/market_evolver/experiment/costs.py:32-33 | a rounded cost is off by at most half a millionth, never turns negative, and rounding again changes nothing |
| Costs.FmtTiesGoToEven | src/market_evolver/experiment/costs.py:32-33 | a cost half-way between two millionths becomes an even number of them |
| Costs.CostsToTheMillionth | src/market_evolver/experiment/costs.py:10-33 | every cost component is its rate on the notional (the tax its rate on a positive gain) to within half a millionth, and the commission is never below its rounded minimum |
| Costs.CostsMonotone | src/market_evolver/experiment/costs.py:10-22 | trading more never costs less, through the minimum commission and the rounding of every component |
| Costs.CostsNonNegative | src/market_evolver/experiment/costs.py:10-22 | total costs of a non-negative notional are non-negative, whatever the taxable gain |
| Costs.AffordableIsLargest | src/market_evolver/experiment/costs.py:25-29 | the quantity is what the cash pays for: all of it for fractional shares, else the largest whole number; positive if and only if the cash buys something |
| Costs.SecondAttemptFits | src/market_evolver/experiment/engine.py:160-172 | a second attempt with positive quantity always fits the allocation, so the final guard only ever skips zero quantities |
| Costs.PlanOrderIff | src/market_evolver/experiment/engine.py:151-172 | an order is placed if and only if the first attempt is positive and fits, or what its costs leave still buys something; every order placed stays within the allocation |
| Costs.PlanSpends | src/market_evolver/experiment/engine.py:151-172 | what is bought: as much as the allocation pays for if that and its costs fit, and otherwise as much as the allocation less those costs pays for; the five entry costs are the rates on the notional, without tax, and the total stays within the allocation |
| Execution.SelectExecutionPoint | src/market_evolver/experiment/engine.py:44-69 | the search loop computes the entry specification |
| Execution.EntryIsNextSession | src/market_evolver/experiment/engine.py:44-69 | the entry is in a known session ahead of the signal that no other such session opens before; without one the call raises |
| Execution.EntryIsCausal | src/market_evolver/experiment/engine.py:50-68 | the entry lies strictly after the signal, at the open or close of a session known at the signal |
| Execution.EntryMeaning | src/market_evolver/experiment/engine.py:44-69 | the entry in terms of the rows: the first session on offer, the first bar on the day it closes, and the open of both or, under the close rule, the close; it raises if and only if there is no such session or no such price |
| Execution.FindAtOrAfter | src/market_evolver/experiment/engine.py:360-362 | the number of bars up to the first one at or after the invalidation |
| Execution.FindTrigger | src/market_evolver/experiment/engine.py:372-377 | the number of bars up to the first stop or target hit |
| Execution.SelectExit | src/market_evolver/experiment/engine.py:342-380 | returns the k-th later bar and k for the specified holding k, nothing when the position cannot be closed, and the specified error otherwise |
| Execution.HoldingMeaning | src/market_evolver/experiment/engine.py:342-380 | k bars are held if and only if k is the window end, the holding period, the first bar reacting to the earliest invalidation, or the first stop or target within the holding period and else its end, by exit rule |
| Execution.HoldingOtherwise | src/market_evolver/experiment/engine.py:342-380 | whether and why no bars are held: when the call raises, with which error, and when it skips instead, by exit rule |
| Execution.TriggerIsPrice | src/market_evolver/experiment/engine.py:366-377 | a stop is hit when the close has fallen by its share of the entry price, a target when it has risen by it |
| Backtest.TradesAreSound | src/market_evolver/experiment/engine.py:136-205 | signal < entry < exit; prices and quantity positive, whole shares where required; adverse excursion <= realised return <= favourable excursion; notional plus entry costs within the share of cash; costs are those of both sides |
| Backtest.TradesFollowRules | src/market_evolver/experiment/engine.py:136-205 | a trade enters at the entry of its signal and leaves at the last of the bars that the exit rule holds; the excursions are the extreme returns over those bars; the relative return is the realised one less the benchmark |
| Backtest.NoCashNoTrade | src/market_evolver/experiment/engine.py:151-155 | without positive cash no signal becomes a trade |
| Backtest.ObservationsAreTheAssets | src/market_evolver/experiment/engine.py:206-208 | the observations a trade cites are bars of its own asset |
| BacktestRun.TradeAsset | src/market_evolver/experiment/engine.py:130-209 | the signal loop of one asset computes the fold over its signals, first error included |
| BacktestRun.TradeUniverse | src/market_evolver/experiment/engine.py:97-209 | the asset loop computes the fold over the universe, first error included |
| BacktestRun.TakeSignalKeepsAccounts | src/market_evolver/experiment/engine.py:130-209 | one signal keeps the accounts: cash is initial cash plus gains minus costs, entry i of the history is the cash after trade i, only the last entry can be zero, trade i answers a fired signal and is sized with the balance before it; the signal is executed or skipped |
| BacktestRun.TakeAssetsKeepsAccounts | src/market_evolver/experiment/engine.py:114-209 | the same after any number of assets, with executed plus skipped equal to the signals taken |
| BacktestRun.Run | src/market_evolver/experiment/engine.py:77-288 | the run as a whole computes the specified outcome |
| BacktestRun.NavReturnsNeverDivideByZero | src/market_evolver/experiment/engine.py:399-401 | with positive initial cash no balance but the last can be zero, so the period returns are defined |
| BacktestRun.FinalCashIsAccountedFor | src/market_evolver/experiment/engine.py:173-209 | final balance = initial + gains - all costs, net return times initial is the same sum, and the period returns compound to 1 + net return |
| BacktestRun.ReportedDrawdown | src/market_evolver/experiment/engine.py:404-411 | the reported drawdown lies in [-1, 0], bounds every fall between two balances and is attained by one |
| BacktestRun.ReportedTradesAreSound | src/market_evolver/experiment/engine.py:136-205 | trade i of a report answers a fired signal of the run, follows the entry and exit rules, and is sized with the i-th balance of the history: its quantity is the planned one and stays within the share of that balance |
| BacktestRun.SignalsAreExecutedOrSkipped | src/market_evolver/experiment/engine.py:130-172 | over a universe without repetitions executed + skipped = signals naming a universe asset, and at least one is executed |
| BacktestRun.ReportsIff | src/market_evolver/experiment/engine.py:77-288 | exactly when a run reports: set-up and all signals go through, the cited observations lead to a stored partition, and there are no more trades than signals |
| BacktestRun.StoredMarketReportsIff | src/market_evolver/experiment/engine.py:216-288 | on a market whose bars are all stored in known partitions a completed run reports if and only if it has at least one trade and no more trades than signals |
| BacktestRun.NoTradeNoReport | src/market_evolver/experiment/engine.py:210-218 | a run that completes without a trade raises the provenance error, so for no universe does a report say that all signals were skipped |
| BacktestRun.AllSkippedRaises | src/market_evolver/experiment/engine.py:210-218 | concrete failing case: one signal that does not fire, over a bar that the market data store can hand out, completes, is skipped, and raises instead of being reported |
| TimeOrder.SizingUsesOpenTrades | src/market_evolver/experiment/engine.py:114-209 | sizing follows the processing order: the cash of trade i is the initial cash plus what earlier recorded trades earned by its entry plus what they earn after it |
| TimeOrder.TradesFillWindows | src/market_evolver/experiment/engine.py:136-172 | entry, exit and prices of a signal and the errors it raises do not depend on the cash, which decides only whether the window is filled |
| TimeOrder.ReportFollowsWindows | src/market_evolver/experiment/engine.py:114-209 | the trades of a report fill windows of the fired, closable signals in processing order |
| TimeOrder.OrderedWindowsOrderTheRun | src/market_evolver/experiment/engine.py:114-209 | a condition on the inputs: if each window ends by the start of every later one, every trade is sized with closed results only; if the windows end in processing order, the history is in time order |
| TimeOrder.FilledWindowsDecide | src/market_evolver/experiment/engine.py:114-209 | the converse when no window is skipped for quantity: the history is in time order if and only if the windows end in processing order, and a trade whose open predecessors all lose or, without costs, all gain is sized with closed results if and only if it has none |
| TimeOrder.FreeRunsAreDecidedByWindows | src/market_evolver/experiment/engine.py:77-288 | for fractional shares without costs the inputs alone decide: a stored market with cash reports if and only if nothing raises and there are between one and as many windows as signals; all are filled, and both equivalences hold |
| ProcessingOrder.LateResultSizesEarlyEntry | src/market_evolver/experiment/engine.py:114-209 | concrete inputs that the market data store can hand out: an entry at 1 is sized with the result of an exit at 10, and the reported history runs backwards |
| BacktestRun.PoorRunTradesNothing | src/market_evolver/experiment/engine.py:151-155 | a run without positive initial cash trades nothing |
| ReportFigures.ReportedBenchmark | src/market_evolver/experiment/engine.py:102-113 | over every reported run the benchmark return spans the first and the last close, the excess is net less benchmark, and every relative return is the realised one less the same figure |
| ReportFigures.ReportedFigures | src/market_evolver/experiment/engine.py:244-281 | gross return, turnover and the five costs sum up the trades, the hit rate counts those that closed above their entry price, and the net return is the gains less exactly the reported costs |
| ReportFigures.ReportedInputs | src/market_evolver/experiment/engine.py:86-131 | a report vouches for its inputs: admissible, over by the cutoff, every universe asset there with the benchmark and bars, and no signal about one from after the cutoff |
| ReportFigures.SetupMeaning | src/market_evolver/experiment/engine.py:86-113 | when a run gets past its first checks, and with which error it does not |
| ReportFigures.SignalRaisesIff | src/market_evolver/experiment/engine.py:130-184 | a signal raises if and only if it was observed after the cutoff, or it fires and has no entry, exit or positive prices, or its trade would overdraw the cash |
| ReportFigures.TradeRestsOn | src/market_evolver/experiment/engine.py:186-208 | a trade rests on the observation of its entry and on those of the bars after it up to its exit, and on no other |
| ReportFigures.ProvenanceIff | src/market_evolver/experiment/engine.py:210-218 | a completed run reports if and only if one of these observations came from a stored partition and trades do not outnumber signals |
| NavHistory.MaxDrawdown | src/market_evolver/experiment/engine.py:404-411 | the single pass computes the running-peak recursion |
| NavHistory.WorstIsDeepestFall | src/market_evolver/experiment/engine.py:404-411 | the single pass equals the quadratic definition: the least nav_j / nav_i - 1 over i <= j with the initial balance first, attained and within [-1, 0] |
| NavHistory.ReturnsTelescope | src/market_evolver/experiment/engine.py:399-401 | the product of (1 + return) is the last balance over the initial one |
| WalkForward.WalkForwardWindows | src/market_evolver/experiment/baselines.py:42-56 | raises exactly when a size is below one |
| WalkForward.TestWindowsTile | src/market_evolver/experiment/baselines.py:49-56 | the forward-test parts are disjoint, cover every position after the first research and validation part up to their common end, and leave fewer than one test size over |
| WalkForward.WindowEndPoints | src/market_evolver/experiment/baselines.py:49-56 | every index is in bounds; research, validation and test are ordered and adjacent, and the recorded points are their first and last |
| PaperLedger.SettleFill | src/market_evolver/paper/accounting.py:18-46 | cash, quantity, average cost and realised P&L after a fill, or exactly the first failing check |
| PaperLedger.ApplyFill | src/market_evolver/paper/accounting.py:15-88 | succeeds if and only if no check rejects the fill, the marked value is non-negative and no position is short; the new snapshot is determined in every field, the market value is the valuation of its positions at the given marks, and sector and currency exposure, tax, benchmark and kill state are handed on unchanged |
| PaperLedger.MarkedIsValuation | src/market_evolver/paper/accounting.py:58-61 | the marked value is the sum over the positions of quantity times the given mark, or the stored one for an asset without |
| FillLaws.AcceptedIff | src/market_evolver/paper/accounting.py:18-46 | a fill is accepted if and only if it sells no more than is held, leaves something when it buys, keeps cash from going below zero, and its own cash and position agree with the account; division by zero is told apart |
| FillLaws.FillLeavesPosition | src/market_evolver/paper/accounting.py:45-57 | what becomes of the position: quantity as reported, averaged cost, given mark or fill price, sector and currency of the old one, in its old place or behind all others; or it is taken out |
| FillLaws.FillMovesFigures | src/market_evolver/paper/accounting.py:22-88 | every figure of the account after a fill: cash, realised result, fees and FX costs apart, value at the marks, peak, drawdown and exposure multiplied out, the rest as before |
| FillLaws.NavFollowsMarks | src/market_evolver/paper/accounting.py:58-62 | had one asset been marked d higher, NAV and unrealised result after the same fill would be higher by exactly d times what is held of it |
| PaperLedger.NoFillGoesShort | src/market_evolver/paper/accounting.py:26-57 | from a snapshot without shorts no valid accepted fill leads to a short |
| PaperLedger.FillMovesOneHolding | src/market_evolver/paper/accounting.py:26-57 | a fill sets one holding and its average cost and leaves every other position as it is, ids unique |
| PaperLedger.FillMovesBasis | src/market_evolver/paper/accounting.py:32-57 | a buy adds its value to the cost basis of the asset and of the book, a sale takes out its quantity at average cost |
| LedgerLaws.CashPlusBasisConserved | src/market_evolver/paper/accounting.py:22-78 | over every series of accepted fills, cash + basis - realised P&L falls by the buy-side costs and by nothing else |
| LedgerLaws.NavIdentity | src/market_evolver/paper/accounting.py:62-76 | NAV = initial cash + realised + unrealised - buy-side costs |
| LedgerLaws.CostsAccumulate | src/market_evolver/paper/accounting.py:23-43 | fees and FX costs add up over all fills, together and fees apart, and cash moves by sales, buys and costs alone; what a fill hands on never changes |
| LedgerLaws.HoldingsAreNetPurchases | src/market_evolver/paper/accounting.py:26-57 | a holding is what was held plus bought minus sold |
| LedgerLaws.ClosedPortfolioRealizesItsTrades | src/market_evolver/paper/accounting.py:22-78 | a portfolio closed out again has realised its sales minus its buys minus sale-side costs, and cash says so |
| LedgerLaws.PositionsStayPositive | src/market_evolver/paper/accounting.py:45-57 | quantities stay strictly positive and asset ids unique |
| LedgerLaws.SnapshotsAreValid | src/market_evolver/paper/accounting.py:65-88 | every snapshot passes the checks of its own constructor |
| LedgerLaws.AverageCostWithinBuyPrices | src/market_evolver/paper/accounting.py:32-34 | an average cost lies between the lowest and the highest buy price since the asset was last flat |
| LedgerLaws.BasisIsMoneySpent | src/market_evolver/paper/accounting.py:32-34 | while an asset is never sold its cost basis is the money spent on it |
| LedgerLaws.AverageIgnoresSplitAndOrder | src/market_evolver/paper/accounting.py:32-34 | buying the same quantity for the same money, however split and ordered, gives the same average cost |
| LedgerLaws.PeakIsRunningMaximum | src/market_evolver/paper/accounting.py:62-64 | peak NAV is the maximum of all NAVs so far |
| LedgerLaws.DrawdownIsAFraction | src/market_evolver/paper/accounting.py:63-80 | drawdown and gross exposure lie in [0, 1]; drawdown is zero if and only if NAV is at its peak |
| MacroTrend.TrendIsAboutTheLastValues | src/market_evolver/macro/trends.py:41-51 | mixed or empty input raises; otherwise the answer is about the last 3, 6 or 12 values of the one series, or all of them if fewer |
| MacroTrend.TrendFigures | src/market_evolver/macro/trends.py:41-63 | slope, mean and score multiplied out for the last 3, 6 or 12 values, and the state that follows from score and slope |
| MacroTrend.TrendIsDirection | src/market_evolver/macro/trends.py:52-63 | short of an anomaly, RISING and FALLING compare the last with the first value of the window |
| MacroTrend.SamuelsonIdentity | src/market_evolver/macro/trends.py:50-53 | the slack of the bound is the scatter of the earlier values about their own mean |
| MacroTrend.SamuelsonBound | src/market_evolver/macro/trends.py:50-53 | (last - mean)^2 <= (n - 1) * variance for every window, with equality if and only if all earlier values are equal |
| MacroTrend.AnomalyMeansTwoDeviations | src/market_evolver/macro/trends.py:54-57 | ANOMALY if and only if the deviation is positive and the squared distance of the last value is at least four squared deviations |
| MacroTrend.AnomalyNeedsFiveValues | src/market_evolver/macro/trends.py:54-57 | ANOMALY needs at least five values, even with a slightly inexact square root |
| MacroTrend.AnomalyAmongFiveValues | src/market_evolver/macro/trends.py:54-57 | among five values it is reached exactly when the first four are equal and the last is not |
| MacroTrend.ShortHorizonNeverAnomalous | src/market_evolver/macro/trends.py:19-57 | the SHORT horizon never reports an anomaly |
| MacroTrend.AnomalyReachableIff | src/market_evolver/macro/trends.py:19-57 | a horizon can report ANOMALY if and only if it is not SHORT |
| MacroTrend.TrendFollowsUnit | src/market_evolver/macro/trends.py:49-63 | rescaling and shifting a series keeps its state, and turning it upside down mirrors it |
| Ingestion.LatestPublication | src/market_evolver/ingestion/runner.py:130-137 | the publication time of the source is the latest that any item names, and absent only if none does |
| Ingestion.IngestionRunner.AddObservation | src/market_evolver/ingestion/repositories.py:29-64 | a known row is no insert; otherwise source and artifact must be stored; returns whether a row was created |
| Ingestion.IngestionRunner.AddEvidence | src/market_evolver/storage/repositories.py:74-83 | accepts exactly known evidence and evidence whose sources are all stored and none observed after it |
| Ingestion.IngestionRunner.AddArtifactMetadata | src/market_evolver/storage/repositories.py:259-279 | idempotent; refuses other metadata for the same bytes |
| Ingestion.IngestionRunner.StoreRaw | src/market_evolver/ingestion/runner.py:77-103 | succeeds if and only if no step up to the receipt commit fails; then artifact and receipt are committed together, and otherwise nothing is; the failure, the raw counter and the artifact store are exactly the specified ones |
| Ingestion.IngestionRunner.InsertItems | src/market_evolver/ingestion/runner.py:149-174 | the item loop succeeds if and only if every item passes every check; then exactly the batch and its evidence are stored, and inserted + duplicates = items with inserted the number of new rows |
| Ingestion.IngestionRunner.InsertParsed | src/market_evolver/ingestion/runner.py:126-191 | parsing, source, items and final manifest become durable together or not at all |
| Ingestion.IngestionRunner.FinishManifest | src/market_evolver/ingestion/repositories.py:116-132 | updates only the fields that a running manifest leaves open, the error summary among them, and only when it exists |
| Ingestion.IngestionRunner.StartRun | src/market_evolver/ingestion/runner.py:59-70 | the running manifest is committed before anything else can fail |
| Ingestion.IngestionRunner.FailRun | src/market_evolver/ingestion/runner.py:192-208 | rolls back everything pending and commits the failed manifest |
| Ingestion.IngestionRunner.Attempt | src/market_evolver/ingestion/runner.py:75-191 | the try block succeeds exactly under the stated conditions; on an exception the committed tables hold at most the raw payload, and the handler knows the specified item and raw counters and cause |
| Ingestion.IngestionRunner.Run | src/market_evolver/ingestion/runner.py:55-208 | a run refuses a disabled source untouched; otherwise its effect on the committed tables is exactly that of a failed, a duplicate or an inserting run, the manifest carries the error of a failure and none otherwise, its raw counter and the artifact store are the specified ones, and session and store stay consistent |
| Ingestion.CounterIsGrowthIff | src/market_evolver/ingestion/runner.py:75-80 | the raw counter of a run, failed or not, is the growth of the artifact store if and only if it did not fail while writing bytes that were new; then it is one too many |
| Ingestion.RunKeepsTables | src/market_evolver/ingestion/runner.py:83-125 | every run keeps the tables consistent and every receipt as first written; a new receipt names the uri and the content type of the payload and the time at which its run observed it |
| IngestionHistory.RunInsertsOnce | src/market_evolver/ingestion/runner.py:104-175 | a run leaves the observations of a payload alone or inserts all of them at once |
| IngestionHistory.RerunChangesOnlyManifests | src/market_evolver/ingestion/runner.py:104-124 | a rerun after the payload has been ingested changes manifests alone, however it ends |
| IngestionHistory.FailureLeavesAtMostTheReceipt | src/market_evolver/ingestion/runner.py:192-208 | a failed run leaves no source, observation or evidence; a receipt only when it got past the raw commit; counted items imply a receipt |
| IngestionHistory.HistoryConsistent | src/market_evolver/ingestion/runner.py:55-208 | over every series of runs with failures anywhere, observations are backed by receipt, artifact and one source record per payload |
| IngestionHistory.ReceiptsAreWrittenOnce | src/market_evolver/ingestion/runner.py:83-105 | a receipt is written once, by the earliest run that made the payload durable: before it there is none, ever after it carries the uri, the content type and the observation time of that run |
| IngestionHistory.ObservationsAreFrozen | src/market_evolver/ingestion/runner.py:104-124 | once a payload has observations they never change |
| IngestionHistory.ExactlyOnce | src/market_evolver/ingestion/runner.py:75-208 | all observations of a (source, dataset, sha256) are the batch of one run, and all carry the time of the earliest run that made the payload durable |
| IngestionHistory.ManifestsCountObservations | src/market_evolver/ingestion/runner.py:176-191 | the inserted counters of the stored manifests add up to the size of the observation table |
| IngestionHistory.ManifestsCountArtifacts | src/market_evolver/ingestion/runner.py:75-80 | the raw counters of the stored manifests add up to the size of the artifact store plus the writes of new bytes that failed |
| IngestionHistory.RunSeries | src/market_evolver/ingestion/runner.py:55-208 | whatever the requests and whatever fails in them, a series of runs of the runner is a history of tables and artifact stores, so the laws of histories hold of it |
| IngestionRecords.RunAddsItsRows | src/market_evolver/ingestion/runner.py:126-175 | a run adds nothing but rows of its own payload, field by field, and a run that inserts adds an observation for every item, its source and the evidence emitted for the two |
| IngestionRecords.SourcesComeFromRuns | src/market_evolver/ingestion/runner.py:126-148 | over every history a stored source has the uri, content type, publisher and latest publication of a run, the first observation on its receipt, and passes the checks of its constructor |
| IngestionRecords.ObservationsComeFromRuns | src/market_evolver/ingestion/runner.py:149-175 | over every history a stored observation is a parsed item of a run with such a source and passes the checks of its constructor |
| IngestionRecords.EvidenceComesFromRuns | src/market_evolver/ingestion/runner.py:170-172 | over every history stored evidence was emitted for an item of a run and cites only stored sources, none observed after it |
| IngestionRecords.ArtifactsComeFromRuns | src/market_evolver/ingestion/runner.py:75-103 | over every history an artifact has the size and the content type of a run that fetched it, and a receipt has the content type of its artifact |
| IngestionRecords.SucceedsIff | src/market_evolver/ingestion/runner.py:75-191 | when a run succeeds: the bytes fit what is stored, the payload is known or its source and every item fit, and no step that it gets to fails |
| IngestionRecords.RawIsDurableIff | src/market_evolver/ingestion/runner.py:75-103 | when a run leaves a receipt: there was one, or the bytes fit and no step up to the receipt commit fails |
| IngestionRecords.FirstDurableRun | src/market_evolver/ingestion/runner.py:83-103 | no run before the one that wrote the receipt got the payload past the commit |
| IngestionHistory.OtherContentTypeAlwaysFails | src/market_evolver/storage/repositories.py:259-268 | bytes stored under one content type are never ingested under another: every such run fails, changes only its manifest and, short of an earlier fault, reports the integrity error |
| IngestionHistory.ContentTypeIsFinal | src/market_evolver/storage/repositories.py:259-268 | failing case, for any bytes: a run whose parser fails stores them as text/csv, and the corrected request, which succeeds on empty tables, then fails |
| IngestionHistory.RetrySucceeds | src/market_evolver/ingestion/runner.py:104-106 | after a failure past the raw commit, a rerun without faults whose items pass their checks inserts the payload under its first receipt |
| ClaimRevisions.StoreClaimKeepsForest | src/market_evolver/fusion/repository.py:45-76 | a claim that is accepted and flushed keeps ids unique and every claim that names a prior behind the one it extends |
| ClaimRevisions.RunsKeepForest | src/market_evolver/fusion/repository.py:45-76 | the same over every series of adds |
| ClaimRevisions.LinesDescend | src/market_evolver/fusion/repository.py:48-55 | down a line of revisions versions rise by one and observation times rise strictly |
| ClaimRevisions.VersionIsLineLength | src/market_evolver/storage/models.py:1413-1414 | in every table that can be flushed a version equals the length of its line of revisions |
| ClaimRevisions.VersionsCountRevisions | src/market_evolver/fusion/repository.py:48-55 | after every series of adds each version counts the claims from its root down, and each root is a first version |
| ClaimRevisions.AcceptedClaimIsStoredIff | src/market_evolver/storage/models.py:1414 | a claim that the call accepts is flushed if and only if it does not name the empty identifier as its prior |
| ClaimRevisions.EmptyRevisionIsRefusedLate | src/market_evolver/fusion/repository.py:48-76 | concrete case: version 7 of the empty identifier can be constructed, is accepted by the call and then refused at the flush |
| ClaimRevisions.VisibleMeansUnrevised | src/market_evolver/fusion/repository.py:205-213 | visible at a cutoff are exactly the claims observed by it that nothing observed by it revises |
| ClaimRevisions.VisibleDescendant | src/market_evolver/fusion/repository.py:205-213 | every claim observed by a cutoff is visible or has a visible, strictly later, higher-version descendant |
| ClaimRevisions.VisibleClaimsAreUnrelated | src/market_evolver/fusion/repository.py:205-213 | no visible claim descends from another |
| ClaimRevisions.LaterClaimsStayInvisible | src/market_evolver/fusion/repository.py:205-213 | claims observed after a cutoff change no answer at it |
| Fusion.OnlySourceIff | src/market_evolver/fusion/repository.py:132-136 | a claim decides itself if and only if its own source is the only resolving one |
| Fusion.RunsKeepSound | src/market_evolver/fusion/repository.py:45-161 | over every run resolutions and lineage never precede the claims they are about, and no claim outside the primary types is decided by its own source alone |
| Fusion.RumoursNeedAnotherSource | src/market_evolver/fusion/repository.py:132-148 | whatever flags callers pass, a decided rumour, narrative, forecast or interpretation that its own source resolved was resolved by another source too |
| Fusion.LatestResolutionIsNewest | src/market_evolver/fusion/repository.py:246-258 | the resolution that counts is a visible one and none visible is later; there is none only if nothing was resolved by the cutoff |
| Fusion.ClaimIff | src/market_evolver/fusion/repository.py:45-76 | a claim is stored if and only if its identifier is new and it names no prior or a stored one that is a version lower and was first observed earlier |
| Fusion.LineageIff | src/market_evolver/fusion/repository.py:78-98 | an edge is added if and only if it is new and both its claims are stored and not first observed after it |
| Fusion.ResolutionIff | src/market_evolver/fusion/repository.py:122-148 | a resolution is added if and only if it is new, its claim is stored and not later, and it leaves the claim unresolved, has another source, or settles an official claim on authority |
| Fusion.SqlFusionRepository.AddClaim | src/market_evolver/fusion/repository.py:45-76 | after the flush of what is pending: known id, invalid revision, or the claim becomes pending; the store stays sound |
| Fusion.SqlFusionRepository.Flush | src/market_evolver/storage/models.py:1414 | writes the pending claim if and only if the claim it names is stored, raises and drops it otherwise; the store stays sound |
| Fusion.SqlFusionRepository.AddLineage | src/market_evolver/fusion/repository.py:78-98 | known edge, unknown claim, acausal edge or append; the store stays sound |
| Fusion.SqlFusionRepository.AddResolution | src/market_evolver/fusion/repository.py:122-161 | known row, unknown claim, acausal or self-decided resolution, or append; the store stays sound |
| Reputation.CountClaims | src/market_evolver/fusion/engine.py:133-152 | the loop counts, for each claim, the outcome of its latest resolution, its lead and whether it is a copy |
| Reputation.CalculateReputation | src/market_evolver/fusion/engine.py:113-175 | raises exactly for a window that is not positive or an unknown domain, and otherwise computes the specified snapshot, uncertainty label included |
| Reputation.ReputationAddsUp | src/market_evolver/fusion/engine.py:153-175 | confirmed + contradicted + unresolved + expired = sample; precision + contradiction rate = 1 once anything is decided; copy and original rates add to 1; a lead exists if and only if something was confirmed; samples below five are labelled insufficient; no check of the snapshot can fail |
| Reputation.LeadsWithinWindow | src/market_evolver/fusion/engine.py:140-142 | no lead of a sound store is negative or longer than the window |
| Reputation.MedianLeadWithinWindow | src/market_evolver/fusion/engine.py:159-170 | neither is the median lead |
| ReputationCounts.ReputationDescribesClaims | src/market_evolver/fusion/engine.py:113-175 | the figures are sizes of sets of stored claims: sample, outcomes and copies; the rates are their shares; the lead is the median of the whole seconds from claim to resolution over the confirmed ones |
| ReputationCounts.MedianIsMedian | src/market_evolver/fusion/engine.py:159-170 | the median is the value of middle rank, or half of the sum of the two in the middle, rounded toward zero |
| Reputation.SameReputation | src/market_evolver/fusion/engine.py:113-175 | a reputation is a function of the records dated by its cutoff |
| Reputation.LaterRunsChangeNoReputation | src/market_evolver/fusion/engine.py:113-175 | no run of adds dated after the cutoff changes a reputation, which is what the constant leakage rate of zero at line 244 claims |
| Copies.CopiesKeepTheirCredit | src/market_evolver/fusion/engine.py:145-175 | lineage moves the copy and original-content rates and nothing else |
| Copies.DocumentedIffNothingCopied | docs/source-reputation.md:16-18 | the reported reputation is the documented one, which credits no copied or forwarded claim, if and only if no claim in the window is the target of a visible copied_from or forwarded_from edge; so is the sample alone |
| Copies.CopiesAreCredited | src/market_evolver/fusion/engine.py:133-158 | by how much they differ: the reported sample exceeds the documented one by the copies in the window, the reported outcomes by the copies with that outcome; the rates of copies agree |
| Copies.CopiedClaimIsCredited | src/market_evolver/fusion/engine.py:113-175 | every run that stores a claim, a copy of it by another source, the edge between them and a confirmation of the copy by a third party reports sample 1, confirmed 1 and precision 1 for the copying source, where the documented reputation is empty |
| Copies.ACreditedCopy | src/market_evolver/fusion/engine.py:113-175 | such a run on concrete data |
| Lifecycle.LatestAtMeaning | src/market_evolver/government/repositories.py:211-225 | the status query selects a transition dated by the cutoff that none such follows in (time, sequence) |
| Lifecycle.StatusIsEndOfPrefix | src/market_evolver/government/repositories.py:211-256 | the status at a cutoff is where the sorted history stands after its transitions up to the cutoff |
| Lifecycle.HistoryAfterAppend | src/market_evolver/government/repositories.py:227-242 | a new transition takes its place in the history behind everything up to its own time |
| Lifecycle.ChainKeptIffNotBackDated | src/market_evolver/government/repositories.py:102-143 | an admissible transition keeps a chain of the lifecycle graph a chain if and only if nothing recorded before is dated after it |
| Lifecycle.ChainAfterStepIff | src/market_evolver/government/repositories.py:102-143 | one step of any history, chain or broken: afterwards it is a chain if and only if all other links hold and the transition displaced by the new one may start where the new one ends |
| Lifecycle.StatusChangesIff | src/market_evolver/government/repositories.py:102-143 | recording it changes the status at a cutoff if and only if it is dated by the cutoff and no recorded transition lies between |
| Lifecycle.TerminalStatusesAreLast | src/market_evolver/government/schemas.py:142-143 | on a chain nothing follows REPEALED or EXPIRED |
| Lifecycle.ArrowsBothWays | src/market_evolver/government/schemas.py:63-144 | the transition table read against its arrows: for each status exactly which ones it can be reached from |
| Lifecycle.EffectiveComesFirst | src/market_evolver/government/schemas.py:63-144 | on a chain ENFORCED and EXPIRED come after an EFFECTIVE |
| Lifecycle.GroundworkComesFirst | src/market_evolver/government/schemas.py:63-144 | on a chain everything beyond the proposal stages comes after an approval, a publication or a suspension |
| Lifecycle.EffectiveWithoutApproval | src/market_evolver/government/schemas.py:75-82 | a suspended proposal can become effective without approval or publication |
| Government.OneStep | src/market_evolver/government/repositories.py:32-143 | an operation records at most one transition, the one it asks for, of the action it names; it was admissible and cites only evidence known then and observed by its date |
| Government.RunsKeepSound | src/market_evolver/government/repositories.py:102-143 | over every run sequences are 0..n-1 per action and every transition is legal; each, a first one included, was asked for by an operation when all its evidence was known and observed no later than the date of the transition |
| Government.TimelyRunsAreChains | src/market_evolver/government/repositories.py:102-143 | in a run without back-dating every history is its log, in time order, and a chain of the lifecycle graph |
| Government.TimelyStatus | src/market_evolver/government/repositories.py:211-225 | and the status at a cutoff is the end of the prefix recorded up to it |
| Government.TimelyLandmarks | src/market_evolver/government/repositories.py:211-225 | and an action enforced or expired at a cutoff was effective by then, a repealed or expired one has no later transition |
| Government.ChainsIffTimely | src/market_evolver/government/repositories.py:102-143 | every history is a chain at every point of a run if and only if no operation of the run records a back-dated transition; late operations that are refused do not matter |
| BackDating.BackDatingBreaksAndRepairs | src/market_evolver/government/repositories.py:35-143 | concrete run from no actions: of five accepted requests the fourth, back-dated, breaks the chain and rewrites the status of a past day, and the fifth, back-dated as well, repairs it |
| Government.FirstStatusDecides | src/market_evolver/government/repositories.py:32-100 | a new action with resolved references is accepted if and only if its status may come first; otherwise the row stays pending without any status and a second add reports success |
| Government.TransitionIff | src/market_evolver/government/repositories.py:102-143 | a transition is recorded if and only if the action is known, starts from the status at that date along an arrow, its evidence is known and not later, and evidence and rationale are not empty; with which error it is refused otherwise |
| Government.ActionIff | src/market_evolver/government/repositories.py:35-100 | the answer to adding an action and the rows afterwards, whichever check fails |
| Government.ActionsAreIntroduced | src/market_evolver/government/repositories.py:35-100 | over every run each stored action was asked for when its evidence and entities were known and not later, its mechanisms registered and its prior stored one version below |
| Government.SqlGovernmentRepository.RecordTransition | src/market_evolver/government/repositories.py:102-143 | accepted exactly when status, arrow, evidence known by the date and rationale are in order, the checks in order, and exactly that transition appended |
| Government.SqlGovernmentRepository.AddAction | src/market_evolver/government/repositories.py:35-100 | the checks in order, the unknown mechanism with the error of the registry, and exactly the specified rows, the one left behind by a refused first transition included |

## Left out

- SqlKnowledgeGraph.TraceEvent: events and evidence are read from given tables, since adding events is not part of this model; identifiers of relationships, by which equally long paths are sorted, are an uninterpreted injective function.
- SqlKnowledgeGraph.GetRelationships: strings are sorted by code point; the collation of the database is not modelled.
- LatestResolution: resolutions with equal `resolved_at` come in insertion order, because the query leaves their order open.
- SqlFusionRepository.Flush: a refused row is dropped alone; that the database also rolls back whatever else the caller had not committed is not modelled, and neither is a call whose look-up is answered without a query and so without a flush.
- IngestionRunner.Run: the exception handler itself is assumed not to fail and a crash of the process between two commits is not modelled, because the source has no recovery step for either; the text of `error_summary` is reduced to its cause, which is specified up to the receipt commit; the registry lookup is left out.
- CalculateTrend: the square root is a parameter constrained to be exact or near, because it is computed in floating point; geography, category, mechanisms and observation identifiers are carried along unchanged in the source.
- AnomalyAmongFiveValues: needs the exact square root, because with five values the threshold is met with equality and the rounding of the platform decides; with four or fewer values no rounding matters (`AnomalyNeedsFiveValues`).
- TrendFollowsUnit: needs the exact square root, because rounding need not commute with a change of unit at the threshold.
- BacktestRun.Run: volatility, Sharpe and Sortino (square roots of the proved returns), hashes and the dataset manifest are not part of the result.
- FilledWindowsDecide: the converse on sizing asks that the open predecessors all lose or, without costs, all gain, because open results of both signs can cancel out, by amounts that depend on the cash; whether a window is skipped for quantity depends on the cash too, except without costs (`FreeRunsAreDecidedByWindows`).
- Execution.SelectExecutionPoint: sessions of all venues of the universe come in one calendar, as in the source; the venue is not a field.
- Decimal context precision and the round trips between decimals and strings: arithmetic is exact.
- Naive timestamps and the checks that reject them: every timestamp is an aware UTC instant.
- Hashing, canonical JSON and the collision checks that compare a stored row with a new one of the same identifier: identifiers are injective.
- Database triggers, migrations, row conversion and constraints other than the foreign key on claim revisions: tables are values that only the modelled operations change.
- `list_entities`, `list_for_source`, `recent`, `get_claim`, `get_actions_visible_at` and the candidate tables: filters over tables whose contents are covered.
- Corroborations, contradictions, scores, lead-time records, `current_corroboration_state`, `calculate_metrics`, `deterministic_match`, `classify_independence` and `fusion_score` of the fusion layer: they would only add easy members.
- Connectors, providers, archive fetching, command line, reports, live validation, strategy evolution and expert layers: input and output, or plumbing without laws of its own.
