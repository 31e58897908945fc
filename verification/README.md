# Verification model of the market-data pipeline

This project models the parts of `market_pipeline_lib` and `data_filtering` that hold the
pipeline's state and arithmetic, and proves what they promise for every input, every run and
every interleaving. Check all of it with `dafny verify dfyconfig.toml` (Dafny 4.11).

| file | models |
|---|---|
| `Ingest.dfy`, `IngestBatch.dfy`, `IngestRuns.dfy`, `IngestConvergence.dfy` | what the realtime ingestor decides about an event, a batch and a run |
| `IngestEviction.dfy`, `IngestOrder.dfy` | what retention changes about a batch, and what depends on the order of delivery |
| `Ingestor.dfy`, `FlushPlan.dfy`, `TextOrder.dfy` | the ingestor and its watermark ledger as objects, and what one flush hands to the engine |
| `RedisStream.dfy`, `RedisSafety.dfy`, `RedisDurability.dfy` | the consumer group and every interleaving of consumers that poll, ingest, retry, park, acknowledge, publish and crash |
| `RedisConsumer.dfy` | the stream adapter and the consumer loop as objects; one cycle is a stretch of a run of that system |
| `ObjectStore.dfy` | the S3 adapter: writers racing on one immutable key |
| `Catalog.dfy`, `Publishing.dfy`, `PublicationRuns.dfy`, `Engine.dfy`, `Compaction.dfy` | the transactional catalog, dataset publication, runs of publications and compaction |
| `Partitions.dfy` | partition windows over the Gregorian calendar |
| `SplitByTime.dfy` | cutting a bar table on timestamp boundaries until every part fits |
| `DerivedBars.dfy`, `Gaps.dfy`, `Incremental.dfy` | session-aligned aggregation, gap detection, incremental recomputation |
| `RateLimit.dfy` | the token bucket |
| `ParentFirst.dfy`, `Bootstrap.dfy`, `Coverage.dfy` | supersedes order, exact-subset bootstrap, coverage sweep |
| `Common.dfy` | Option, Result and a stable sort |

Hashes and identifiers that hash their parts (SHA-256, UUIDv5) are taken as injective and
appear as datatype constructors. Instants are integers, prices and clock readings are reals.
The exchange calendar, the tz database, quality thresholds, encoded sizes, store outcomes
and the engine's answer to a flush are parameters of the functions and methods that use them.
Exceptions are results; an exception in the middle of a unit of work is a parameter that says
where it strikes.

## Where the code does not keep a promise

Each of these is a lemma of the model, with the exact condition where there is one.

- `submit_batch` says the first refusal leaves the ingestor exactly as it was
  (market_pipeline_lib/realtime_ingest.py:619-630) and `_commit` that nothing there may raise
  (line 710). The watermark ledger does raise, on a shard it was not declared with
  (market_pipeline_lib/watermarks.py:374-379), and retention has already run by then
  (line 717). `IngestEviction.StoppedBatchIsOneCut` says what such a batch leaves behind, and
  `IngestEviction.UndeclaredShardTearsBatch` when that is the state before, given slots dated
  by their bars as every run keeps them: if and only if retention kept every remembered
  session and dropped every session of the bars stored before the refused one, whose rows
  were already buffered and whose positions moved no head. With the refused bar first, that
  leaves its retention alone (`IngestEviction.FirstBarRefused`); where every session fits the
  window, any bar stored before it is a trace (`IngestEviction.WithoutEvictionAnyBarIsATrace`).
  `IngestEviction.TornBatch` is a batch of two that is torn. With every mapped shard declared,
  `IngestBatch.RefusedBatchChangesNothing` holds.
- A batch that goes through equals one-by-one submission if and only if no event speaks of
  something retention forgot on the way: it repeats a forgotten id or does not outrank a
  forgotten slot (`IngestEviction.BatchEqualsOneByOneExactly`);
  `IngestBatch.EvictionBreaksRefinement` shows three events on which the two differ.
- Where no two events claim one bar at one revision and nothing is evicted, slots and
  buffered rows do not depend on delivery order. The remembered ids do not if and only if no bar is delivered in two revisions (`IngestOrder.SeenAgreesExactly`), the shard
  heads if and only if every delivered position is reached by a highest revision of its shard
  or by where the head began (`IngestOrder.HeadsAgreeExactly`); `IngestOrder.HeadsDependOnOrder`
  is a correction for which neither holds.
- Automatic numbering can give an id out twice. `publish_dataset` looks for the latest
  manifest by the year its observed period starts in (market_pipeline_lib/catalog.py:501-511),
  not by the year it publishes under, so a publication is found again if and only if the
  earliest bar handed in or carried forward starts in that year
  (`Publishing.NextPublicationSeesThisOne`). As long as this holds along a run, no id that was
  AVAILABLE is reused (`PublicationRuns.NoIdIsReused`); the first time it does not, the year's
  next publication gets a used id (`PublicationRuns.NextIdIsFreshExactlyInYear`), and if that
  one is quarantined it takes the finished one out of service. A realtime WEEK flush does
  this at the turn of a year (`PublicationRuns.WeekFlushRepeatsItsId`, `PublicationRuns.NewYearWeek`).
- A quarantined publication leaves a manifest in service if and only if it does not reuse its
  id: `Publishing.QuarantineKeepsInService`. A configured revision equal to the latest one
  makes an AVAILABLE publication overwrite itself with SUPERSEDED:
  `Publishing.AvailableSupersedesPrevious` (if and only if the previous manifest has the same id).
- Under an id the catalog has seen before, a manifest also owns what the earlier attempts
  left: `Publishing.ManifestOwnsItsObjects`, and over whole runs
  `PublicationRuns.RunOwnsWhatItStaged`.
- Compaction keeps exactly the bars there were if and only if every object touching the window
  is finer than the target and has all its bars inside the window:
  `Compaction.CompactionConservesBars`. `_overlaps` drops a coarser object whole
  (market_pipeline_lib/engine.py:721-731).
- A resampling run from scratch keeps every bar of its window if and only if no row of the
  window belongs to a bar that began before it: `Incremental.FreshIsFullExactlyOnBarBoundary`.

## What the promises rest on

- The token bucket's bound needs the clock contract its module states:
  `RateLimit.BackwardsClockOverGrants`.
- Only a receipt with `created` speaks for the object's future; one without it can outlive its
  object: `ObjectStore.ReusedReceiptCanDangle`.

## Model

| member | source | states |
|---|---|---|
| Ingest.Parse | market_pipeline_lib/realtime_ingest.py:427-505 | an accepted event was not received before it occurred, carries values, and names the event it corrects exactly when its revision is above 0; refusals are malformed or unsupported version only |
| Ingest.VersionIsJudgedBeforeContent | market_pipeline_lib/realtime_ingest.py:441-459 | the unsupported-version refusal comes exactly when all envelope fields are there and the version is not 1 |
| Ingest.IntegerField | market_pipeline_lib/realtime_ingest.py:373-394 | a count read from a decimal equals that decimal: nothing is rounded or truncated |
| Ingest.RowReadsItsFields | market_pipeline_lib/realtime_ingest.py:769-795 | a row is built exactly when every configured column can be read, and each column holds what was read |
| Ingest.NewestIsTop | market_pipeline_lib/realtime_ingest.py:757-767 | retention keeps at most the configured number of sessions, and every session kept is newer than every session dropped |
| IngestBatch.OverlayDecidesAlike | market_pipeline_lib/realtime_ingest.py:516-526 | an event judged against the overlay gets the verdict it would get after the earlier events were committed |
| IngestEviction.CommitRemains | market_pipeline_lib/realtime_ingest.py:699-736 | committing a prepared event keeps the overlay a faithful picture of the state without eviction, of which the real state is what remains |
| IngestBatch.BatchEqualsOneByOne | market_pipeline_lib/realtime_ingest.py:619-633 | when nothing is evicted, a batch succeeds exactly when one-by-one submission does, with the same state and decisions |
| IngestBatch.RefusedBatchChangesNothing | market_pipeline_lib/realtime_ingest.py:619-633 | with every mapped shard declared, a batch is refused exactly when one of its events is, and then nothing at all changed |
| IngestBatch.CommitAllSucceeds | market_pipeline_lib/realtime_ingest.py:633-736 | the commit phase succeeds exactly when every bar's shard is declared |
| IngestEviction.RetentionIsOneCut | market_pipeline_lib/realtime_ingest.py:757-767 | however often retention ran, it leaves exactly the newest sessions of everything ever held |
| IngestEviction.StoppedBatchIsOneCut | market_pipeline_lib/realtime_ingest.py:709-719 | a batch the ledger stops leaves its earlier bars and, of everything remembered, the newest sessions with the refused bar's counted |
| IngestEviction.UndeclaredShardTearsBatch | market_pipeline_lib/realtime_ingest.py:709-719 | such a batch leaves the ingestor unchanged if and only if retention kept all that was remembered and dropped all the stored bars' sessions, whose rows were buffered already and moved no head |
| IngestEviction.FirstBarRefused | market_pipeline_lib/realtime_ingest.py:709-719 | when the refused bar comes first, only its retention has happened |
| IngestEviction.WithoutEvictionAnyBarIsATrace | market_pipeline_lib/realtime_ingest.py:709-719 | where every session fits, the batch leaves no trace if and only if no bar came before the refused one |
| IngestEviction.TornBatch | market_pipeline_lib/realtime_ingest.py:709-719 | a declared shard's bar and an undeclared one's: the refused batch keeps the first |
| IngestEviction.BatchEqualsOneByOneExactly | market_pipeline_lib/realtime_ingest.py:619-633 | a batch that succeeds ends like one-by-one submission if and only if no event speaks of a forgotten id or slot; without such an event the two always end alike |
| IngestBatch.EvictionBreaksRefinement | market_pipeline_lib/realtime_ingest.py:757-767 | with a one-session window, three events on which batch and one-by-one submission decide differently |
| IngestRuns.CommitSound | market_pipeline_lib/realtime_ingest.py:709-736 | every commit keeps: rows filed under the group of their own key, every remembered id backed by a slot at its revision or higher, at most one session beyond retention |
| IngestRuns.RetainSound | market_pipeline_lib/realtime_ingest.py:757-767 | eviction keeps the same invariant: an id and its slot go together |
| IngestRuns.OneExtraSession | market_pipeline_lib/realtime_ingest.py:716-726 | after a commit at most retention sessions are remembered, or one more and then the commit is older than all the others |
| IngestRuns.OneGroupPerBar | market_pipeline_lib/realtime_ingest.py:718-722 | no bar is buffered in two groups, and its group's window contains its session |
| IngestRuns.DecisionMatchesState | market_pipeline_lib/realtime_ingest.py:595-617 | an accepted event is remembered, holds its slot and is the buffered row; any other decision changed nothing |
| IngestRuns.ReasonsAreExact | market_pipeline_lib/realtime_ingest.py:666-736 | each decision reason is given exactly in its own situation |
| IngestRuns.WatermarkNeverGates | market_pipeline_lib/realtime_ingest.py:608-615 | shard heads influence the reported freshness and nothing that is stored |
| IngestRuns.HeadsNeverRewind | market_pipeline_lib/watermarks.py:371-396 | no commit moves a shard head back, and an accepted event leaves the head at or beyond its own position |
| IngestConvergence.RunConverges | market_pipeline_lib/realtime_ingest.py:635-736 | every delivery sequence without rivals or eviction ends with, for each bar, the highest revision delivered in slot and buffer, and nothing else |
| IngestConvergence.HighestRevisionIsHeld | market_pipeline_lib/realtime_ingest.py:681-727 | a bar is held exactly when some revision of it was delivered, and slot and row are those of the highest |
| IngestConvergence.DeliveryOrderIsIrrelevant | market_pipeline_lib/realtime_ingest.py:595-617 | two sequences delivering the same bars, reordered and duplicated at will, end in the same slots and buffer |
| IngestOrder.AcceptedDecide | market_pipeline_lib/realtime_ingest.py:681-727 | remembered ids and shard heads are those of the bars taken in: each head is the furthest of where it began and their positions |
| IngestOrder.TopsAreAccepted | market_pipeline_lib/realtime_ingest.py:681-689 | in any order every bar's highest revision is taken in, and nothing but delivered bars |
| IngestOrder.AscendingAcceptsAll | market_pipeline_lib/realtime_ingest.py:681-689 | oldest revisions first, every bar is taken in |
| IngestOrder.DescendingAcceptsTops | market_pipeline_lib/realtime_ingest.py:681-689 | newest revisions first, only the highest revisions are |
| IngestOrder.SeenAgreesExactly | market_pipeline_lib/realtime_ingest.py:595-617 | every order of the same deliveries ends with the same remembered ids if and only if no bar has two revisions |
| IngestOrder.HeadsAgreeExactly | market_pipeline_lib/watermarks.py:371-396 | every order ends with the same heads if and only if every delivered position is reached by a highest revision of its shard or by where the head began |
| IngestOrder.HeadsDependOnOrder | market_pipeline_lib/realtime_ingest.py:684-686 | a correction with a smaller sequence number than its original: heads and ids depend on which comes first |
| Ingestors.WatermarkLedger.Observe | market_pipeline_lib/watermarks.py:371-396 | a declared shard's head moves exactly for a position beyond it; an undeclared shard raises and changes nothing |
| Ingestors.RealtimeIngestor.constructor | market_pipeline_lib/realtime_ingest.py:554-580 | a new ingestor holds nothing and satisfies the run invariant |
| Ingestors.NewIngestor | market_pipeline_lib/realtime_ingest.py:562-563 | what ingestor and ledger refuse to be built from, exactly |
| Ingestors.RealtimeIngestor.PrepareEvent | market_pipeline_lib/realtime_ingest.py:635-707 | preparing changes nothing and gives the specified verdict under any overlay |
| Ingestors.RealtimeIngestor.DropOld | market_pipeline_lib/realtime_ingest.py:757-767 | drops exactly the ids and slots of sessions outside the window |
| Ingestors.RealtimeIngestor.CommitPrepared | market_pipeline_lib/realtime_ingest.py:709-736 | the object's state and answer are those of the specified commit, exceptions included, and the run invariant is kept |
| Ingestors.RealtimeIngestor.Submit | market_pipeline_lib/realtime_ingest.py:595-617 | state and answer of one submission, with the run invariant kept over every run of calls |
| Ingestors.RealtimeIngestor.SubmitBatch | market_pipeline_lib/realtime_ingest.py:619-633 | the two loops compute the specified batch: prepare all against the overlay, then commit all |
| Ingestors.RealtimeIngestor.Flush | market_pipeline_lib/realtime_ingest.py:798-850 | the buffer's groups go out in order, one call per year; the buffer is cleared exactly when every year was published, and nothing else changes |
| FlushPlan.FlushEmitsEachBarOnce | market_pipeline_lib/realtime_ingest.py:817-826 | every buffered bar is handed to the engine at exactly one place, and nothing else is |
| FlushPlan.NothingToPublish | market_pipeline_lib/realtime_ingest.py:801-810 | a flush calls the engine exactly when something is buffered |
| FlushPlan.ListGroups | market_pipeline_lib/realtime_ingest.py:817-820 | groups by window and shard, rows by instrument and instant, each exactly once |
| FlushPlan.PlanYears | market_pipeline_lib/realtime_ingest.py:813-833 | one call per calendar year, years ascending, each with exactly that year's groups in order |
| Ingestors.PublishAll | market_pipeline_lib/realtime_ingest.py:829-850 | years are published in order until one raises; the result names each year's manifest in order, sums the incidents, lists all object keys sorted, and is AVAILABLE exactly when every year's manifest is |
| RedisStream.DecodedFieldByField | market_pipeline_lib/redis_ingest.py:261-297 | an entry decodes exactly when it has every field and each decodes, and then each field of the document is its own, decoded |
| RedisStream.ParkedCopyCarries | market_pipeline_lib/redis_ingest.py:569-600 | a parked copy has every original field unchanged plus exactly the five added ones, with the reason, entry, group and count they stand for |
| RedisStream.ReplayDecodesAlike | market_pipeline_lib/redis_ingest.py:569-575 | a parked entry decodes to the same event as the original, with or without the added fields |
| RedisStream.RetryIsDueExactlyAfterDelay | market_pipeline_lib/redis_ingest.py:533-567 | a retried entry is reclaimable exactly delay after the retry, and the retry is not counted as a delivery |
| RedisStream.OldestDueComesFirst | market_pipeline_lib/redis_ingest.py:427-467 | the oldest due pending entry heads every claim |
| RedisStream.ReadSkipsOnlyTrimmed | market_pipeline_lib/redis_ingest.py:442-453 | a read passes over an entry only when its producer has trimmed it |
| RedisSafety.EveryRunKeepsInv | market_pipeline_lib/realtime_ingest.py:1132-1214 | on every interleaving of reads, claims, retries, parkings, acknowledgements, crashes and trims the delivery invariants hold |
| RedisSafety.NoEntryIsLost | market_pipeline_lib/redis_ingest.py:427-610 | on every interleaving an entry is unread, trimmed before delivery, pending or acknowledged, never two of pending and acknowledged; an acknowledged one was decided on by the acknowledger's ingestor, or a copy of the fields the acknowledger was given, naming the entry, is in the dead-letter stream |
| RedisSafety.ParkedWhole | market_pipeline_lib/redis_ingest.py:569-600 | a parked copy carries the whole entry, unless the producer had trimmed it when its consumer was given it |
| RedisDurability.EveryRunKeepsChain | market_pipeline_lib/realtime_ingest.py:1132-1214 | on every interleaving each recorded decision was made by what retention and flushes left of the consumer's ingestor after its last decision since it started, and each buffer is exactly the rows of the decisions not yet published |
| RedisDurability.AcknowledgedBarIsKept | market_pipeline_lib/realtime_ingest.py:1132-1240 | an entry acknowledged on a decision was decided on by the consumer's own ingestor, and an accepted bar is buffered or published, as its own row or a later one's on the same bar, unless the consumer crashed since |
| RedisSafety.WithoutParkingOnlyIngestAcknowledges | market_pipeline_lib/redis_ingest.py:582-586 | without a dead-letter stream every acknowledged entry was decided on by an ingestor |
| RedisSafety.AccountingIsPermanent | market_pipeline_lib/redis_ingest.py:520-531 | delivered stays delivered, and an acknowledgement and its grounds never change |
| RedisSafety.RetriesAreNotCutShort | market_pipeline_lib/realtime_ingest.py:1178-1190 | parking for the receive count happens only after that many deliveries, whatever the claims in between |
| RedisSafety.EveryPendingEntryComesDue | market_pipeline_lib/redis_ingest.py:455-467 | whatever is pending is reclaimable after the idle threshold, whoever held it |
| RedisSafety.CrashedWorkIsPickedUp | market_pipeline_lib/redis_ingest.py:455-483 | any consumer starting a cycle takes over the oldest due entry first and counts the delivery |
| RedisSafety.ClassifiedIsSound | market_pipeline_lib/redis_ingest.py:485-518 | what an ingestor decided about a delivery is what it decides about the entry itself |
| RedisConsumer.RedisMarketEventSource.Reclaim | market_pipeline_lib/redis_ingest.py:455-483 | the snapshot and the claim are two steps of the system |
| RedisConsumer.RedisMarketEventSource.Poll | market_pipeline_lib/redis_ingest.py:427-453 | reclaim before read, as three steps of the system |
| RedisConsumer.RedisMarketEventSource.Acknowledge | market_pipeline_lib/redis_ingest.py:520-531 | one acknowledging step; an entry acknowledged elsewhere meanwhile is left alone |
| RedisConsumer.RedisMarketEventSource.RetryLater | market_pipeline_lib/redis_ingest.py:533-567 | one retry step; refused exactly when the delay exceeds the idle threshold, and then the cycle ends with nothing changed |
| RedisConsumer.RedisMarketEventSource.DeadLetter | market_pipeline_lib/redis_ingest.py:569-610 | copy, then acknowledge, as two steps; refused exactly when there is nowhere to park |
| RedisConsumer.RealtimeIngestConsumer.HandleOne | market_pipeline_lib/realtime_ingest.py:1141-1204 | one delivery ends settled: no longer pending, or waiting out the retry delay under this consumer; other entries are untouched |
| RedisConsumer.RealtimeIngestConsumer.RunOnce | market_pipeline_lib/realtime_ingest.py:1132-1214 | a cycle is a stretch of a run of the system; received = acknowledged + retried + parked, acknowledged and accepted are the decisions made, parked the copies written, every delivery settled, the flush counter reset exactly when the threshold is reached |
| RedisConsumer.RealtimeIngestConsumer.Shutdown | market_pipeline_lib/realtime_ingest.py:1227-1244 | a stop hands every acknowledged but unwritten bar to the engine, or keeps all of them buffered when the engine raises |
| ObjectStore.ReceiptFromHead | market_pipeline_lib/storage.py:361-414 | a receipt is only for matching hash, size and encryption; a conflict with other bytes is refused as such |
| ObjectStore.Put | market_pipeline_lib/storage.py:416-490 | the loop's result is the writer automaton's after that many answers, with at most attempts + 2 calls |
| ObjectStore.Delete | market_pipeline_lib/storage.py:518-530 | only a created receipt with an exact version id removes anything, and then that version |
| ObjectStore.EveryRunKeepsInv | market_pipeline_lib/storage.py:416-530 | with any number of writers, retries, lost responses, late landings and deletes the store's invariants hold |
| ObjectStore.ReceiptMatchesStoredBytes | market_pipeline_lib/storage.py:361-414 | every receipt names a stored version whose bytes have the receipt's hash and size and are the writer's own |
| ObjectStore.OneCreatedReceiptPerVersion | market_pipeline_lib/storage.py:76-80 | at most one receipt per version says created |
| ObjectStore.OtherBytesAreRefused | market_pipeline_lib/storage.py:423-437 | a writer that finds other bytes at the key is refused, first look and lost race alike |
| ObjectStore.LiveVersionIsImmutable | market_pipeline_lib/storage.py:454-466 | no step changes a version's bytes or replaces the live one, and only its creator's own delete takes it away |
| ObjectStore.UnversionedKeyIsWriteOnce | market_pipeline_lib/storage.py:518-524 | without versioning the first object stays for good |
| ObjectStore.ReusedReceiptCanDangle | market_pipeline_lib/storage.py:76-80 | a run in which a reconciled receipt outlives its object |
| Catalog.LocalCatalog.Begin | market_pipeline_lib/catalog.py:299-312 | a unit of work starts only outside another one and remembers the tables |
| Catalog.LocalCatalog.Abort | market_pipeline_lib/catalog.py:316-323 | a failed unit of work leaves exactly the tables it began with |
| Catalog.LocalCatalog.Commit | market_pipeline_lib/catalog.py:313-341 | commits exactly when every touched key has a single AVAILABLE manifest, else restores; every committed state has at most one per key |
| Catalog.LocalCatalog.SingleForTouched | market_pipeline_lib/catalog.py:328-341 | the counting check decides single availability of the touched keys |
| Catalog.TouchedCheckSuffices | market_pipeline_lib/catalog.py:328-341 | checking the touched keys is enough for all keys |
| Catalog.LocalCatalog.PublishManifest | market_pipeline_lib/catalog.py:467-471 | upserts the row and touches its key inside a unit of work; outside one nothing is touched, and the state stays good exactly when the row leaves one AVAILABLE manifest per key |
| Catalog.LocalCatalog.StageObject | market_pipeline_lib/catalog.py:459-465 | upserts both rows and gains no AVAILABLE manifest |
| Catalog.LocalCatalog.LatestAvailable | market_pipeline_lib/catalog.py:492-511 | a matching AVAILABLE manifest with the highest revision, or none exactly when nothing matches |
| Catalog.LocalCatalog.ObjectsForManifest | market_pipeline_lib/catalog.py:513-526 | every relation row of the manifest exactly once, with its storage row |
| Publishing.ManifestOwnsItsObjects | market_pipeline_lib/engine.py:677-683 | a manifest owns what was left under its id, plus the carried and new objects; under an id the catalog has not seen, exactly the carried and new ones |
| Publishing.ObjectsAreOwn | market_pipeline_lib/engine.py:712-739 | every object of a publication, carried or new, is staged under the new manifest's own relation id |
| Publishing.OtherManifestsKeepTheirObjects | market_pipeline_lib/engine.py:653-671 | a publication leaves every other manifest's rows and bytes alone |
| Publishing.QuarantineKeepsInService | market_pipeline_lib/engine.py:743-817 | a quarantined publication leaves an AVAILABLE manifest, found by it or not, in service if and only if it does not reuse its id |
| Publishing.AvailableSupersedesPrevious | market_pipeline_lib/engine.py:808-817 | an AVAILABLE publication stands and supersedes the previous one, if and only if it did not reuse its id |
| Publishing.AutomaticRevisionsIncrease | market_pipeline_lib/engine.py:386-402 | automatic numbering never reuses the id of the manifest it builds on, and revisions increase along the supersede chain |
| Publishing.PeriodBeginsWithEarliest | market_pipeline_lib/engine.py:748-755 | an AVAILABLE manifest's period begins with the earliest bar handed in or carried forward |
| Publishing.NextPublicationSeesThisOne | market_pipeline_lib/engine.py:391-396 | the next publication of the year builds on this one if and only if that earliest bar starts in the year |
| PublicationRuns.RunIsNumbered | market_pipeline_lib/engine.py:386-402 | along a run whose AVAILABLE publications begin in their own years, the revisions that were ever AVAILABLE are 1 up to the one in service, which is the only one of its dataset and year |
| PublicationRuns.RunStaysCommitted | market_pipeline_lib/catalog.py:328-341 | such a run never has two AVAILABLE manifests under one key, and its chain counts up |
| PublicationRuns.NoIdIsReused | market_pipeline_lib/engine.py:677-683 | no later publication of such a run, whatever its outcome, gets an id that was AVAILABLE |
| PublicationRuns.RunOwnsWhatItStaged | market_pipeline_lib/engine.py:761-775 | in any run a manifest owns exactly what the attempts under its id staged |
| PublicationRuns.AvailableKeepsItsObjects | market_pipeline_lib/engine.py:677-817 | an AVAILABLE manifest keeps its rows and bytes to the end of the run; they are exactly its carried and new objects when no quarantined attempt used its revision |
| PublicationRuns.NextIdIsFreshExactlyInYear | market_pipeline_lib/engine.py:391-402 | the year's next publication gets an id that was never AVAILABLE if and only if this one begins in its own year |
| PublicationRuns.WeekFlushRepeatsItsId | market_pipeline_lib/realtime_ingest.py:813-833 | a week flushed under its Monday's year with only next year's bars: the next flush repeats its id, and quarantined takes it out of service |
| PublicationRuns.NewYearWeek | market_pipeline_lib/contracts.py:269-292 | 2 January 2026 lies in the week of 29 December 2025 |
| Engine.MarketPipelineEngine.WriteParts | market_pipeline_lib/engine.py:493-600 | parts of one group are stored under fresh part numbers; without a failure every bar of every part is stored |
| Engine.MarketPipelineEngine.WriteNewObjects | market_pipeline_lib/engine.py:438-600 | new objects come from the groups under pairwise distinct keys, and without an error every bar of every group is in one |
| Engine.MarketPipelineEngine.CarryForward | market_pipeline_lib/engine.py:712-739 | exactly the previous objects outside the replaced windows are carried, re-owned |
| Engine.MarketPipelineEngine.PublishDataset | market_pipeline_lib/engine.py:653-845 | success is one publication applied to the tables, whose period is exactly that of its objects; any failure, wherever it strikes, leaves the tables as they were; the result is a committed state |
| Engine.MarketPipelineEngine.Transact | market_pipeline_lib/engine.py:761-824 | all writes of the publication or none of them, for an exception after any number of writes |
| Compaction.CompactedBars | market_pipeline_lib/engine.py:2310-2467 | an AVAILABLE compaction's manifest has exactly the bars of untouched objects and of finer objects inside the window |
| Compaction.CompactionConservesBars | market_pipeline_lib/engine.py:2274-2488 | it has exactly the bars there were if and only if every object touching the window is finer and keeps its bars inside it |
| Compaction.PipelineObjectsFit | market_pipeline_lib/engine.py:2274-2292 | for the pipeline's own partitions nesting gives that condition |
| Compaction.FittingKeepsBars | market_pipeline_lib/engine.py:2274-2488 | objects that are finer and inside the window keep all their bars, duplicates or not |
| Compaction.PipelineCompactionConservesBars | market_pipeline_lib/engine.py:2274-2488 | hence a finished AVAILABLE compaction of the pipeline's own objects conserves the bars |
| Compaction.LatestIsUnique | market_pipeline_lib/catalog.py:328-341 | in a committed state there is one latest manifest, so compaction and publication mean the same one |
| Compaction.CutIntoSlices | market_pipeline_lib/engine.py:2408-2417 | consecutive slices that make up the window |
| Compaction.SliceOfBar | market_pipeline_lib/engine.py:2418-2432 | a bar is in the window exactly when it is in one of its slices |
| Compaction.GroupShard | market_pipeline_lib/engine.py:2408-2465 | without duplicates every input bar of the shard in every slice is in a group, and nothing from outside the window is |
| Compaction.GroupInputs | market_pipeline_lib/engine.py:2397-2466 | the groups hold exactly the inputs' bars inside the window |
| Compaction.Members | market_pipeline_lib/engine.py:2301-2334 | finds the existing target and exactly the finer objects that touch the window |
| Compaction.Compact | market_pipeline_lib/engine.py:2274-2488 | which requests are refused, skipped, reused, incomplete or dry, and that only a finished one changes the catalog, by one publication of its inputs' bars |
| Partitions.PartitionBounds | market_pipeline_lib/contracts.py:269-292 | a date lies in its own window at every granularity |
| Partitions.YearBegins | market_pipeline_lib/contracts.py:269-292 | years begin where the Gregorian leap rule puts them |
| Partitions.WindowOfMember | market_pipeline_lib/contracts.py:269-292 | every date of a window has that window |
| Partitions.SameGranularityLaminar | market_pipeline_lib/contracts.py:269-292 | two windows of one granularity are equal or disjoint |
| Partitions.FinerWindowNests | market_pipeline_lib/engine.py:2284-2292 | a day, a month or a week inside one month lies inside every coarser window it touches |
| Partitions.WeekNestsExactlyInOneMonth | market_pipeline_lib/engine.py:2284-2292 | a week nests in months if and only if it does not cross a month end, the guard compaction uses |
| SplitByTime.SplitTableByTime | market_pipeline_lib/processing.py:428-461 | parts hold exactly the rows, strictly ordered in time with no shared timestamp; one exceeds the maximum only when it holds a single timestamp |
| SplitByTime.CutPositions | market_pipeline_lib/processing.py:440-456 | greedy cuts: each piece fits or is one timestamp, and was closed only because the next timestamp did not fit |
| SplitByTime.CandidateTables | market_pipeline_lib/engine.py:404-436 | the worklist ends; parts are a strict time partition of the rows that fit the size or are single rows, and it raises only for rows of one timestamp that cannot be divided |
| SplitByTime.RefinePart | market_pipeline_lib/engine.py:422-433 | replacing a part by its halves keeps the partition |
| SplitByTime.SplitShrinksQueue | market_pipeline_lib/engine.py:422-433 | the work left shrinks with every split |
| SplitByTime.HalvesAreOneExactlyForOneTimestamp | market_pipeline_lib/engine.py:425-432 | a split in halves gives one part exactly when there is one timestamp |
| DerivedBars.DeriveRegularBars | market_pipeline_lib/processing.py:226-307 | the derived bars are those of every instrument and session with a schedule, in time order |
| DerivedBars.DeriveSession | market_pipeline_lib/processing.py:248-301 | one session's loop gives its specified bars |
| DerivedBars.DerivedTablesFold | market_pipeline_lib/processing.py:248-299 | every bar of a derived table is the fold of its instrument's and session's bars in the hourly table of the same source, over its bin's hours |
| DerivedBars.LongBarIsFoldOfHourlyBars | market_pipeline_lib/processing.py:259-299 | every long bin's columns are the fold of the hourly bars of its own hours |
| DerivedBars.MergeSplits | market_pipeline_lib/processing.py:276-299 | aggregation of a concatenation is the merge of the aggregates |
| DerivedBars.BarReadsItsBin | market_pipeline_lib/processing.py:259-299 | a bar starts and opens with its bin's earliest row, closes with the latest, reaches exactly as high and low as the rows, and counts thirty minutes each |
| DerivedBars.AggregateStaysOrdered | market_pipeline_lib/processing.py:276-299 | low <= open, close <= high survives aggregation |
| DerivedBars.VwapStaysInBar | market_pipeline_lib/processing.py:280-290 | the volume-weighted price, when present, lies between the bar's low and high if each source one does |
| DerivedBars.HalfHourPigeonhole | market_pipeline_lib/processing.py:295-299 | distinct half-hour starts in a range number at most its half hours |
| DerivedBars.DerivedBarsPassChecks | market_pipeline_lib/quality.py:1336-1349 | derived bars never trigger the session or source-minute findings when source starts are distinct on the half-hour grid |
| Gaps.BarStartsAreTheGrid | market_pipeline_lib/quality.py:817-846 | a session's expected starts are exactly the grid points from its open, the close excluded |
| Gaps.GapBoundaries | market_pipeline_lib/quality.py:865-881 | runs cut the missing bars at exactly the breaks |
| Gaps.RunsMatchCount | market_pipeline_lib/quality.py:926-939 | the vectorised count equals the number of runs the loop builds |
| Gaps.EachExpectedBarOnce | market_pipeline_lib/quality.py:884-923 | every expected bar is observed or in exactly one run |
| Gaps.RunsAreMaximal | market_pipeline_lib/quality.py:865-881 | no run can be extended inside its session |
| Gaps.RunIsConsecutive | market_pipeline_lib/quality.py:865-881 | a run's bars are consecutive bars of one session |
| Gaps.ReportIsFaithful | market_pipeline_lib/quality.py:884-923 | a reported interval is as long as its bar count, inside one session, cannot be extended, and names the observed bars on either side exactly when they exist |
| Gaps.MissingBarIntervals | market_pipeline_lib/quality.py:884-923 | one interval per run, with its ends, count, date and observed neighbours |
| Gaps.DetectMissingBars | market_pipeline_lib/quality.py:1268-1316 | every expected bar is observed or in exactly one reported gap, counts add up, the number of gaps is the vectorised count, each gap is consecutive, maximal and in one session |
| Incremental.ResampleSipBars | data_filtering/resample_sip_5min.py:131-188 | raises exactly for a row on a date without a session; otherwise resampling group by group is resampling the whole frame |
| Incremental.ResampleByGroup | data_filtering/resample_sip_5min.py:150-180 | adding one symbol's session adds exactly its bars |
| Incremental.SameRowsSameBar | data_filtering/resample_sip_5min.py:54-128 | a bar depends on the rows of its own label only |
| Incremental.BarReadsItsRows | data_filtering/resample_sip_5min.py:76-128 | a resampled bar opens with its earliest row, closes with the latest, reaches exactly as high and low, and counts one minute each |
| Incremental.LabelSidesWithRow | data_filtering/resample_sip_5min.py:54-75 | a row and its bar lie on the same side of every session open |
| Incremental.RecomputeStart | data_filtering/resample_sip_5min.py:253-261 | the open of the last output row's session, or of the requested instant's when earlier; fails exactly for a date without a session |
| Incremental.ProcessResampleFileIncrementally | data_filtering/resample_sip_5min.py:222-278 | the file gets the old bars before the cut and the recomputed rest, and is untouched on failure |
| Incremental.ProcessFileIncrementally | data_filtering/filter_regular_session.py:196-256 | the same for session filtering |
| Incremental.IncrementalResampleEqualsFresh | data_filtering/resample_sip_5min.py:222-278 | an incremental run writes what a run from scratch would, when the earlier source agrees up to the recomputed session |
| Incremental.IncrementalFilterEqualsFresh | data_filtering/filter_regular_session.py:196-256 | the same for session filtering, for any cut |
| Incremental.FreshIsFullExactlyOnBarBoundary | data_filtering/resample_sip_5min.py:266-276 | a run from scratch keeps every bar if and only if the window does not cut through one |
| RateLimit.WindowBound | market_pipeline_lib/rate_limit.py:138-160 | between the grants of any two admissions at most capacity plus rate times the elapsed time is granted |
| RateLimit.GrantsFollowLockOrder | market_pipeline_lib/rate_limit.py:138-153 | grants come in lock order, strictly once a caller had to queue |
| RateLimit.WaitIsLeast | market_pipeline_lib/rate_limit.py:145-153 | a sleep keeps the reserved balance non-negative exactly when it is at least the wait |
| RateLimit.BalanceAccounting | market_pipeline_lib/rate_limit.py:138-160 | from a reservation on, balance plus grants are at most what it left plus the refill |
| RateLimit.BalanceStaysBelowCapacity | market_pipeline_lib/rate_limit.py:155-160 | no run of calls lifts the balance above capacity |
| RateLimit.BackwardsClockOverGrants | market_pipeline_lib/rate_limit.py:31-38 | four calls with a clock that steps back break the bound |
| RateLimit.ManualClock.Sleep | market_pipeline_lib/rate_limit.py:79-85 | a negative sleep is refused and not recorded; otherwise it is recorded and time moves only in advancing mode |
| RateLimit.ManualClock.Advance | market_pipeline_lib/rate_limit.py:87-92 | time never goes back |
| RateLimit.TokenBucketRateLimiter.constructor | market_pipeline_lib/rate_limit.py:104-122 | a new limiter is full |
| RateLimit.NewLimiter | market_pipeline_lib/rate_limit.py:104-122 | which rates and bursts are accepted, exactly, and the defaults |
| RateLimit.TokenBucketRateLimiter.RefillLocked | market_pipeline_lib/rate_limit.py:155-160 | earned tokens are added up to capacity and the stamp is now |
| RateLimit.TokenBucketRateLimiter.AvailableTokens | market_pipeline_lib/rate_limit.py:132-136 | a query is a refill in the run and grants nothing |
| RateLimit.TokenBucketRateLimiter.Acquire | market_pipeline_lib/rate_limit.py:138-153 | refused requests change nothing; an admitted one joins the run and sleeps exactly its wait, to its grant time |
| ParentFirst.ParentFirstOrder | market_pipeline_lib/legacy_bootstrap.py:1063-1089 | a permutation in which every row follows its in-set parent; it raises if and only if the parent relation has a cycle |
| ParentFirst.MoveReady | market_pipeline_lib/legacy_bootstrap.py:1085-1088 | a round appends the ready rows in the order given, each after its in-set parent, and what stays is exactly the rest |
| ParentFirst.StuckRowsHaveCycle | market_pipeline_lib/legacy_bootstrap.py:1079-1083 | rows that are all waiting contain a cycle |
| ParentFirst.OrderExcludesCycles | market_pipeline_lib/legacy_bootstrap.py:1063-1089 | where a parent-first order exists there is no cycle |
| Bootstrap.MissingRows | market_pipeline_lib/legacy_bootstrap.py:1037-1060 | raises exactly when some target row diverges, else gives exactly what the target lacks |
| Bootstrap.InsertionRows | market_pipeline_lib/legacy_bootstrap.py:1092-1097 | parent-first in self-referencing tables, raising exactly for a cycle |
| Bootstrap.Catalog.AppendUnique | market_pipeline_lib/catalog.py:414-426 | appends a row whose id is new and leaves the table alone otherwise |
| Bootstrap.MaterializeLegacyCatalog | market_pipeline_lib/legacy_bootstrap.py:1100-1169 | succeeds exactly for admissible counts, no divergence and no cycle; success completes every table and reports exactly the rows inserted, a rerun writes nothing, failure leaves the target unchanged |
| Bootstrap.ReplayCompletes | market_pipeline_lib/legacy_bootstrap.py:1100-1169 | a replayed table lacks nothing and holds nothing foreign |
| Bootstrap.GrowsByMissing | market_pipeline_lib/legacy_bootstrap.py:1100-1169 | the target grows by exactly the number of rows it lacked |
| Bootstrap.PrefixesResolve | market_pipeline_lib/legacy_bootstrap.py:1063-1089 | after any prefix of the insertions every supersedes pointer names a row of the target |
| Coverage.AssertCompleteCoverage | market_pipeline_lib/runtime_export.py:146-165 | returns exactly when every selected date lies in some interval, else names the first uncovered date |
| Coverage.LatestPerPeriod | market_pipeline_lib/runtime_export.py:123-132 | one row per period, the first with its highest revision |
| Coverage.SamePeriodsSameCoverage | market_pipeline_lib/runtime_export.py:123-141 | keeping one row per period loses no covered date |
| Coverage.SelectManifests | market_pipeline_lib/runtime_export.py:95-143 | a resolution is provable exactly when matching AVAILABLE manifests cover every selected date; the selection is theirs, newest per period when asked |

## Left out

- Provider calls, HTTP, boto3, Parquet encoding, pandas and pyarrow internals: tables are sequences or maps of rows.
- `cli.py`, `daily_pipeline.py`, reporting, prompts, logging and argument parsing.
- `PostgresCatalog`: SQL, advisory locks and schema fingerprints; only the local catalog's unit of work is modelled.
- `LocalObjectStore`: check-then-replace for one process.
- The SQS adapter; its delivery policy is the consumer loop's, which is modelled over the Redis adapter.
- Foreign writers on an object key that do not use this adapter, and metadata they may forge.
- `XAUTOCLAIM`-style removal of trimmed entries from the pending list by newer servers: a claim of a trimmed entry returns no fields, as the adapter's own comments describe.
- Durability of acknowledged but unflushed bars after a crash, and what two flushes of one partition keep: outside the guarantee (market_pipeline_lib/realtime_ingest.py:1227-1240).
- `drain` and `run_until_stopped`: repetition of the modelled cycle.
- Checkpoint persistence of the watermark and the row written to its repository.
- Rounding: `quantize` is a parameter and prices are reals; the weighted price is exact.
- ISO text of timestamps, whitespace rules of text fields and JSON syntax: parameters of the decoder.
- Null columns of source rows in resampling, and the storage format of the output files.
- Quality thresholds, outlier and volume detectors, incident scopes: an error finding is a yes or no per group.
- Lineage rows, pipeline-run rows, incidents and their foreign keys; reuse of a succeeded run is a parameter of compaction.
- Legacy translation, corporate actions, compatibility fixtures, result caches and resume checks: small maps or field-by-field checks.
- Cross-table references in the bootstrap: only supersedes references inside a table are followed.
- Catalog.LocalCatalog.ObjectsForManifest: the order by id is not modelled, since ids are hashes; no result of publication or compaction depends on it.
- Catalog.LocalCatalog.LatestAvailable: among equal revisions any match may be returned, in a committed state there is only one; the instrument filter, which publication and compaction never pass, is left out.
- ObjectStore.EveryRunKeepsInv: retries inside one HEAD are not separate steps; a HEAD is answered once or fails.
- RedisConsumer.RealtimeIngestConsumer.RunOnce: no other consumer acts during the method, and the ingestor raises nothing it does not account for; both are steps of the system the cycle is a stretch of.
- RedisConsumer.RealtimeIngestConsumer.HandleOne: an exception the ingestor does not account for is a step of the system, not of the method.
- Ingestors.RealtimeIngestor.Flush: the watermark position a flush returns is left out with the checkpoint.
- Incremental.ResampleSipBars: the value for rows outside their sessions is left open; its input is the frame already filtered to the sessions.
- Engine.MarketPipelineEngine.PublishDataset: lineage, incident and run output rows are left out; no result reads them.
