# Verification of the rising-collection daemon

This project models the part of the dbx-rs daemon that moves rows from a database into an event
sink without losing any, and proves that it does. Everything is stated in Dafny and checked with

    dafny verify dfyconfig.toml

## What is modelled

A *rising* input reads a table in the order of a timestamp-plus-id cursor. One scan runs through
durable steps: open an attempt, collect a page, seal it in the spool, adopt it into the state,
deliver it, record a receipt, compact the segment, prune the reference, complete the scan, commit
the cursor. The process may stop between any two of them.

* `Cursors`, `Source`: the cursor order, the bound of a query, the collector's page, a chain of pages.
* `Checkpoint`, `CheckpointCell`, `CheckpointRuns`: the checkpoint state machine as functions, the
  object that is updated in place, and theorems about arbitrary call sequences.
* `CheckpointLaws`: what each call accepts, writes and answers to a repeat, a stale fence or a conflict.
* `Identity`, `Spool`, `DurableState`, `Rising`: the persisted state, its validity, the transitions a
  compare-exchange accepts, and the coordinator's pure decisions.
* `Protocol`: one input as a state machine with 19 actions. A world holds the state, the spool, the
  source and the acknowledgments; a crash forgets the rest.
* `Invariant`, `InvariantSteps`, `Safety`, `Acceptance`: the invariant over every run and what follows.
* `StoreLaws`: what the store's check guarantees by itself, whoever writes.
* `RisingLaws`: what ties segments, attempts and configurations to one another.
* `Inventory`, `Recovery`, `Reconcile`: the coordinator as a class. Each durable effect can be lost or
  can happen without the caller learning of it. Every method extends a ghost run of `Protocol`.
* `Bounds`: where the committed cursor comes from, and why every page has a lower bound.
* `Completion`: the coordinator driven from any crash through a whole scan, page by page, to its commit.
* `Batching`, `BatchingLaws`: grouping events into request bodies.
* `EventDedup`, `Preimages`, `Domains`: event ids and what a de-duplicating sink ends up with.
* `BigEndian`, `CursorCodec`, `MetadataCodec`, `Fingerprints`, `FingerprintEncoder`, `Hex`, `Uuid`: codecs.
* `Lexer`, `Scanner`: the PostgreSQL pagination-keyword check and identifier quoting.
* `LexerLaws`: the same check from the writer's side: what is written as one item is read as one.
* `Schedule`, `Generations`, `Reload`, `ReloadLaws`: the scheduler, configuration generations and the reload gate.

The main invariant says that the de-duplicated sink log is an initial part of the source, at least up
to the committed cursor and at most up to it or to the last row sealed, whichever is later; and that
the references of a scan cover consecutive stretches of the source ending where the next page begins.

SHA-256 is an injective function: a hash is represented by its preimage. The injectivity of the
preimages themselves is proved. Fault schedules (`nat -> Fault`, `nat -> bool`) stand for crashes, lost
acknowledgments, write failures and cancellation. A reachable world is one that some run of `Protocol`
ends in; the coordinator's methods start in such a world, as the daemon does.

Where the code promises less than one might expect, the project says when exactly it falls short:

* A due input is not always served. Stopping the workers for a reload frees the running inputs and
  leaves their due times (runtime.rs:1313-1321, 1475-1477), so the next wave starts the same ones again.
  A reload that is refused (runtime.rs:1008-1011) is tried again at the next check (runtime.rs:148-172),
  so this can go on, and it starves a due input if and only if a full capacity of inputs has earlier
  keys (`Schedule.StarvesExactlyWhen`). Apart from that, overtaking is bounded: ceil(n / capacity) waves,
  and one more for each release (`Schedule.StartsWithinBound`, `Schedule.StartsWithoutReleases`).
* A scan that is open when its identity or revision changes stays blocked, with what the spool holds,
  until the old configuration is back (`Recovery.ForeignScanIsReached`).

Three preconditions are exact:

* The next page has a bound if and only if the overlap does not reach below the smallest timestamp
  (`Bounds.BoundExistsExactlyWhen`). The configuration caps the overlap at a year and the connectors read
  calendar timestamps, so it always has one (`Bounds.ConfiguredBoundExists`).
* Batching gives events back if and only if no body is opened by an empty event
  (`BatchingLaws.EventsComeBackExactlyWhen`; an empty event in front is always lost,
  `BatchingLaws.LeadingEmptyEventIsLost`). The envelope encoder makes none.
* An activation lowers the high-water mark of a configuration generation if and only if it returns to a
  revision that the mark has left behind (`Generations.ActivationLowersExactly`), as after a failed
  activation that is kept (`Generations.KeptFailureLowersMark`). The daemon activates a copy and drops it on
  failure, so its marks never go down (`Generations.MarksNeverGoDown`).

## Model

| member | source | states |
|---|---|---|
| Cursors.CursorOrderIsStrictTotal | crates/dbx-rs-connector-sdk/src/cursor.rs:24-32 | cursor positions are a strict total order that decides equality |
| Cursors.FirstQueryAdmitsWanted | crates/dbx-rs-connector-sdk/src/cursor.rs:175-196 | the first query admits exactly: everything if nothing is committed; without an overlap what is after the committed cursor; with one, every row no older than the committed timestamp less the overlap |
| Cursors.FirstQueryFailsExactlyWhen | crates/dbx-rs-connector-sdk/src/cursor.rs:186-194 | it cannot be asked only where the overlap, or the timestamp it reaches, leaves the 64 bits, and then says which |
| Cursors.SpecIsValidExactlyWhen | crates/dbx-rs-connector-sdk/src/cursor.rs:96-110 | a definition is valid exactly if both names are not blank and differ and the overlap is whole microseconds in range |
| Cursors.LaterQueryGoesOn | crates/dbx-rs-connector-sdk/src/cursor.rs:158-173 | a later query of a scan admits exactly what is after its resume position, and is asked exactly if the first query reaches that position |
| Source.PagedScanRefinesOneQuery | crates/dbx-rs-daemon/src/rising.rs:379-386 | resuming page by page, until a page is empty or not truncated, yields exactly the rows one unlimited query with the first bound returns, in order and once; pages are non-empty and full but the last; only the first request can be rejected |
| Source.PagedScanReadsWanted | crates/dbx-rs-connector-sdk/src/cursor.rs:158-196 | a row is in the paged scan if and only if nothing is committed, or it is after the committed cursor, or the overlap reaches back to it |
| Source.SendExtendsPrefix | crates/dbx-rs-daemon/src/rising.rs:553-564 | sending a stretch of the source to a sink that holds everything before it keeps the de-duplicated log an initial part of the source |
| CheckpointCell.SnapshotCell.constructor | crates/dbx-rs-checkpoint/src/lib.rs:158-170 | the initial snapshot |
| CheckpointCell.SnapshotCell.StartAttempt | crates/dbx-rs-checkpoint/src/lib.rs:215-232 | the answer and the whole new snapshot of opening an attempt |
| CheckpointCell.SnapshotCell.CollectionCompleted | crates/dbx-rs-checkpoint/src/lib.rs:240-269 | the answer and the whole new snapshot of recording a completed collection |
| CheckpointCell.SnapshotCell.CollectionFailed | crates/dbx-rs-checkpoint/src/lib.rs:276-295 | the same for a failed collection |
| CheckpointCell.SnapshotCell.DeliveryConfirmed | crates/dbx-rs-checkpoint/src/lib.rs:302-326 | the same for a confirmed delivery |
| CheckpointCell.SnapshotCell.DeliveryFailed | crates/dbx-rs-checkpoint/src/lib.rs:333-338 | the same for a failed delivery |
| CheckpointCell.SnapshotCell.DeliveryUncertain | crates/dbx-rs-checkpoint/src/lib.rs:345-350 | the same for an uncertain delivery |
| CheckpointCell.SnapshotCell.Commit | crates/dbx-rs-checkpoint/src/lib.rs:358-415 | the same for a commit: every error, the idempotent repeat and the commit itself |
| CheckpointCell.SnapshotCell.Recover | crates/dbx-rs-checkpoint/src/lib.rs:427-463 | the same for recovery |
| CheckpointRuns.ApplySafety | crates/dbx-rs-checkpoint/src/lib.rs:179-463 | every call with any arguments keeps the snapshot valid; an error changes nothing; the generation rises by one exactly on a commit; the committed cursor never regresses |
| CheckpointRuns.RunSafety | crates/dbx-rs-checkpoint/src/lib.rs:215-463 | the same over any sequence of calls: the generation counts the commits |
| CheckpointRuns.CursorMovesOnlyWithEvidence | crates/dbx-rs-checkpoint/src/lib.rs:358-463 | a call that moves the committed cursor moves it to the candidate of one attempt, and the run before it holds the calls that opened that attempt, completed its collection with that candidate and confirmed the same rows under the same fence |
| CheckpointRuns.ActiveIsTraced | crates/dbx-rs-checkpoint/src/lib.rs:215-326 | whatever an active attempt records goes back to accepted calls of the run, under its fence |
| CheckpointRuns.DispositionAgreesWithCommit | crates/dbx-rs-checkpoint/src/lib.rs:652-680 | recovery chooses to commit exactly when a commit would succeed or fail only by generation overflow; a commit of an active attempt never answers that it was committed already |
| CheckpointRuns.RecoverySettlesTheAttempt | crates/dbx-rs-checkpoint/src/lib.rs:427-463 | recovery either has the effect of a commit or drops the attempt and changes nothing else |
| CheckpointLaws.ValidExactlyWhen | crates/dbx-rs-checkpoint/src/lib.rs:179-213 | a snapshot is valid exactly if its attempt is fenced to its own configuration and generation, a recorded candidate fits, and the last commit led to this generation |
| CheckpointLaws.InvalidIsRefused | crates/dbx-rs-checkpoint/src/lib.rs:215-463 | no call does anything on an invalid snapshot, and each says what is wrong with it |
| CheckpointLaws.StartsExactlyWhen | crates/dbx-rs-checkpoint/src/lib.rs:215-232 | an attempt starts exactly if its fence is current and none is active; the same one again is left as it is, another is refused |
| CheckpointLaws.StaleFenceIsRefused | crates/dbx-rs-checkpoint/src/lib.rs:240-415 | a call of an attempt that is not the active one changes nothing and says which part of the fence is wrong, unless it repeats the last commit |
| CheckpointLaws.CollectionIsRecordedOnce | crates/dbx-rs-checkpoint/src/lib.rs:240-295 | a fitting result of the active attempt is recorded once; the same again changes nothing, another is a conflict |
| CheckpointLaws.MisfitIsRefused | crates/dbx-rs-checkpoint/src/lib.rs:240-269 | a candidate without rows, rows without a candidate and a candidate behind the committed cursor are refused, each with its error |
| CheckpointLaws.DeliveryIsRecordedOnce | crates/dbx-rs-checkpoint/src/lib.rs:302-350 | a delivery result of the active attempt is recorded once; the same again changes nothing, another is a conflict |
| CheckpointLaws.CommitsExactlyWhen | crates/dbx-rs-checkpoint/src/lib.rs:358-415 | a commit of the active attempt succeeds exactly if both sides are done over the same rows and a generation is left; the whole new snapshot; it reports an advance exactly if the cursor moved; otherwise the first thing lacking |
| CheckpointLaws.CommitIsRemembered | crates/dbx-rs-checkpoint/src/lib.rs:361-368 | after a commit, by commit or recovery, its repeat is answered with the generation it led to and changes nothing, whatever calls come between, until another attempt is committed |
| CheckpointLaws.RecoversExactlyWhen | crates/dbx-rs-checkpoint/src/lib.rs:427-463 | recovery commits what is ready and drops the rest, with the reason: failures first, then what is unknown, then what is unfinished |
| CheckpointLaws.RecoveryNeedsItsContext | crates/dbx-rs-checkpoint/src/lib.rs:427-440 | in another configuration or generation recovery does nothing; without an attempt it asks for a new one |
| CheckpointLaws.ReplayStartsOver | crates/dbx-rs-checkpoint/src/lib.rs:427-463 | a dropped attempt can be started again from the same cursor |
| CheckpointRuns.RunSeparates | crates/dbx-rs-checkpoint/src/lib.rs:240-350 | under one fence, interleaved collection and delivery calls act as the two separate sequences |
| CheckpointRuns.Confluence | crates/dbx-rs-checkpoint/src/lib.rs:240-350 | any two interleavings of the same collection calls with the same delivery calls give the same answer to each call, the same snapshot and the same commit outcome |
| Safety.StepKeepsInv | crates/dbx-rs-daemon/src/rising.rs:463-696 | every action of the protocol, a crash, a reconfiguration and a change of the source included, keeps the invariant |
| Safety.NoLoss | crates/dbx-rs-daemon/src/rising.rs:503-696 | in every reachable world each source row at or before the committed cursor has been acknowledged |
| Safety.ExactlyOnceAfterDedup | crates/dbx-rs-daemon/src/rising.rs:503-696 | the acknowledged rows, repeats dropped and cut at the committed cursor, are the source up to it, in order |
| Safety.RowsAreConserved | crates/dbx-rs-daemon/src/rising.rs:1254-1268 | the counters of a scan account for all rows adopted in the attempt, pruned ones included; references are consecutive; compacted, delivered and sealed counts are ordered; a candidate is present exactly when rows were sealed |
| Safety.CommitCannotMismatch | crates/dbx-rs-daemon/src/rising.rs:625-696 | after pruning the rows confirmed are the rows recorded, so only generation overflow can stop the final commit |
| Safety.CrashedInventoryIsAccepted | crates/dbx-rs-daemon/src/rising.rs:981-1106 | wherever a run crashed, the inventory check accepts the retained segments |
| InvariantSteps.AdoptKeepsInv | crates/dbx-rs-daemon/src/rising.rs:786-843 | adopting the sealed page keeps the invariant: the new reference covers the rows after the frontier |
| InvariantSteps.PruneKeepsInv | crates/dbx-rs-daemon/src/rising.rs:583-623 | pruning keeps every remaining reference over the rows it covered, and the totals |
| InvariantSteps.SendKeepsInv | crates/dbx-rs-daemon/src/worker.rs:519-576 | acknowledging part of a pending segment keeps the sink a prefix of the source |
| InvariantSteps.CommitKeepsInv | crates/dbx-rs-daemon/src/rising.rs:660-696 | a commit moves the committed position exactly to what was acknowledged |
| InvariantSteps.GrowKeepsInv | crates/dbx-rs-daemon/src/rising.rs:379-395 | changes of the source beyond every position read keep the invariant |
| InvariantSteps.SealKeepsInv | crates/dbx-rs-daemon/src/worker.rs:278-333 | sealing a collected page makes it the one segment without a reference, and the next page |
| Safety.IdentityIsFixed | crates/dbx-rs-daemon/src/rising.rs:739-753 | whatever configurations arrive, an input that has state keeps its source identity to the end of the run |
| StoreLaws.AcceptedWrite | crates/dbx-rs-state/src/store.rs:533-876 | whoever writes, an accepted write keeps the fence and either opens an attempt over nothing read, goes on with it page by page and receipt by receipt without losing rows, or closes it with every receipt, moving the cursor to its candidate |
| StoreLaws.AcceptedWritesAreSafe | crates/dbx-rs-state/src/store.rs:533-876 | over any sequence of accepted writes the cursor never goes back and the generation counts the closed attempts |
| StoreLaws.NoTransition | crates/dbx-rs-state/src/store.rs:533-620 | a write that repeats the state or changes identity, revision or configuration generation is refused |
| StoreLaws.StoredStateMeans | crates/dbx-rs-state/src/model.rs:233-415 | a stored state has consecutive pages without gaps, a segment of its own for each, at most 4096, receipts between what is pruned and what is sealed |
| StoreLaws.StoredProgressMeans | crates/dbx-rs-state/src/model.rs:233-379 | what a stored scan would commit is behind neither the committed cursor nor its resume position, and what the attempt records is what was sealed |
| Acceptance.CompareExchangeAccepted | crates/dbx-rs-state/src/store.rs:533-876 | each state the coordinator writes is valid and a transition the store accepts, so only a stale token or a fault can refuse it |
| RisingLaws.StepOnGeneration | crates/dbx-rs-daemon/src/rising.rs:232-270 | a state is created at configuration generation one, and the generation moves only with the revision, by one, keeping the cursor and no attempt |
| RisingLaws.GenerationMeansRevision | crates/dbx-rs-daemon/src/rising.rs:232-270 | over any run configuration generations never go down and one stands for one revision, also for one that comes back |
| RisingLaws.AcceptedInventory | crates/dbx-rs-daemon/src/rising.rs:981-1106 | an inventory is accepted if and only if every segment belongs to the open attempt field by field, each reference has its copy, and at most one segment has none and is the next page |
| RisingLaws.AdoptedPage | crates/dbx-rs-daemon/src/rising.rs:786-843 | what is adopted belongs to the attempt, answers the next request and is the next page; it becomes the last reference and the scan goes on behind its last row or is complete |
| RisingLaws.SealedPageBelongs | crates/dbx-rs-daemon/src/rising.rs:360-396 | a page sealed for the context of a state belongs to its attempt, answers its request and reports what was collected |
| RisingLaws.NextAttemptIsNew | crates/dbx-rs-daemon/src/rising.rs:1233-1252 | the attempt opened after a commit has another id than the one just committed |
| Inventory.IndexInventory | crates/dbx-rs-daemon/src/rising.rs:1044-1075 | accepts exactly listings whose segments are all in the active fence with distinct ids, and returns the spool they describe |
| Inventory.AdoptableOrphan | crates/dbx-rs-daemon/src/rising.rs:1077-1106 | accepts no leftover segment, or one that is ready, the next page and not empty |
| Inventory.MatchReferences | crates/dbx-rs-daemon/src/rising.rs:998-1034 | succeeds exactly when every reference is accepted; pairs each pending reference with its copy, lists each receipted copy once, leaves exactly the segments without a reference |
| Inventory.ValidateInventory | crates/dbx-rs-daemon/src/rising.rs:981-1042 | accepts exactly the acceptable inventories and returns the plan for them |
| Inventory.ListSegments | crates/dbx-rs-daemon/src/rising.rs:894-909 | the two listings name every retained segment once |
| Reconcile.Coordinator.CompareExchange | crates/dbx-rs-state/src/store.rs:218-237 | replaces the state exactly when the token is current and the new state is a valid transition; an error leaves the old state or, unreported, the new one |
| Reconcile.Coordinator.Advance | crates/dbx-rs-daemon/src/rising.rs:572-575 | a write the protocol allows is refused only by a fault |
| Reconcile.Coordinator.EnsureInput | crates/dbx-rs-daemon/src/rising.rs:232-270 | succeeds exactly when the input is new with an empty spool, unchanged, or idle with nothing retained and a generation to spare; an identity change always fails; every refusal leaves the state |
| Reconcile.Coordinator.LoadCurrent | crates/dbx-rs-daemon/src/rising.rs:698-719 | loads only a state of the prepared identity and revision |
| Reconcile.Coordinator.LoadPlan | crates/dbx-rs-daemon/src/rising.rs:499-500 | the inventory of a reachable world is never refused |
| Reconcile.Coordinator.Deliver | crates/dbx-rs-daemon/src/rising.rs:553-564 | sends a part of the segment, all of it on success; the segment is marked delivered only after all of it was sent |
| Reconcile.Coordinator.CompactDelivered | crates/dbx-rs-daemon/src/rising.rs:516-518 | removes exactly that delivered segment |
| Reconcile.Coordinator.PruneCompactedPrefix | crates/dbx-rs-daemon/src/rising.rs:583-623 | drops exactly the references with a receipt |
| Reconcile.Coordinator.SettleFirst | crates/dbx-rs-daemon/src/rising.rs:567-577 | the first pending reference gets its receipt, its segment is compacted and the reference pruned; nothing else of state or spool changes |
| Reconcile.Coordinator.DrainFirst | crates/dbx-rs-daemon/src/rising.rs:532-578 | one round of the delivery loop: sends the first pending segment if it is still ready and settles it; the rest of the plan stands |
| Reconcile.Coordinator.DrainAll | crates/dbx-rs-daemon/src/rising.rs:532-581 | the delivery loop ends with nothing retained and every pending event sent, in page order, delivered ones not again |
| Reconcile.Coordinator.CompactReceipted | crates/dbx-rs-daemon/src/rising.rs:516-518 | compacts exactly the receipted copies |
| Reconcile.Coordinator.AdoptPlanned | crates/dbx-rs-daemon/src/rising.rs:521-530 | adopts the sealed page exactly when the counters have room for it |
| Reconcile.Coordinator.ReconcileDeliveryPrefix | crates/dbx-rs-daemon/src/rising.rs:503-581 | compacts, prunes, adopts and delivers; without faults it succeeds exactly when the page to adopt fits the counters |
| Reconcile.Coordinator.FinishReconciledScan | crates/dbx-rs-daemon/src/rising.rs:625-696 | an incomplete scan waits for its next page; a complete one commits unless the generation is exhausted, and reports an advance exactly when the committed cursor moved |
| Reconcile.Coordinator.Reconcile | crates/dbx-rs-daemon/src/rising.rs:463-501 | whatever faults strike, the world left is reachable from the world found and the sink saw an initial part of what was outstanding; it succeeds exactly without faults, unless a scan of another revision or identity is open or a counter is exhausted, and then retains nothing |
| Reconcile.RecoverAfterCrash | crates/dbx-rs-daemon/src/rising.rs:463-581 | from any point of any run whose open scan, if any, is of the configured identity and revision, and with room in the counters, one fault-free reconciliation ends idle, needing a page or committed, with an empty spool, having sent what was ready and nothing delivered |
| Recovery.ForeignScanIsReached | crates/dbx-rs-daemon/src/rising.rs:252-262 | the case left out: when the identity or revision changes while a scan is open, neither reconciliation nor activation is possible; such a world is reached for every changed configuration |
| Recovery.AdoptionNeedsRoom | crates/dbx-rs-daemon/src/rising.rs:786-843 | the sealed page of a reachable world can be adopted if and only if page number and row total stay within 64 bits |
| Reconcile.Coordinator.FreshAttemptId | crates/dbx-rs-daemon/src/rising.rs:1233-1252 | finds an id that differs from the attempt committed last, if the candidates hold one |
| Reconcile.Coordinator.OpenAttempt | crates/dbx-rs-daemon/src/rising.rs:331-358 | succeeds, faults aside, exactly when a scan is open or a candidate id is new; an open attempt is kept; a new one has read nothing and is fenced to the current generation |
| Reconcile.Coordinator.StartOrResumePage | crates/dbx-rs-daemon/src/rising.rs:316-396 | succeeds, faults aside, exactly when the input can be ensured and, with nothing retained, an attempt can be opened and the next bound does not underflow; hands out a page exactly when nothing is retained and the scan wants one, for the request foreseen from the state before |
| Reconcile.Coordinator.AskForPage | crates/dbx-rs-daemon/src/rising.rs:323-396 | the same once the state is loaded: exact success, and a page exactly for a clean inventory and a scan that wants one |
| Reconcile.Coordinator.HandOutPage | crates/dbx-rs-daemon/src/rising.rs:360-396 | a page, a reconciliation first, or a rejected cursor request: exactly by the state of the scan |
| Reconcile.Coordinator.CollectPage | crates/dbx-rs-native-connectors/src/lib.rs:519-538 | the next rows after the bound; the candidate is the larger of the last row and the committed cursor, the resume position the last row |
| Reconcile.Coordinator.SealPage | crates/dbx-rs-daemon/src/worker.rs:278-333 | adds exactly the sealed page to the ready segments |
| Reconcile.Coordinator.RecordEmptyCompletion | crates/dbx-rs-daemon/src/rising.rs:404-451 | completes the scan exactly for an empty, final page without cursors |
| Completion.RunScan | crates/dbx-rs-daemon/src/rising.rs:316-696 | over a fixed table, without faults and with room in the counters, asking, collecting, sealing and reconciling page by page ends in a commit: the committed cursor covers the table and the sink, repeats dropped, holds exactly the table |
| Completion.LastRowCovers | crates/dbx-rs-native-connectors/src/lib.rs:519-538 | the candidate of a page that ends at the last row covers the whole table |
| Completion.RoomExactlyWhen | crates/dbx-rs-daemon/src/rising.rs:252-266 | over a table of fewer than 2^64 - 1 rows pages always fit the counters: what decides whether a reconciliation can succeed is the configured identity and revision, and the two generations |
| Completion.RecoverAndScan | crates/dbx-rs-daemon/src/rising.rs:316-696 | from any point of any run, unless an open scan is of another configuration or a generation is exhausted, one fault-free reconciliation and the scan after it commit and send the whole table |
| Bounds.CommittedComesFromARow | crates/dbx-rs-daemon/src/rising.rs:660-696 | in every reachable world, whatever the table became since, the committed cursor is that of one of its rows |
| Bounds.PagesHaveRows | crates/dbx-rs-daemon/src/rising.rs:583-623 | in every reachable world a scan has sealed a row for each page, pruned pages included |
| Bounds.BoundExistsExactlyWhen | crates/dbx-rs-connector-sdk/src/cursor.rs:158-196 | over a valid cursor definition the next page of a reachable world has a bound if and only if the overlap does not reach below the smallest timestamp: resuming never falls before the first bound |
| Bounds.ConfiguredBoundExists | crates/dbx-rs-config/src/lib.rs:747-788 | for every overlap that can be configured, over calendar timestamps, the next page of every reachable world has a bound |
| Bounds.ConfiguredCanAsk | crates/dbx-rs-daemon/src/rising.rs:316-396 | so whether a page can be asked for is decided by the input and the candidate ids: the bound never stands in the way |
| Preimages.RequestPreimageIsInjective | crates/dbx-rs-daemon/src/rising_metadata.rs:223-245 | request fingerprints of equal preimages bind one cursor identity, committed cursor and resume position |
| Preimages.RisingEventIsInjective | crates/dbx-rs-daemon/src/worker.rs:391-404 | rising event ids agree only for one input, lineage, cursor identity and row cursor |
| Preimages.BatchEventIsInjective | crates/dbx-rs-daemon/src/worker.rs:406-413 | batch event ids agree only for one input, batch and ordinal |
| Preimages.EventKindsNeverMeet | crates/dbx-rs-daemon/src/worker.rs:391-413 | no rising event shares an id preimage with a batch event |
| Preimages.RequestLayout | crates/dbx-rs-daemon/src/rising_metadata.rs:223-245 | the cursor identity, then the committed cursor, then the resume position, each behind a presence byte |
| Preimages.RisingEventLayout | crates/dbx-rs-daemon/src/worker.rs:391-404 | input, lineage, cursor identity and row cursor, in this order |
| Preimages.BatchEventLayout | crates/dbx-rs-daemon/src/worker.rs:406-413 | input, batch and ordinal, in this order |
| EventDedup.KeptIsDedup | crates/dbx-rs-daemon/src/worker.rs:348-389 | keeping one event per id keeps one per row |
| EventDedup.EventLogIsTheLog | crates/dbx-rs-daemon/src/worker.rs:348-413 | the events a run sent, each under the id it got when its segment was sealed, are the rows of the log under the ids of the one identity of the input |
| EventDedup.ExactlyOnceById | crates/dbx-rs-daemon/src/worker.rs:348-413 | the events a run sent, with ids fixed at sealing, de-duplicated by id and cut at the committed cursor, are the source up to it, each row once, in order |
| EventDedup.CollectedPageIsConstructible | crates/dbx-rs-daemon/src/rising_metadata.rs:45-60 | the metadata constructor accepts what any page reports, and it survives the codec |
| BigEndian.U64RoundTrip | crates/dbx-rs-daemon/src/rising_metadata.rs:116 | unsigned 64-bit big-endian encoding and decoding are mutual inverses |
| BigEndian.I64RoundTrip | crates/dbx-rs-connector-sdk/src/cursor.rs:35-64 | two's complement big-endian encoding and decoding are mutual inverses |
| CursorCodec.ToCanonicalBytes | crates/dbx-rs-connector-sdk/src/cursor.rs:35-41 | fills 18 bytes with version, timestamp and id |
| BigEndian.ByteAt | crates/dbx-rs-daemon/src/rising_metadata.rs:116 | the most significant byte comes first: each byte by its power of 256 |
| CursorCodec.CanonicalLayout | crates/dbx-rs-connector-sdk/src/cursor.rs:35-41 | which byte holds what: version one, then timestamp and id from their highest byte down, negative numbers counted down from 2^64 |
| CursorCodec.RefusesExactlyWhen | crates/dbx-rs-connector-sdk/src/cursor.rs:43-64 | a string is refused for its length first, then for its version |
| CursorCodec.CursorRoundTrip | crates/dbx-rs-connector-sdk/src/cursor.rs:35-64 | every cursor survives the round trip, and exactly the canonical forms are accepted |
| MetadataCodec.Encode | crates/dbx-rs-daemon/src/rising_metadata.rs:94-119 | the filled buffer is version, flags, reserved zero, rows, fingerprint and the two cursor slots |
| MetadataCodec.EncodedLayout | crates/dbx-rs-daemon/src/rising_metadata.rs:94-119 | where each part of the 80 bytes stands, flag by flag and byte by byte |
| MetadataCodec.ConstructibleExactlyWhen | crates/dbx-rs-daemon/src/rising_metadata.rs:173-199 | what can be constructed: no all-zero fingerprint, nothing else without rows, both cursors in order with rows |
| MetadataCodec.DecodeRefuses | crates/dbx-rs-daemon/src/rising_metadata.rs:126-171 | a string of the wrong form is refused for the first part that is wrong |
| MetadataCodec.DecodeEncoded | crates/dbx-rs-daemon/src/rising_metadata.rs:126-171 | decoding an encoded value returns it, or the error its constructor gives |
| MetadataCodec.EncodedDecode | crates/dbx-rs-daemon/src/rising_metadata.rs:126-199 | an accepted 80-byte string is the encoding of a constructible value |
| MetadataCodec.MetadataBijection | crates/dbx-rs-daemon/src/rising_metadata.rs:94-199 | accepted encodings and constructible values are in bijection |
| Domains.DomainsSeparate | crates/dbx-rs-daemon/src/prepared.rs:26-33 | equal preimages have one domain and one content: the domain names are mutually prefix-free |
| Fingerprints.BodyIsReadable | crates/dbx-rs-daemon/src/prepared.rs:518-588 | for fields of one shape, the encoding says where the field ends and what it holds |
| Fingerprints.FieldsAreInjective | crates/dbx-rs-daemon/src/prepared.rs:507-595 | equal encodings of one schema hold equal fields |
| Fingerprints.PreimagesAreInjective | crates/dbx-rs-daemon/src/prepared.rs:336-462 | across all eight kinds, equal preimages come from equal values, for all strings, durations and optional fields |
| FingerprintEncoder.Encoder.Byte | crates/dbx-rs-daemon/src/prepared.rs:522-524 | appends the tag and one byte |
| FingerprintEncoder.Encoder.TwoBytes | crates/dbx-rs-daemon/src/prepared.rs:526-529 | appends the tag and two bytes |
| FingerprintEncoder.Encoder.EightBytes | crates/dbx-rs-daemon/src/prepared.rs:531-534 | appends the tag and eight bytes |
| FingerprintEncoder.Encoder.Duration | crates/dbx-rs-daemon/src/prepared.rs:542-546 | appends the tag, seconds and nanoseconds |
| FingerprintEncoder.Encoder.SizedBytes | crates/dbx-rs-daemon/src/prepared.rs:548-554 | appends the tag, length and bytes, or refuses a length over 32 bits before writing |
| FingerprintEncoder.Encoder.FixedBytes | crates/dbx-rs-daemon/src/prepared.rs:556-564 | appends the tag and the digest |
| FingerprintEncoder.Encoder.OptionalBytes | crates/dbx-rs-daemon/src/prepared.rs:566-577 | appends the tag, a presence byte and the sized bytes if there are any; refuses exactly a length over 32 bits |
| FingerprintEncoder.Encoder.OptionalDigest | crates/dbx-rs-daemon/src/prepared.rs:579-588 | appends the tag, a presence byte and the digest if there is one |
| Fingerprints.NumberFormat | crates/dbx-rs-daemon/src/prepared.rs:522-534 | how a number follows its tag: from the high byte |
| Fingerprints.TextFormat | crates/dbx-rs-daemon/src/prepared.rs:548-564 | how a text follows its tag: behind a 32-bit length; a digest has none |
| Fingerprints.OptionalTextFormat | crates/dbx-rs-daemon/src/prepared.rs:566-577 | an optional text is a presence byte, a 32-bit length and the text |
| Fingerprints.TagsCountUp | crates/dbx-rs-daemon/src/prepared.rs:507-588 | the fields of a fingerprint follow one another, tagged from one on |
| Fingerprints.SettingNumbers | crates/dbx-rs-daemon/src/prepared.rs:425-462 | the numbers that stand for the TLS modes and for yes and no |
| Fingerprints.OptionFormat | crates/dbx-rs-daemon/src/prepared.rs:566-588 | an option is a presence byte and, if present, its content |
| Fingerprints.DurationFormat | crates/dbx-rs-daemon/src/prepared.rs:542-546 | a duration is its seconds in eight bytes and its nanoseconds in four |
| Fingerprints.BoundVersions | crates/dbx-rs-daemon/src/prepared.rs:349-409 | the versions a fingerprint is bound to |
| FingerprintEncoder.BatchInputIdPreimage | crates/dbx-rs-daemon/src/prepared.rs:336-340 | hashes the domain and exactly the listed fields in tag order; fails exactly when a text is too long |
| FingerprintEncoder.RisingInputKeyPreimage | crates/dbx-rs-daemon/src/prepared.rs:342-347 | hashes the domain and exactly the listed fields in tag order |
| FingerprintEncoder.QueryPreimage | crates/dbx-rs-daemon/src/prepared.rs:349-360 | hashes the domain and exactly the listed fields in tag order; fails exactly when a text is too long |
| FingerprintEncoder.BatchLineagePreimage | crates/dbx-rs-daemon/src/prepared.rs:362-376 | hashes the domain and exactly the listed fields in tag order; fails exactly when a text is too long |
| FingerprintEncoder.RisingLineagePreimage | crates/dbx-rs-daemon/src/prepared.rs:378-395 | hashes the domain and exactly the listed fields in tag order; fails exactly when a text is too long |
| FingerprintEncoder.CursorIdentityPreimage | crates/dbx-rs-daemon/src/prepared.rs:397-409 | hashes the domain and exactly the listed fields in tag order; fails exactly when a text is too long |
| FingerprintEncoder.RisingRevisionPreimage | crates/dbx-rs-daemon/src/prepared.rs:411-423 | hashes the domain and exactly the listed fields in tag order |
| FingerprintEncoder.RevisionPreimage | crates/dbx-rs-daemon/src/prepared.rs:425-462 | hashes the domain and exactly the listed fields in tag order; fails exactly when a text is too long |
| Hex.EncodeHex | crates/dbx-rs-spool/src/identity.rs:39-47 | two lowercase digits a byte, the high one first |
| Hex.DecodeHex | crates/dbx-rs-spool/src/identity.rs:49-60 | accepts exactly the text of that many bytes, and returns them |
| Hex.EncodeThenDecode | crates/dbx-rs-spool/src/identity.rs:39-60 | decoding inverts encoding for every length |
| Uuid.GenerateUuid | crates/dbx-rs-daemon/src/identity.rs:48-58 | five hyphenated groups of lowercase hex |
| Uuid.VersionedBits | crates/dbx-rs-daemon/src/identity.rs:60-75 | version four and the variant bits are set, all other bits stay random |
| Uuid.ParseRisingInputId | crates/dbx-rs-config/src/lib.rs:810-838 | accepts exactly the canonical lowercase text of a non-zero 16-byte value, and returns that value |
| Uuid.PrintThenParse | crates/dbx-rs-config/src/lib.rs:810-846 | the parser inverts the printer on every non-zero value and rejects zero |
| Uuid.GenerateThenParse | crates/dbx-rs-daemon/src/identity.rs:48-75 | a generated id, version and variant bits set, is always accepted and read back |
| Scanner.ContainsPaginationKeyword | connectors/postgres/src/connector.rs:856-894 | terminates within bounds and answers true exactly when the forward grammar yields an unquoted limit, offset or fetch |
| Scanner.SkipSingleQuoted | connectors/postgres/src/connector.rs:896-913 | ends where the grammar ends the string, escapes decided by looking back |
| Scanner.SkipDoubledQuote | connectors/postgres/src/connector.rs:926-940 | ends at the closing quote, doubled ones read through |
| Scanner.SkipLineComment | connectors/postgres/src/connector.rs:942-947 | ends after the first newline or carriage return |
| Scanner.SkipBlockComment | connectors/postgres/src/connector.rs:949-967 | counting depth ends where the recursive comment grammar ends |
| Scanner.DollarQuoteDelimiterEnd | connectors/postgres/src/connector.rs:969-982 | finds exactly the delimiters with a well-formed tag |
| Scanner.SkipDollarQuoted | connectors/postgres/src/connector.rs:984-992 | ends after the first occurrence of the delimiter, or at the end |
| Scanner.PrefixAgrees | connectors/postgres/src/connector.rs:915-924 | the escape prefix found by looking back is the one the items before the quote announce |
| Scanner.LooksBackAfter | connectors/postgres/src/connector.rs:856-924 | each item leaves before the next one what looking back will see |
| LexerLaws.StringIsOneItem | connectors/postgres/src/connector.rs:896-913 | a string, however it is written, is one literal ending at its closing quote exactly when no quote follows: behind a prefix a backslash takes the next byte with it, without one the first quote that is not doubled ends it |
| LexerLaws.EscapeStringHides | connectors/postgres/src/connector.rs:896-924 | with its prefix e, E, u& or U& a string hides whatever it holds from the keyword check, escaped quotes and backslashes included |
| LexerLaws.LongWordIsNoPrefix | connectors/postgres/src/connector.rs:915-924 | the last letter of a longer word is no prefix |
| LexerLaws.CommentIsOneItem | connectors/postgres/src/connector.rs:949-967 | a block comment, with comments inside it to any depth, is one item and hides what it holds |
| LexerLaws.LineCommentIsOneItem | connectors/postgres/src/connector.rs:942-947 | a line comment ends behind the first line feed or carriage return and hides what it holds |
| LexerLaws.DollarQuoteIsOneItem | connectors/postgres/src/connector.rs:969-992 | a dollar-quoted string is one item up to the first place where its delimiter, tag included, comes again |
| LexerLaws.ParameterIsNoQuote | connectors/postgres/src/connector.rs:969-982 | a dollar before a digit quotes nothing |
| LexerLaws.WordIsOneItem | connectors/postgres/src/connector.rs:856-894 | exactly limit, offset and fetch, in any case, are keywords, and only where they stand alone |
| Lexer.QuoteIdentifier | connectors/postgres/src/connector.rs:1006-1017 | wraps the name in quotes and doubles every quote in it |
| Lexer.QuotedIsOneItem | connectors/postgres/src/connector.rs:926-940 | a quoted identifier is read as exactly one item if and only if no quote follows it, and is never a keyword |
| Batching.DeliverReadySegment | crates/dbx-rs-daemon/src/worker.rs:519-576 | undisturbed, succeeds exactly when no event is too long and all rows were counted; the sink has always seen an initial part of the planned bodies |
| Batching.TakeEvent | crates/dbx-rs-daemon/src/worker.rs:529-561 | flushes exactly when the event does not fit, then adds it behind a newline |
| BatchingLaws.BatchingConserves | crates/dbx-rs-daemon/src/worker.rs:519-576 | for well-formed events the bodies split at newlines give the events back in order, each body non-empty and within both limits, all rows counted |
| BatchingLaws.BatchingIsOptimal | crates/dbx-rs-daemon/src/worker.rs:519-576 | no in-order partition within the limits uses fewer requests |
| BatchingLaws.EventsComeBackExactlyWhen | crates/dbx-rs-daemon/src/worker.rs:541-561 | for any newline-free events, empty ones included: splitting the bodies gives the events back if and only if no body is opened by an empty event |
| Schedule.ScheduleState.Sync | crates/dbx-rs-daemon/src/runtime.rs:1435-1442 | afterwards exactly the enabled inputs are scheduled, each at the time it had or, if it is new, now; running ones stay |
| Schedule.ScheduleState.TakeDue | crates/dbx-rs-daemon/src/runtime.rs:1444-1464 | starts the earliest due inputs in order, as many as fit, none that is running, never above the capacity |
| Schedule.ScheduleState.Complete | crates/dbx-rs-daemon/src/runtime.rs:1466-1473 | releases the input and reschedules or drops it |
| Schedule.ScheduleState.ReleaseAll | crates/dbx-rs-daemon/src/runtime.rs:1475-1477 | nothing runs any more; every due time stays |
| Schedule.ForgottenNeverStarts | crates/dbx-rs-daemon/src/runtime.rs:1435-1473 | an input that a sync leaves out, or that completed without an interval, is started by no wave until a sync or a completion schedules it again |
| Schedule.IntervalIsKept | crates/dbx-rs-daemon/src/runtime.rs:1466-1473 | an input that completed with an interval is not started before that interval is over |
| Schedule.EnabledIsScheduled | crates/dbx-rs-daemon/src/runtime.rs:1435-1442 | a new input is due at once, a scheduled one keeps its time |
| Schedule.WaveIsModest | crates/dbx-rs-daemon/src/runtime.rs:1444-1464 | a wave starts nothing that runs, nothing before it is due, and no more than are free |
| Schedule.WaveTakesInOrder | crates/dbx-rs-daemon/src/runtime.rs:1452-1458 | whom a wave takes was due before whom it leaves, or at the same instant under a name that comes first |
| Schedule.StartedInOrder | crates/dbx-rs-daemon/src/runtime.rs:1452-1463 | the inputs of a wave are started in that order |
| Schedule.WaveTakesAllThatFit | crates/dbx-rs-daemon/src/runtime.rs:1444-1464 | a wave that is not full leaves no due input |
| Schedule.WavesComeOneByOne | crates/dbx-rs-daemon/src/runtime.rs:635-637 | no wave starts while a worker is left or the backlog is not known to be drained |
| Schedule.ReturningIsExact | crates/dbx-rs-daemon/src/runtime.rs:1435-1477 | which inputs one operation puts ahead of a waiting one, exactly: completed and new ones under an earlier key, and the running ones with an earlier key that a release frees |
| Schedule.OvertakingStep | crates/dbx-rs-daemon/src/runtime.rs:1444-1477 | a wave that passes over a due input works off a full capacity of those ahead; other operations add no more than the returning ones |
| Schedule.OvertakingIsAccounted | crates/dbx-rs-daemon/src/runtime.rs:1444-1477 | in every run of waves, completions, syncs and releases, capacity times the waves that pass over a due input is at most the inputs ahead at the start plus those that came back |
| Schedule.StartsWithinBound | crates/dbx-rs-daemon/src/runtime.rs:635-637 | once it is due, and completions and syncs come later than that, an input is started within ceil(n / capacity) waves plus one for each release, immediate continuations included |
| Schedule.StartsWithoutReleases | crates/dbx-rs-daemon/src/runtime.rs:635-637 | if workers are not stopped in between, ceil(n / capacity) waves are enough |
| Schedule.StarvesExactlyWhen | crates/dbx-rs-daemon/src/runtime.rs:1313-1321 | with workers stopped for reloads and the clock always moving on, a due input can be passed over any number of times if and only if a full capacity of inputs has earlier keys; otherwise the first wave starts it |
| Generations.ConfigurationGenerations.ActivateRevisions | crates/dbx-rs-daemon/src/runtime.rs:1502-1523 | succeeds exactly when no needed generation overflows, then exactly the named inputs are active with their generation; a failure keeps what is active |
| Generations.ActivationGives | crates/dbx-rs-daemon/src/runtime.rs:1502-1523 | an unchanged revision keeps its generation, a new or changed one takes exactly the one after the mark, starting at one; what is not named is no longer active but stays counted |
| Generations.ActivatableExactlyWhen | crates/dbx-rs-daemon/src/runtime.rs:1506-1520 | it fails exactly if a new or changed revision finds its mark at the last 64-bit number |
| Generations.GenerationsAreNotReused | crates/dbx-rs-daemon/src/runtime.rs:1480-1531 | over any activations, removals, returns and failures, generations of an input never decrease and none is active for two revisions |
| Generations.ActivationLowersExactly | crates/dbx-rs-daemon/src/runtime.rs:1506-1520 | an activation lowers the high-water mark of an input if and only if the input stays at its active revision and the mark lies above its active generation |
| Generations.MarksNeverGoDown | crates/dbx-rs-daemon/src/runtime.rs:1024-1028 | over successful activations, the only ones the daemon keeps, no mark ever goes down |
| Reload.Daemon.ApplyReload | crates/dbx-rs-daemon/src/runtime.rs:963-1042 | installs only when no rising scan is open, nothing rising is retained and no batch segment is ready; every other return leaves configuration, client, inputs and generations; without faults it installs exactly if the candidate contradicts nothing configured or persisted, every input can be reconciled and waits for no page, the batch spool drains, the revisions can be activated and the new client is ready; the schedule is left, released, or synchronised with the new inputs, by outcome |
| Reload.Daemon.WindDown | crates/dbx-rs-daemon/src/runtime.rs:990-1019 | reports quiet, faults aside, exactly when every input has room and leaves no scan open and the batch spool drains; then every checkpoint is at rest and nothing is ready; persisted identities and lineages stay |
| Reload.ReconcileBacklog | crates/dbx-rs-daemon/src/runtime.rs:417-476 | succeeds, faults aside, exactly when every configured rising input has room; then each retains nothing, and those that wait for a page are exactly those whose open scan lacked its last page |
| Reload.BacklogDoneMeansAtRest | crates/dbx-rs-daemon/src/runtime.rs:1008-1011 | if no input waits for a page, every persisted checkpoint is idle |
| Reload.CompactAcknowledged | crates/dbx-rs-daemon/src/worker.rs:459-468 | compacts exactly the acknowledged batch segments; one with recovery metadata stops it |
| Reload.DrainReadySegments | crates/dbx-rs-daemon/src/worker.rs:447-517 | succeeds exactly when no segment is fenced to another revision, no acknowledged one is out of place, a sink exists for what is pending and nothing stops it; a foreign fence is refused before anything is touched; what is sent was collected under the revision its input has now; a segment of another revision of its input stops the drain before anything is touched; what is not sent stays ready; on success each fenced segment is sent once, in order |
| ReloadLaws.AcceptableExactlyWhen | crates/dbx-rs-daemon/src/runtime.rs:963-989 | a candidate is acceptable exactly if it changes no mode and no rising id under a name that stays, configures every input that has state, and leaves its source identity alone |
| ReloadLaws.InstalledSchedule | crates/dbx-rs-daemon/src/runtime.rs:1036-1039 | after an install exactly the inputs that are not disabled are scheduled |
| ReloadLaws.ActivatedRevisions | crates/dbx-rs-daemon/src/runtime.rs:1493-1500 | exactly the batch inputs are activated, each under its revision |
| ReloadLaws.ReplayableExactlyWhen | crates/dbx-rs-daemon/src/worker.rs:495-517 | a segment may be replayed or passed by exactly if a batch input has its key and its revision, or a rising input has its key |
| ReloadLaws.DrainsOnlyWhen | crates/dbx-rs-daemon/src/worker.rs:447-517 | a drain needs every ready segment to be current, every acknowledged one a rising input's or without recovery metadata, and a sink if a batch segment is to be sent |
| ReloadLaws.DrainsWhenever | crates/dbx-rs-daemon/src/worker.rs:447-517 | undisturbed and with a sink, nothing more is needed |
| Reload.InstalledIsEnsurable | crates/dbx-rs-daemon/src/rising.rs:252-266 | with nothing old left, only the generation counter can stop a revision activation |
| Reload.InstalledIsReady | crates/dbx-rs-daemon/src/worker.rs:447-517 | after an install every rising input can be ensured if its generation counter allows, and the batch spool can be drained whatever the new revisions and the sink are |
| Reload.InstalledSettles | crates/dbx-rs-daemon/src/runtime.rs:417-476 | after an install the next pass over the old work settles exactly if no input needs a generation it does not have |

## Left out

- Network, drivers, TLS and async plumbing: the sink acknowledges a body or fails, the collector returns a page.
- File system, permissions, encryption and the spool format: the spool is a map from segment ids to ready or delivered segments. Quarantine, quotas and reservations are not part of this model.
- The state store's envelope and revision counter: tokens are unbounded, so revision overflow is not modelled. Transaction-time fields such as the segment creation time are not modelled.
- A segment id collides with no retained segment and no reference that is not pruned; attempt ids are supplied by the caller, as random bytes are.
- The all-zero request fingerprint: its preimage representation has no such value in the protocol; the metadata codec rejects it.
- The protocol covers one input and its own spool; the daemon's inputs are independent, and `Reload` puts them together.
- Reconcile.Coordinator.Send: leaves the size of one request open; `Batching` fixes it and proves what it promises.
- Reconcile.Coordinator.Reconcile: starts in a reachable world; a state or spool altered by hand is covered only by the exact acceptance of `Inventory.ValidateInventory` and `EnsureInput`.
- Reconcile.Coordinator.RecordEmptyCompletion: takes the context handed to the worker that is at work; the check for a stale context cannot fail there.
- Reconcile.Coordinator.LoadPlan: the error returns for missing segments or missing state inside a reconciliation are unreachable in reachable worlds and are not written out.
- Reload.DrainReadySegments: delivery of a batch segment is one step that happens or stops the drain; its batching is in `Batching`. The order of the segments that stay ready after a stopped drain is not modelled.
- Schedule.ScheduleState.TakeDue: instants are natural numbers that the caller supplies; spawning and aborting tasks is not modelled.
- Schedule.StarvesExactlyWhen: starts with nothing running and lets releases come at any time; how often reloads are refused depends on what is edited and collected.
- Schedule.OvertakingIsAccounted: follows an input as long as it waits; starting, disabling or rescheduling that input ends its wait.
- Completion.RunScan: the table stays fixed while it is scanned; what changes behind the cursor is covered by the safety theorems only.
- Bounds.ConfiguredBoundExists: takes calendar timestamps as a condition on the table; the connectors' conversion of column values is not modelled.
- Reload.Daemon.ApplyReload: success is stated exactly for a reload without durable faults; with faults it states only what a success needs. Preparing the new client is a parameter, and workers stop at once; telemetry and grace periods are not modelled.
- Lexer.QuoteIdentifier: works on the UTF-8 bytes of a name, in which no part of a longer character is a quote.
- Hex.DecodeHex: works on characters; a text with a character beyond ASCII is rejected either way.
- Batching.DeliverReadySegment: read errors of the segment reader are not modelled; sizes are unbounded, so saturating additions never saturate.
- Agreement of the scanner with a PostgreSQL server: the grammar is the one stated in `Lexer`.
- INI parsing, path expansion, command lines, field range checks, error codes, redacted output and version packing: many short branches without state.
- The other connectors, the deployment credentials, the app builder and HEC management: input and output around the protocol.
