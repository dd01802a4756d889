# TxHarbor: event pipeline and withdrawal execution, verified

TxHarbor keeps all durable state in PostgreSQL rows that short guarded transactions change. This project
models two protocols built that way, and the path that joins them, and proves what they keep under every
interleaving of any number of workers, publishers, reconcilers and operators, with crashes, rollbacks and
commits that are reported as errors.

**Execution worker.** `ExecutionRows` holds the rows of one payment intent and the guarded statements;
`ExecutionOps` the transactions of the claim store, the fenced step driver, the revision consumer and the
display refresh; `Reconciler` the unfenced reconciler, whose three reads and following transactions happen at
different moments. `ExecutionSystem` lets all of them interleave, with the step-issue transaction split between its
checks and its commit. Every operation is a chain of edits of eight
kinds (`Edits`), so each invariant (`Fencing`, `StepJournal`, `ExecutionSoundness`) is proved once per kind.
`ExecutionTheorems`, `Leases`, `Freezing`, `FreezeRaces` and `DisplayOrder` state the results for whole runs;
`Outcomes` says what each transaction leaves in the columns for every kind of input.
`ExecutionStore` is the imperative code: each method is proved to be a call of `StoreCalls`, and every sequence of
calls, for any number of intents, to be a run of each intent's system (`ExecutionRuns`).

**Event pipeline.** `Outbox` is the outbox table with its statements; `OutboxTheorems` and `AppendVersions` what
it keeps; `NaturalKeys` the event identities; `Publisher` the claim, publish and settle code. `ConsumerTables` and
`ConsumerSystem` are the consumer's tables and its workers, with the apply transaction split at the point where
an absent version row is read without a lock; `ConsumerSoundness` and `ConsumerTheorems` are the invariant and
the results; `ConsumerReplay` the replays; `ConsumerRuntime` the retry, gap-wait, batch and replay code, run
against an environment of other workers.

**Both together.** `Pipeline` composes the intents, the outbox, the broker log and the consumer; `EndToEnd` shows that
what the consumer applies for an intent is a stretch of that intent's real history, and that nothing is lost on
the way.

**Three small cores.** `LoadGuard` (single flight and semaphore of the cache), `TrackingScan` (keyset rotation of
the worker's scan) and `ChainList` (canonical list parser), besides `Backoff` (retry delay on 64-bit integers).

Modelling choices:

- A transaction is one atomic step, except where the code reads first and re-checks later: the reconciler's
  sessions, the issue transaction (which locks the claim row in between, so whoever needs that row waits), the
  snapshots that a compare-and-swap re-checks (`seen`), the maximum that an append reads before it inserts (`read`),
  and the consumer's apply transaction.
- The transaction that moves an intent holds the lock of its row while it appends, so the maximum it reads is
  current. Other producers may read any maximum.
- A publisher marks as published what its sink reports as acknowledged. That the sink reports only what the broker
  has acknowledged is a premise (`AllTruthful`), not a guard of the table.
- `now()` is a parameter of each transaction and is not assumed to move forward.
- The rows of different intents do not interact, so the execution system is one intent's; `Pipeline` and
  `ExecutionStore` hold many. One named consumer is modelled; its tables are keyed by its name.
- Hashes and name-based UUIDs are injective: an event id is its natural key, a payload hash is the payload.
- Parsing, the catalog and the chain-identity check decide only whether a delivered value is an event or a
  refusal with an identity and a reason (`Body`). The recovery, grant, scope and binding gates are one flag.
- Messages of other producers in the topic neither name an intent's aggregate nor carry the identity of an intent's
  event; everything else about them is arbitrary.
- Versions and offsets are unbounded; only the backoff models 64-bit wrap-around.

What the code does not promise, shown and bounded:

- Two overlapping first-seen transactions can apply versions 3 and then 5 (`ThreeThenFive`). A history is without
  holes if and only if no commit is such a late baseline of its aggregate (`ContiguousIff`), which is so as long as
  no two first-seen transactions of the aggregate overlap (`ApartContiguous`).
- Versions come from the rows that are still there. A prune keeps the next version if and only if the highest row
  stays (`PruneKeepsNextIff`); otherwise a version and an identity are used twice (`PrunedHeadReusesVersion`). A log
  event is forgotten with its row and can be inserted again (`LogInsertsIff`).
- Without the lock of the source row, two emissions for one aggregate may read the same maximum. The unique index
  refuses the second one of a business object (`IndexCountsUp`), but two log events get one version
  (`OverlappingLogsShareVersion`).
- A freeze marker is documented as written exactly once. It is if and only if no reconcile records a freeze that
  somebody has recorded since it checked (`RecordedOnceIff`); two overlapping reconciles write two (`TwoMarkers`).
- A freeze is documented to stop sending. A transaction that had checked before the marker outruns it: an issue
  still inserts its step and moves the intent to executing (`StepAfterFreeze`), a reconcile still completes it
  (`CompletedAfterFreeze`). While frozen an operation sends if and only if it is such a commit (`FreezeOutrunIff`).
- The class read back from a freeze marker is the recorded one if and only if it holds no blank or tab
  (`FreezeClassRoundTrip`): the condition "freeze:a b" is recorded as class "a b" and read back as "a"
  (`TwoWordClass`).
- The backoff is min(cap, base * 2^(n-1)) for every attempt if and only if no doubling below the cap overflows
  (`DelayExactIff`).

## Model

| member | source | states |
|---|---|---|
| ExecutionTheorems.AcquisitionGrantsNext | internal/execution/claim.go:22-57 | every successful acquisition in a run comes from the upsert or the claim transaction, appends its owner to the history and leaves the next lease version in the row |
| ExecutionTheorems.LeasesIncrease | internal/execution/claim.go:107-120 | two successful acquisitions of a run return strictly increasing lease versions, whatever lies between them |
| ExecutionTheorems.FencedOut | internal/execution/claim.go:124-188 | once a version is acquired, a renew, progress, release, revoke, step issue or driver converge that presents an older one leaves every row as it was, at every later moment |
| ExecutionTheorems.IssuedUnderClaim | internal/execution/advance.go:107-235 | a step appears only when an issue transaction commits that was checked with open gates and no marker, still holds its claim and finds no open step, and carries that claim's owner and version |
| ExecutionTheorems.IssueHasCheck | internal/execution/advance.go:175-231 | every issue transaction in flight has its check at an earlier moment of the run: under its claim, with open gates, before any marker |
| ExecutionTheorems.IssueHoldsClaim | internal/execution/advance.go:117-123 | from its check to its commit the claim it checked is current and its lease version the newest |
| ExecutionTheorems.StepClosedBy | internal/execution/steps.go:134-171 | in every run a step leaves issued only by its own issuer's driver under a current claim, or by a reconcile that had read this very step as the open one |
| ExecutionTheorems.ClosedForReason | internal/execution/reconcile.go:86-131 | in every run a reconcile closes a step as refused only if its facts hold no unknown and no attempt, as converged only if they list the current attempt as sent, as unknown only on an unknown attempt or a marker |
| ExecutionTheorems.HolderKeptIff | internal/execution/claim.go:292-300 | over any stretch of a run a holder keeps its claim if and only if nothing in it takes the claim after expiry or a stall, releases it or revokes it |
| Leases.TakenIff | internal/execution/claim.go:22-40 | in every run another worker gets an active claim if and only if its last acquisition or renewal is at least ttl old or its last progress at least the stall window old, and no issue holds the row; a takeover needs the stall |
| Leases.ExpiryIs | internal/execution/claim.go:45-48 | in every reachable state the expiry is ttl after the last acquisition or renewal of the run |
| Leases.ProgressIs | internal/execution/claim.go:50-53 | in every reachable state the progress mark is the time of the last acquisition, progress call, or step the driver added or closed |
| Leases.RenewalLasts | internal/execution/claim.go:45-48 | after a renewal the claim is current exactly until ttl later; a renewal is no progress |
| Leases.AcquisitionLasts | internal/execution/claim.go:22-40 | granted iff there is no active claim or it has expired or stalled; then current exactly until ttl later and stalled exactly from the stall window on |
| Leases.TakeoverLasts | internal/execution/claim.go:247-324 | the same for claim and takeover, with the entry that tells which it was |
| Leases.ProgressLasts | internal/execution/claim.go:50-53 | progress puts the stall off until the stall window later and extends nothing |
| Leases.EndedForGood | internal/execution/claim.go:55-57 | a released or revoked claim is free for anyone at once and tells how and when it ended |
| Leases.SweepFlagsOnce | internal/execution/claim.go:336-380 | a sweep flags a stalled active claim with one entry, and a second sweep does nothing |
| ExecutionTheorems.StepsInLeaseOrder | internal/execution/steps.go:110-132 | in every reachable state steps are issued in non-decreasing lease order, each by the owner of its version |
| ExecutionTheorems.StepsAndJournalAgree | internal/execution/steps.go:114-171 | in every reachable state at most one step is open, each step has exactly one opening entry, and exactly one closing entry with its state if it is terminal, none otherwise |
| ExecutionTheorems.OutcomesFitStates | internal/execution/lifecycle.go:119-135 | in every reachable state a converged step carries a definite outcome class, an unknown one an unknown class, a refused one none |
| StepJournal.EditKeepsLog | internal/execution/reconcile.go:276-312 | fenced driver and unfenced reconciler alike keep rows and journal in agreement |
| ExecutionTheorems.TerminalForever | internal/execution/steps.go:147-150 | a terminal step row never changes again |
| ExecutionTheorems.LogRebuildsState | internal/execution/intent.go:177-249 | replaying the state-changed rows from admitted gives the stored state; their number is the state version minus one; the outbox announces exactly the same transitions |
| ExecutionTheorems.RebuildIsPath | internal/execution/intent.go:108-139 | a rebuilt history is a legal path: every edge is in the table and starts where the last one ended |
| ExecutionTheorems.IntentMovesTogether | internal/execution/intent.go:228-249 | every operation of a run leaves intent, evidence and outbox events all as they were, or adds the same one legal transition to each: a lost compare-and-swap leaves nothing |
| ExecutionTheorems.NeverFails | internal/execution/reconcile.go:343-375 | no run ever moves an intent to failed |
| ExecutionTheorems.CompletedByAuthority | internal/execution/reconcile.go:119-131 | an intent becomes completed only by a reconcile whose authority read lists the current attempt as sent, confirmed, mined or included |
| ExecutionTheorems.ReopenedByAuthority | internal/execution/reconcile.go:339-348 | a reconciling intent goes to executing only by a reconcile for an owner whose authority read holds no unknown and no attempt |
| ExecutionTheorems.RevisionsInOrder | internal/execution/revision.go:68-170 | authority revisions are applied in strictly increasing version order, and every revised event follows its own transition and names the version it supersedes |
| ExecutionTheorems.NoCheckPassesFrozen | internal/execution/advance.go:175-181 | once a marker stands and no issue is in flight, none passes its check and no step is added, for the rest of the run |
| ExecutionTheorems.FreezeOutrunIff | internal/execution/advance.go:175-231 | while frozen, an operation issues a step or takes the intent to completed or executing if and only if it is a commit, still allowed by the rows, of a transaction that had checked before the marker |
| ExecutionTheorems.FreezeForever | internal/execution/reconcile.go:170-182 | a recorded marker is never cleared |
| ExecutionSoundness.DoKeeps | internal/execution/reconcile.go:44-139 | every operation keeps the whole invariant of an intent and takes nothing back: logs grow, terminal steps stay, versions do not decrease |
| ExecutionSoundness.PlanSound | internal/execution/reconcile.go:71-139 | every task a reconcile plans is justified by the facts it read and the markers it could see: why a step is closed as what, and why the intent moves where |
| Outcomes.UnknownPersists | internal/execution/reconcile.go:86-100 | with an unknown attempt the open step ends unknown with that attempt and class reconcile_required, and an executing intent goes to reconciling |
| Outcomes.SentStates | internal/execution/reconcile.go:246-262 | facts confirm a send iff there is a current attempt and it is listed as sent, confirmed, mined or included |
| Outcomes.NoAttemptRefused | internal/execution/reconcile.go:102-117 | with no unknown, no attempt and no current one it ends refused, and for an owner a reconciling intent goes to executing |
| Outcomes.SentCompletes | internal/execution/reconcile.go:119-131 | with the current attempt listed as sent it ends converged with that attempt, and the intent completes |
| Outcomes.InconclusiveObserved | internal/execution/reconcile.go:133-138 | anything else is one observation and changes nothing |
| Outcomes.NothingOpen | internal/execution/reconcile.go:260-274 | without an open step confirmed-sent facts complete the intent, facts without unknown and attempt re-open a reconciling one for an owner, others change nothing |
| Outcomes.FrozenStepUnknown | internal/execution/reconcile.go:184-229 | frozen, the marker is added unless there is one, the open step ends unknown with the current attempt, and an executing intent goes to reconciling |
| Outcomes.FrozenNothingOpen | internal/execution/reconcile.go:184-229 | frozen without an open step, the marker is all that is added |
| Outcomes.UnreadableMarksStale | internal/execution/reconcile.go:55-61 | without an answer of the authority only the display is dated as possibly stale, from the first time on |
| Outcomes.DefiniteConverges | internal/execution/advance.go:282-357 | under the fence a definite class converges the step with its attempt, counts as progress and leaves the intent |
| Outcomes.UncertainReconciles | internal/execution/advance.go:358-392 | an unknown class or no send result ends the step unknown or refused with its attempt, takes an intent read as executing to reconciling, and is observed |
| Outcomes.OtherwiseNothing | internal/execution/advance.go:282-329 | without the fence, or with any other class, nothing changes |
| Outcomes.IssueSends | internal/execution/advance.go:200-231 | an issue adds one open step of its holder, counts as progress, and takes an intent read as claimed or revised to executing |
| Outcomes.RevisionMoves | internal/execution/revision.go:121-165 | a newer revision of a completed or failed intent revises it, with its evidence, its events and its display |
| Outcomes.RevisionShown | internal/execution/revision.go:99-113 | of a revised one it moves only the display, and only forward |
| Outcomes.RevisionIgnored | internal/execution/revision.go:89-145 | any other revision changes nothing |
| Outcomes.RefreshShows | internal/execution/projection.go:184-243 | a refresh shows the authority's answer unless it is older, or dates the display as possibly stale, with one entry each |
| Outcomes.ClaimedFirst | internal/app/withdrawalworker.go:646-659 | an admitted intent goes to claimed with its evidence and event, any other stays |
| Freezing.FrozenForGood | internal/execution/reconcile.go:211-229 | with each reconcile and each issue as one step, after a freeze no step is issued and an intent found completed or executing has not moved since |
| Freezing.FrozenReconcile | internal/execution/reconcile.go:173-229 | a whole reconcile of a frozen intent neither completes it nor makes it executing, and issues nothing |
| Freezing.FreezeRecorded | internal/execution/reconcile.go:184-209 | a freeze reported by the authority is on record when the reconcile ends |
| Freezing.RecordedOnceIff | internal/execution/reconcile.go:184-209 | in every run a freeze is recorded at most once if and only if no reconcile records one that somebody has recorded since it checked |
| Freezing.RecordedOnce | internal/execution/reconcile.go:184-209 | so it is whenever nothing comes between a reconcile's check and its recording |
| Freezing.FreezeRecognized | internal/execution/reconcile.go:146-168 | a condition freezes if and only if, lower-cased, it names a freeze or a lost lock, and its class is never empty |
| Freezing.WholeIsRun | internal/execution/reconcile.go:44-139 | a reconcile as one step, with or without an answer of the authority, equals its reads and transactions run without interruption |
| Freezing.WholeIssueIsRun | internal/execution/advance.go:107-235 | an issue as one step equals its check and its commit run without interruption |
| Freezing.FreezeClassRoundTrip | internal/execution/advance.go:439-457 | a recorded class is read back unchanged if and only if it holds no blank and no tab |
| Freezing.FreezeClassIs | internal/execution/reconcile.go:149-163 | with "freeze:" in the folded condition the class is the trimmed text after its first occurrence, or a lost lock when none follows |
| Freezing.FreezeClassNamed | internal/execution/reconcile.go:164-168 | without it the class is a lost lock iff a freeze or a lost lock is named anywhere, else there is none |
| Freezing.ClassCutShort | internal/execution/advance.go:439-457 | after the reconcile that records a freeze the class read back is the recorded one up to its first blank, so the same if and only if it holds none |
| Freezing.TwoWordClass | internal/execution/reconcile.go:146-168 | the condition "freeze:a b" is recorded as class "a b" and read back as "a" |
| FreezeRaces.TwoMarkers | internal/execution/reconcile.go:184-209 | a run in which two overlapping reconciles write two markers |
| FreezeRaces.StepAfterFreeze | internal/execution/advance.go:175-231 | a run in which a step is issued and the intent moves to executing after a freeze was recorded |
| FreezeRaces.CompletedAfterFreeze | internal/execution/reconcile.go:71-131 | a run in which a reconcile completes the intent after another has recorded a freeze |
| DisplayOrder.OrderIndependent | internal/execution/projection.go:66-95 | deliveries of the same updates in any order and with any repeats end in the same row, all six columns |
| DisplayOrder.EndsAtHighest | internal/execution/projection.go:66-95 | that row shows the highest version of each of the two streams, and is fresh if some read was at least as new as the row, else as fresh as before |
| DisplayOrder.DisplayTruthful | internal/execution/projection.go:12-24 | in every reachable state the displayed pair is one the intent really had and not ahead of it, and stale_since is set iff the row is possibly stale |
| DisplayOrder.DisplayMonotone | internal/execution/projection.go:97-123 | displayed versions never go back |
| ExecutionRows.StaleKeepsFirst | internal/execution/projection.go:113-123 | marking a row stale again keeps the first date and moves nothing else |
| ExecutionRows.ReadClearsStale | internal/execution/projection.go:79-95 | a read at the stored version or above clears staleness and leaves the intent state alone; an older one changes nothing; only a newer one moves the attempt |
| StoreCalls.CallsAreRuns | internal/execution/claim.go:107-409 | after every sequence of store calls, on any number of intents, each intent's rows and its issue in flight are where a run of its system ends |
| StoreCalls.CallsKeepRows | internal/execution/advance.go:107-392 | so after any calls every intent's rows satisfy the invariant of all runs |
| ExecutionStore.Store.Acquire | internal/execution/claim.go:107-120 | the acquisition call, for each end of the commit; the returned version is the one in the row, and the claim is current exactly until ttl later |
| ExecutionStore.Store.ClaimTx | internal/execution/claim.go:247-324 | the claim or takeover call; acquired and taken-over are reported exactly when they happened, and the claim is then current exactly until ttl later |
| ExecutionStore.Store.Renew | internal/execution/claim.go:124-160 | claim lost iff owner, version, status or expiry does not match; after a reported renewal the claim is current exactly until ttl later |
| ExecutionStore.Store.Release | internal/execution/claim.go:179-188 | ends an active claim of this owner and version, else changes nothing |
| ExecutionStore.Store.RevokeClaim | internal/execution/claim.go:391-409 | an error without evidence; otherwise applied is reported iff rows changed, which needs the exact stored version |
| ExecutionStore.Store.SweepStalls | internal/execution/claim.go:336-380 | flags exactly the stalled unflagged claims, one event each, and counts them |
| ExecutionStore.Store.CheckIssue | internal/execution/advance.go:107-200 | passes if and only if the claim is current, the intent open, the gates open and no marker stands, and then holds the claim row's lock |
| ExecutionStore.Store.CommitIssue | internal/execution/advance.go:201-235 | writes the step and the transition on the rows of that later moment unless the open-step index refuses, for each end of the commit; issued is reported exactly when a step was added |
| ExecutionStore.Store.IssueStep | internal/execution/advance.go:107-235 | with nothing in between the two are the guarded issue operation; an absent intent is refused |
| ExecutionStore.Store.ConvergeStep | internal/execution/advance.go:282-392 | the statement sequence refines the fenced converge operation on whatever intent it has read, for each end of the commit |
| ExecutionStore.Store.AdvanceLoop | internal/execution/advance.go:239-289 | asks again exactly after an error that may pass or the class unavailable, at most the given number of times; converges on the first definite answer; retryable iff there was none or its class is unknown, and then nothing changed |
| ExecutionStore.Store.ReconcileIntent | internal/execution/reconcile.go:44-139 | the branching code is the reconcile of `Outcomes` on the first successful authority read, or marks the display stale |
| ExecutionStore.Store.ReadAuthority | internal/execution/reconcile.go:231-244 | the first successful read within the retries, with every earlier one failed, or none if all fail |
| ExecutionStore.Store.IsConfirmedSent | internal/execution/reconcile.go:246-258 | finds whether the current attempt is listed in one of the four sent states |
| ExecutionStore.Store.ApplyRevision | internal/execution/revision.go:71-201 | refines the revision operation on whatever intent was read before it, for each end of the commit; applied is reported exactly when the intent moved |
| ExecutionStore.Store.CatchUp | internal/execution/projection.go:125-155 | brings every display row to the stored intent state under the version guard and touches nothing else |
| ExecutionStore.Store.RefreshProjection | internal/execution/projection.go:184-243 | refines the forced refresh: the guarded update or the stale mark, with one entry each |
| OutboxTheorems.PublishedOnlyIfAcknowledged | internal/events/outbox.go:80-89 | in a run whose publishers mark only acknowledged ids, a row is published, and an event's row is gone, only if the broker acknowledged it |
| OutboxTheorems.AckNeedsTruth | internal/events/outbox.go:80-89 | a marking statement keeps that so if and only if every held row it names was acknowledged |
| OutboxTheorems.StateEdges | internal/events/outbox.go:37-45 | every operation changes a publish state only along an allowed edge and deletes none but old published rows |
| OutboxTheorems.LeaseExclusive | internal/events/outbox.go:47-79 | until its lease expires or its owner acts, a claimed row stays exactly as it is through any run of the others |
| OutboxTheorems.BatchExact | internal/events/outbox.go:47-66 | a claim takes only due, unleased, unlocked rows, at most the limit, and leaves such a row out only when the batch is full of smaller ids |
| OutboxTheorems.ClaimedRowReturns | internal/events/outbox.go:68-79 | a claim counts one attempt, and the row is claimable again exactly from its expiry on |
| OutboxTheorems.SettledRowClaimable | internal/events/outbox.go:80-123 | a settled row keeps its event and its attempts; it is claimable never if published or blocked, exactly from its next attempt on if released, prunable exactly when published before the cut, and failures leave their class |
| OutboxTheorems.UnblockReturns | internal/events/outbox.go:125-133 | an unblock returns exactly the blocked row, without its error, to be claimed at once |
| OutboxTheorems.MarkerTellsLoss | internal/events/append.go:118-142 | every obligation marker belongs to an inserted event whose row is present or was acknowledged |
| OutboxTheorems.DoKeeps | internal/events/outbox.go:55-173 | every statement keeps the table's shape: rows are the inserted events in order, with leases only while pending, errors while blocked, and a marker each |
| OutboxTheorems.DoAcknowledged | internal/events/outbox.go:80-173 | every truthful statement keeps published and missing rows acknowledged |
| AppendVersions.VersionsCountUp | internal/events/append.go:162-212 | in every run in which an aggregate's emissions hold their lock and its highest row is not pruned, its versions are exactly 1, 2, 3, ... |
| AppendVersions.InsertionCountsIff | internal/events/append.go:171-181 | an insertion continues the count if and only if the transaction has read how far it had come |
| AppendVersions.PruneKeepsNextIff | internal/events/outbox.go:165-173 | a prune leaves an aggregate's next version unchanged if and only if its highest row stays |
| AppendVersions.PrunedHeadReusesVersion | internal/events/outbox.go:169-173 | a run of publish, prune and append that gives two events version 1 and one identity |
| AppendVersions.NextVersion | internal/events/append.go:162-212 | in such a run the stored maximum is the number of insertions so far: no-ops, conflicts, publishing and pruning consume no version |
| AppendVersions.IndexCountsUp | internal/events/append.go:92-116 | without the lock too a business object's versions are 1, 2, 3, ... while its rows are kept, however its emissions overlap and whatever earlier maxima they read |
| AppendVersions.OverlappingLogsShareVersion | internal/events/append.go:66-90 | two log emissions of one aggregate that read the same maximum get the same version |
| AppendVersions.BusinessInsertsIff | internal/events/append.go:92-116 | a business-object append inserts if and only if no row stands at the version after the one it read; otherwise it is a no-op or a conflict |
| AppendVersions.BusinessInserts | internal/events/append.go:56-64 | with the lock it always inserts, at the version above every row |
| AppendVersions.LogInsertsIff | internal/events/append.go:66-90 | a log event is inserted if and only if no row holds its log, so a pruned one is inserted again under its old identity |
| AppendVersions.LogAppendIdempotent | internal/events/append.go:66-90 | the same log again is a no-op with the stored version, with other content a conflict |
| AppendVersions.BusinessAppendAgain | internal/events/append.go:92-116 | a business object emitted again from the same read is a no-op with the stored version, with other content a conflict |
| AppendVersions.InsertedRow | internal/events/append.go:150-212 | an insertion adds one pending row with the next id, its event and its marker, claimable at once |
| AppendVersions.BusinessIdsDistinct | internal/events/append.go:214-220 | no two business-object events of such an aggregate share an identity |
| NaturalKeys.BusinessKeyInjective | internal/events/catalog.go:263-267 | kinds without a bar keep the keys of different objects and versions apart, whatever the ids contain |
| NaturalKeys.VersionsHaveKeys | internal/events/catalog.go:263-273 | two versions of one object never share a key |
| NaturalKeys.BarredKindsCollide | internal/events/catalog.go:265-267 | with a bar in a kind two objects share a key |
| NaturalKeys.EvmKeyInjective | internal/events/catalog.go:257-261 | log keys are apart when block hashes hold no bar |
| NaturalKeys.DocumentedForms | internal/events/catalog.go:257-267 | both keys in their documented form, on one example each |
| Publisher.Publisher.ClaimBatch | internal/events/publisher.go:224-292 | claims the due, unleased, unlocked pending rows in id order up to the batch size and holds all of them afterwards |
| Publisher.SelectBatch | internal/events/outbox.go:55-66 | the claiming select returns exactly that batch |
| Publisher.Publisher.PublishClaimed | internal/events/publisher.go:343-417 | whatever the sink reports, exactly the held rows of the target end as it said: acknowledged published now, failed for good blocked with their class, failed for now pending after their delay, unreported pending at once; acked, released and blocked add up to the rows settled, also after a database error; only what the sink acknowledged is marked as published |
| Publisher.PublishingIsRun | internal/events/publisher.go:343-417 | what a settlement leaves is a run of its own statements on the table; a sink that reports only acknowledged ids makes it truthful, and it keeps the table's invariants |
| Publisher.AllClaimsAccounted | internal/events/publisher.go:400-417 | while the owner holds the batch, acked plus released plus blocked is the number claimed |
| Publisher.Publisher.ReleaseTransient | internal/events/publisher.go:438-461 | releases exactly the given rows, grouped by delay, and counts them once |
| Publisher.Publisher.CountGuardedUpdates | internal/events/publisher.go:498-516 | applies one guarded statement and returns the number of rows it changed |
| ConsumerTheorems.ExactlyOnce | internal/events/consumer.go:586-669 | in every interleaving each event's effect is applied at most once, and exactly when its inbox row exists |
| ConsumerTheorems.OrderPerAggregate | internal/events/consumer.go:845-865 | per aggregate the applied versions strictly increase and the stored maximum is the last |
| ConsumerTheorems.OneOpenRowPerEvent | internal/events/quarantine.go:89-127 | in every interleaving an event has at most one open quarantine row |
| ConsumerTheorems.ContiguousIff | internal/events/consumer.go:611-660 | the applied versions of an aggregate are consecutive from the first one if and only if no commit is a late baseline of it |
| ConsumerTheorems.ApartContiguous | internal/events/consumer.go:611-660 | they are as long as no two first-seen transactions of the aggregate overlap, whatever else does |
| ConsumerTheorems.AtomicAppliesContiguous | internal/events/consumer.go:553-567 | and with atomic apply transactions, even if others were begun and never end |
| ConsumerTheorems.ThreeThenFive | internal/events/consumer.go:611-650 | a run of two overlapping first-seen transactions that applies 3 and then 5 |
| ConsumerTheorems.NoLoss | internal/events/consumer.go:671-701 | every offset below the durable progress is applied, quarantined or superseded |
| ConsumerTheorems.BrokerOffsetsBehind | internal/events/consumer.go:1153-1157 | no offset committed to the broker is ahead of the durable progress |
| ConsumerTheorems.ResumeSkipsNothing | internal/events/consumer.go:1061-1094 | wherever a partition resumes, with or without readable progress, every earlier offset is accounted for |
| ConsumerTheorems.ResumesAtProgress | internal/events/consumer.go:1081-1086 | with a readable progress row the resume point is that row |
| ConsumerTheorems.ResumesAtHighest | internal/events/consumer.go:1061-1094 | the resume point is the highest of what is known, and the start of the topic if nothing is |
| ConsumerTheorems.StepEvolves | internal/events/consumer.go:837-873 | every step of every worker leaves the inbox, versions, progress, quarantine and effects at least where they were |
| ConsumerSoundness.DoKeeps | internal/events/consumer.go:586-798 | every step keeps the consumer's invariant |
| ConsumerRuntime.Consumer.ApplyOnce | internal/events/consumer.go:586-701 | each report tells what was left behind; a fault hides a commit only when it was ambiguous |
| ConsumerRuntime.Consumer.Process | internal/events/consumer.go:444-517 | at most RetryLimit + 1 apply transactions for every failure schedule and company of other workers, also when it aborts; every attempt but the last met a passing fault below the limit and slept, or found a gap that then closed; the last one decides, and the first one that no fault stops does what an undisturbed message does |
| ConsumerRuntime.SetAsideForGood | internal/events/consumer.go:494-514 | set aside as failing before the attempts are used up, or as not retryable, only for a fault that does not pass |
| ConsumerRuntime.RetriesThrough | internal/events/consumer.go:494-502 | faults that pass are survived: the first attempt without one is made, and if it settles the message that is the result |
| ConsumerTables.AsideKept | internal/events/consumer.go:762-798 | setting aside keeps the message whole, with its reason and attempts, in an open row, unless it has one |
| ConsumerTables.ClosedAs | internal/events/quarantine.go:129-147 | closing changes an open row alone, to the status asked for |
| ConsumerRuntime.Consumer.WaitForGap | internal/events/consumer.go:708-738 | probes until one finds the gap closed, one fails, or the window ends, letting the others run in between; reports exactly what the last one found |
| ConsumerRuntime.Consumer.QuarantineMessage | internal/events/consumer.go:762-798 | quarantine row and progress together, at most one open row per event |
| ConsumerRuntime.Consumer.Consume | internal/events/consumer.go:1133-1158 | marks exactly the processed prefix of a batch; every marked record is settled |
| ConsumerRuntime.Consumer.Replay | internal/events/quarantine.go:457-546 | a used operation id replays nothing; with failing marks and audit writes too, an id is recorded or answered only when every candidate is settled, and an answer read back is what stands under the id; counts add up |
| ConsumerRuntime.AttemptIsBeginCommit | internal/events/consumer.go:586-669 | an uninterrupted apply transaction is a begin and a commit of the interleaved system |
| ConsumerRuntime.OthersAreFair | internal/events/consumer.go:837-873 | the steps of other workers satisfy what the code relies on |
| ConsumerReplay.ReplaysConverge | internal/events/quarantine.go:503-525 | from maximum b, passes that each offer all versions up to m, in any order, reach m within m - b passes |
| ConsumerReplay.PassRaises | internal/events/quarantine.go:503-525 | each pass that offers the next version raises the maximum |
| ConsumerReplay.ReplaysKeep | internal/events/quarantine.go:713-724 | no effect repeats, order is kept and no progress moves |
| ConsumerReplay.ResolveAggregate | internal/events/quarantine.go:560-629 | at most the limit, no event twice, complete below the limit; quarantine rows first, and an event that has one is taken from it |
| ConsumerReplay.RowReplayed | internal/events/quarantine.go:503-525 | a replay closes the open row it came from, under its operation id, unless the message is set aside again; it changes no other row |
| Pipeline.DoKeeps | internal/execution/intent.go:171-249 | the outbox holds for every intent exactly the events it emitted, and the consumer only events that were emitted |
| EndToEnd.AppliedAreReal | internal/execution/intent.go:195-249 | however publishers repeat and reorder and workers race, the events applied for an intent are its own, in order and without repeats, unless a prune has taken that intent's highest row |
| EndToEnd.EndToEnd | internal/events/consumer.go:586-669 | without a late baseline of that intent the state changes applied for it are a contiguous stretch of the transitions in its journal |
| EndToEnd.CaughtUp | internal/events/consumer.go:671-701 | once the newest event of an intent has passed the consumer without being set aside, every event from the first applied one to the newest has been applied |
| EndToEnd.PublishedIsDelivered | internal/events/publisher.go:419-432 | with truthful sinks the event of a published row is in the broker log, for the consumer to find |
| Backoff.RetryDelay | internal/events/outbox.go:181-209 | the loop computes the specified 64-bit delay |
| Backoff.DelayExactIff | internal/events/outbox.go:175-209 | every delay from the first attempt on is min(cap, base * 2^(attempt-1)), with the defaults for base and cap, if and only if no doubling below the cap overflows |
| Backoff.SmallCapExact | internal/events/outbox.go:181-209 | so for every cap up to 2^62 |
| Backoff.LargeCapWraps | internal/events/outbox.go:190-208 | a larger cap can give a delay of zero |
| TrackingScan.VisitedExactlyOnce | internal/app/withdrawalworker.go:129-157 | between two resets every lasting candidate is visited exactly once, whoever else comes and goes |
| TrackingScan.FixedSetRotation | internal/app/withdrawalworker.go:34-38 | a fixed set of n candidates is walked in order by n / 32 + 1 scans |
| TrackingScan.VisitsAscend | internal/app/withdrawalworker.go:109-111 | a rotation is one strictly ascending walk |
| TrackingScan.Tracker.ScanTracking | internal/app/withdrawalworker.go:133-157 | returns the page after the cursor and moves the cursor |
| TrackingScan.Tracker.Rotate | internal/app/withdrawalworker.go:129-157 | successive scans from the head until their own cursor is there again visit every lasting candidate exactly once, in order, and a fixed set of n in n / 32 + 1 scans |
| TrackingScan.CursorTells | internal/app/withdrawalworker.go:150-155 | the cursor is back at the head exactly after a short page and otherwise the last key of the page |
| LoadGuard.OneLoadPerKey | internal/cache/cache.go:416-455 | in every interleaving at most one load per key is running |
| LoadGuard.LoadsBounded | internal/cache/cache.go:325-349 | at most the configured number of loads is running |
| LoadGuard.SlotsReturned | internal/cache/cache.go:331-336 | when nobody is inside, every slot has been returned |
| LoadGuard.OwnResult | internal/cache/cache.go:303-323 | a caller that falls back gets what its flight came to: a value iff that load of its own key ended well, its error if not, an exhausted guard only if the leader gave up |
| LoadGuard.EndRecorded | internal/cache/cache.go:338-349 | how a load is recorded to have ended is what its loader answered |
| LoadGuard.NobodyStuck | internal/cache/cache.go:436-455 | from every reachable state every caller can still return |
| LoadGuard.SlotIsFree | internal/cache/cache.go:328-333 | while fewer than the limit hold a slot a leader that wants one gets it and loads its own key |
| ChainList.Parse | internal/config/config.go:1702-1722 | accepts a string iff it is the printing of a nonempty strictly ascending list of positive 64-bit ids, and returns that list |
| ChainList.PrintInjective | internal/config/config.go:1699-1702 | distinct lists print differently |

## Left out

- ExecutionStore.Store.ReconcileIntent: states a reconcile that nothing interrupts; interruption, rollback and ambiguous commits are covered by the sessions of `ExecutionSystem`.
- ExecutionStore.Store.IssueStep: the gates are one flag; its checks are one moment and its statements another, and a failed statement is a rollback.
- ConsumerRuntime.Consumer.ApplyOnce: one uninterrupted transaction; the window between its read and its commit is the `Begin` and `Commit` of `ConsumerSystem`.
- ConsumerRuntime.Consumer.Process: the deadline and the step of the gap wait are a number of polls; the jittered sleep is a call that may fail.
- ConsumerReplay.ResolveAggregate: one of four replay scopes; the others select by id, time or offset with the same rules.
- Backoff.RetryDelay: without the random jitter.
- TrackingScan.Tracker.ScanTracking: the query is given as the ordered candidates of the moment; which intents are candidates is not modelled, and an intent id is its rank in the collation.
- LoadGuard: a panicking loader, cache hits, the epoch and freshness of cached values.
- Publisher: the sink itself, gauges and lag; a settling statement that fails is rolled back.
- Envelope parsing, the event catalog, payload scan and chain-identity check; an empty topic name.
- Admission checks and the recovery, grant, scope and binding gates beyond one flag.
- The nonce, signer, indexer, recovery and transaction lifecycle packages; HTTP handlers, commands, configuration other than the chain list, metrics and logging.
- Operator audit other than one result per replay operation id.
- Freezing.FreezeRecognized: lower-casing leaves letters that do not become ASCII as they are, so a class that holds such letters keeps their case.
- Progress over real time: heartbeats, renewal cadence, scan intervals.
