# Verified models of the Syscoin backend's protocols and encoders

The service answers requests in code that runs without interruption between two `await`s and keeps
its state in SQL statements that are atomic one by one. Everything hard about it happens in between:
a log scan that is resumed by another process, a vote whose answer arrives after the deadline, two
dispatcher workers on one row, a watchdog beside a tick that may still finish. This project models
those parts in Dafny and proves what they keep over every run, and it models the exact encoders
whose output is hashed or paid out.

Each protocol has the same two layers. A class holds the fields and tables that the original
updates in place; each of its methods is one uninterrupted segment or one statement, and its
`ensures` gives the whole new state as a function of the old one. Beside it a state machine lets
these segments follow each other in any order, with any answers from the network, the clock and the
database, and lemmas prove invariants of all its runs. The run lemmas speak of the state machine;
what ties the classes to it is that each method's `ensures` equates its effect with one step or one
statement of the machine. The pool indexer is a class only: there one
job is one long sequence of requests, and the environment is a family of answers indexed by the
moment of the request.

| Files | Part of the system |
|---|---|
| `PoolChain`, `PoolExample`, `PoolStore`, `PoolRows`, `PoolBranch`, `PoolService`, `PoolIndex`, `JobQueue` | the resumable indexer of deposits and withdrawals |
| `RecoveryTables`, `RecoveryRecord`, `RecoverySchedule`, `RecoveryRuns`, `RecoveryRepo` | the recovery monitor and its outbox |
| `VoteReceipts`, `VoteCache`, `VoteRuns`, `VoteRepo`, `RelayPool` | vote relay, receipts and reconciliation |
| `SubmissionTable`, `DispatcherRuns`, `DispatcherReasons`, `SubmissionRepo` | proposal submissions and their dispatcher |
| `StatsScheduler` | the self-rescheduling statistics service |
| `SentryJournal` | the publication journal of sentry operations |
| `Amounts`, `Utf`, `CanonicalJson`, `HashPreimage` | money, canonical JSON and the hash preimage |
| `Bits`, `Base32`, `MfaChallenges` | base32 secrets and second-factor challenges |
| `Answers` | optional values and failing answers, shared |

## What is assumed of the world

- **Pool indexer.** `Honest` says what a node must do for the two theorems about branches: a block
  hash fixes its history and the pool's root, an abandoned block is not shown again, and headers, logs
  and roots are those of the chain shown at that moment. `Serves` says what it must do for the
  theorems about what a job achieves: it answers every request of a stretch of time, refuses at most
  log ranges of more than one block, replaces no block meanwhile, and the pool's own events are in
  order. Nothing is assumed for validity of files and for termination. One
  request, although it may be several HTTP calls, is one moment. A crash in the middle of a job is a
  job whose remaining requests and file operations fail, followed by a restart.
- **Recovery.** One subscription is modelled; other subscriptions touch other rows only. A notice's
  position in the outbox stands for its row id. What delivery decides (mail, readbacks, back-off) is
  an arbitrary mark on an arbitrary notice.
- **Votes.** Answers of `voteraw`, the deadline and the reads of the chain come in any order. Reading
  the clock twice without an `await` in between gives one time. A result that needs no call to the
  node is recorded by the segment that takes the entry.
- **Dispatcher.** Answers of Core are classified already (terminal, duplicate, transient, a hash, a
  malformed hash). Any number of calls and attach requests interleave at every statement, and any
  statement may fail. Row ids are never used twice (AUTOINCREMENT); the three unique indexes are
  those of `db/migrations/001_init.sql`.
- **Sentry.** The clock does not go back.

## What turned out different from what one may expect

- **Vote receipts are a join only per latest vote time.** Relay completions may arrive in any order
  exactly when all results with the latest vote time carry one signal (`OrderFreeExactly`). With two
  signals at one time the first to complete stays (`TwoSignalsKeepTheFirst`). Results of one signal
  always fold to the lexicographic maximum.
- **`reconcile_needed` has a second way down.** Besides the transaction that brings the cursor to the
  observed head, a new enrolment clears it, together with the operations it was about
  (`lib/recoveryRepository.js:226-236`). `ClearedOnlyWhenReconciled`
  states both for a step, `RaisedUntilReconciled` for a run.
- **A queued indexer job can be stranded.** A job that comes in after the drain loop has ended and
  before its completion callback has run stays queued with nothing working on it. The loop itself
  never ends with a job waiting (`LoopEndsEmpty`); `StrandedExactly` says, for every run, that the
  callback strands a job exactly if a due one came in since; `StrandedIsReachable` is such a run, and
  `StrandedWaitsForAnother` what gets it moving again: a due job of another pool, not of its own.
- **Lone surrogates.** UTF-8 alone would confuse them (`LoneSurrogatesCollide`); the canonical payload
  stays injective because the JSON escaping leaves none of them.

## Model

| member | source | states |
|---|---|---|
| PoolChain.FoldConcat | lib/privacyIndex.js:130-150 | folding deposits and withdrawals chunk by chunk is folding them all at once |
| PoolChain.Chain.LogsOfSplit | lib/privacyIndex.js:110-155 | the logs of a range are those of its two parts in order |
| PoolChain.Chain.LogsOfAncestor | lib/privacyIndex.js:82-86 | logs below a block are the same seen from every descendant of it |
| PoolRows.AppendKeepsValid | lib/privacyStore.js:9-39 | appending an accepted chunk keeps distinct field elements, the leaf limit and no more nullifiers than leaves |
| PoolRows.CheckRow | lib/privacyIndex.js:131-146 | a row is refused exactly when it does not extend the index: range, order, block identity, field, leaf index, limits, repetition |
| PoolRows.CheckRows | lib/privacyIndex.js:126-147 | a chunk is accepted exactly when every row is admissible after those before it |
| PoolRows.OrderedExactly | lib/privacyIndex.js:129-137 | comparing neighbouring rows checks that all rows are in order of block and log, with transactions in order and one hash each |
| PoolStore.DistinctCount | lib/privacyStore.js:9-12 | the size of the set equals the length exactly if no value repeats |
| PoolBranch.SameBranch | lib/privacyIndex.js:148-158 | a block between two sightings of a descendant belongs to that descendant's history |
| PoolBranch.FreshIsPending | lib/privacyIndex.js:87-100 | new work on a verified snapshot, or on nothing, starts on the target's branch |
| PoolBranch.ChunkAgrees | lib/privacyIndex.js:110-156 | if the target is seen again later, the chunk's boundary and rows came from its branch |
| PoolBranch.ChunkKeepsPending | lib/privacyIndex.js:148-155 | committing a chunk keeps unfinished work either on its target's branch or bound to be found out |
| PoolBranch.FencedChunkIsOneBranch | lib/privacyIndex.js:115-148 | rows read between two sightings of the chunk's last block are that block's own history |
| PoolBranch.FixedChainAgrees | lib/privacyIndex.js:60-195 | on a chain without reorganisations the checkpoint is the one-shot fold up to its scanned block |
| PoolService.ChunkIsAdmissible | lib/privacyIndex.js:126-147 | every chunk of a sound history passes the row check on top of the index so far, wherever it is cut |
| PoolService.FewerDeposits | lib/privacyIndex.js:104-105 | the pool never counts fewer leaves at the target than are indexed below it |
| PoolService.ServedShows | lib/privacyIndex.js:53-177 | below a block shown by a serving node all requests are answered from one history |
| PoolService.ServedIsOrdered | lib/privacyIndex.js:110-156 | that history splits into chunks that pass the check, and the pool counts its deposits |
| PoolIndex.Index.SaveCheckpoint | lib/privacyStore.js:68-91 | the file is replaced entirely or not at all; what is saved always passes the validator |
| PoolIndex.Index.Reset | lib/privacyIndex.js:48-52 | after an abandoned block nothing is kept in memory, and the files go, snapshot first |
| PoolIndex.Index.Restart | lib/privacyIndex.js:28-41 | memory is rebuilt from readable files; the saved snapshot is only a candidate |
| PoolIndex.Index.VerifySaved | lib/privacyIndex.js:53-59 | a snapshot passes exactly if the index is open, its block is not above the head and is seen canonical now, and the pool's leaf count and root at it are the snapshot's |
| PoolIndex.Index.VerifyCheckpoint | lib/privacyIndex.js:82-86 | a checkpoint resumes exactly if its target is not above the head and both its target and its scanned block are seen canonical now |
| PoolIndex.Index.Prepare | lib/privacyIndex.js:71-101 | succeeds exactly if the head is answered and what is saved stands; then the checked snapshot is served and the work chosen, unfinished work only being dropped for a newer snapshot, and every snapshot stays a fold of one branch |
| PoolIndex.Index.FetchChunk | lib/privacyIndex.js:113-125 | the adaptive read ends after at most thirteen attempts with a chunk inside the target, and never fails while the node serves |
| PoolIndex.Index.ThirteenHalvings | lib/privacyIndex.js:113-125 | a range of at most 5000 blocks cannot be halved more than twelve times |
| PoolIndex.Index.ReadChunk | lib/privacyIndex.js:111-147 | a chunk is read and checked completely before anything is kept of it |
| PoolIndex.Index.Commit | lib/privacyIndex.js:149-155 | the checkpoint grows by exactly the chunk's deposits, withdrawals and blocks; three sparse full chunks in a row double the span up to its bound |
| PoolIndex.Index.ScanChunk | lib/privacyIndex.js:110-156 | one chunk is committed entirely, from one branch, or not at all; while the node serves it is committed and is the view's |
| PoolIndex.Index.ScanAll | lib/privacyIndex.js:108-156 | the chunk loop is bounded, advances monotonically, and ends at the target, after all its chunks, or closed or expired |
| PoolIndex.Index.Publish | lib/privacyIndex.js:157-172 | what is published is the fold up to a target that was seen canonical at the fence, with the pool's own root; it succeeds exactly if both files are written |
| PoolIndex.Index.Finish | lib/privacyIndex.js:158-177 | a complete scan with the pool's own leaf count is published, an incomplete one saved, each with its retry time and the error cleared, and fails exactly if the count differs or a file is not written |
| PoolIndex.Index.Attempt | lib/privacyIndex.js:70-177 | the failing part of a job, with a bound on its requests |
| PoolIndex.Index.Recover | lib/privacyIndex.js:178-194 | what each kind of failure throws away and keeps, when it is retried and whether it counts as an error |
| PoolIndex.Index.Sync | lib/privacyIndex.js:60-206 | a job ends after a bounded number of requests with one of the three retry times, keeps all files valid, and serves only folds of one branch seen canonical during the job; while the node serves it raises no error, leaves everything as it was if the snapshot is at the head, and otherwise publishes its target or saves at least one block further for every chunk |
| PoolIndex.Index.CatchUp | lib/privacyIndex.js:60-209 | while the node serves and the head stays, jobs end with a snapshot at the head, within a number of jobs that the blocks left to scan determine |
| PoolIndex.Index.ServedStart | lib/privacyIndex.js:71-101 | a node that serves the chain serves the history below its head, and whatever was kept from the branch of that head belongs to it |
| PoolIndex.Index.Life | lib/privacyIndex.js:60-195 | over any life of jobs and crashes: files valid, snapshots served and saved folds of one branch; on a fixed chain the checkpoint in memory and the saved one are the one-shot fold |
| PoolExample.HonestIsPossible | lib/privacyIndex.js:148-158 | the assumptions about the node are met by one that answers every request, with and without a reorganisation that changes events |
| PoolExample.ServiceIsPossible | lib/privacyIndex.js:60-195 | the assumptions about a node that serves are met, for a pool with a deposit in every block until its tree is full |
| JobQueue.SyncingMeansOneJob | lib/privacyIndex.js:196-209 | over every run a pool counts as syncing exactly while it is queued once or worked on, never both |
| JobQueue.LoopEndsEmpty | lib/privacyIndex.js:200-208 | the loop ends only after a job and never with another one waiting, and only its completion callback leaves a queued job without a loop |
| JobQueue.WindowFills | lib/privacyIndex.js:196-209 | between the loop's end and its callback the queue keeps every due arrival until it is closed |
| JobQueue.StrandedExactly | lib/privacyIndex.js:196-209 | over every run: the completion callback leaves a job stranded exactly if a due job came in after the step with which the loop had ended, and the queue was not closed |
| JobQueue.StrandedWaitsForAnother | lib/privacyIndex.js:196-209 | then only a due job of another pool, or closing, changes anything |
| JobQueue.StrandedIsReachable | lib/privacyIndex.js:196-209 | such a state is reached by a run |
| JobQueue.Queue.Add | lib/privacyIndex.js:196-201 | one job per pool at most, and the loop starts with the first |
| RecoveryTables.LastOf | lib/recoveryRepository.js:98-108 | the newest matching notice of the current enrolment |
| RecoveryTables.TransitionKeyIsFresh | lib/recoveryRepository.js:129-150 | the persisted predecessor makes every transition key new, whatever hashes and outcomes repeat |
| RecoveryTables.QueueTransitionEffect | lib/recoveryRepository.js:129-150 | each call adds exactly one waiting notice of that kind |
| RecoveryTables.QueueUnsentEffect | lib/recoveryRepository.js:49-84 | however an earlier notice fared, one of that kind is now waiting or delivered, and nothing else changed |
| RecoveryTables.RearmTerminalEffect | lib/recoveryRepository.js:157-164 | no unsent result is left behind, and delivered or unrelated notices are untouched |
| RecoveryTables.LiveStays | lib/recoveryMonitor.js:58-119 | recording never takes a waiting or delivered notice back |
| RecoveryRecord.RecordOneEffect | lib/recoveryMonitor.js:58-119 | recording settles the operation: its row is the snapshot's, its notices complete, other rows untouched |
| RecoveryRecord.ChangeIsAnnounced | lib/recoveryMonitor.js:83-107 | a first sight, a new result, a resumption and a moved deadline each leave a fresh waiting notice |
| RecoveryRecord.RecordAllEffect | lib/recoveryMonitor.js:42-121 | every candidate is settled at the end, and operations not listed keep their rows |
| RecoveryRecord.RecordingAgainChangesNothing | lib/recoveryMonitor.js:42-121 | the same observation recorded again adds no outbox row and changes none |
| RecoverySchedule.StateFollowsSchedule | lib/recoveryMonitor.js:4-24 | the stored state by the schedule alone: orphaned, executed, canceled, or by block time on three intervals pending, ready and expired; no longer current, expired or invalidated by its deadline |
| RecoverySchedule.RowFollowsSchedule | lib/recoveryMonitor.js:58-80 | the stored times are those of the schedule and the delays while the operation is current, otherwise those stored before |
| RecoverySchedule.NotRecordable | lib/recoveryMonitor.js:64 | an operation never stored and not current, or not scheduled, is not recorded |
| RecoverySchedule.TimeOnlyMovesForward | lib/recoveryMonitor.js:4-24 | with the same schedule a later block never brings an operation back from ready to pending or from expired to either |
| RecoverySchedule.OwnerIsTold | lib/recoveryMonitor.js:83-108 | the kind of the notice that waits after a change, a first sight or a moved deadline, by the schedule |
| RecoverySchedule.NothingElseIsTold | lib/recoveryMonitor.js:42-121 | no notice of another kind is queued or re-armed |
| RecoverySchedule.ReminderExactly | lib/recoveryMonitor.js:109-118 | a reminder waits or was sent exactly if there was one, or the operation is pending, its reminder time has come and its initiation was delivered |
| RecoveryRuns.ListingIsComplete | lib/recoveryRepository.js:10-15 | the limit of twenty rows never hides an active operation |
| RecoveryRuns.CommittedEffect | lib/recoveryMonitor.js:216-264 | the final transaction announces everything active, drops nothing stored, and at the head leaves every stored operation in its state at that head |
| RecoveryRuns.StepKeepsInv | lib/recoveryMonitor.js:128-272 | well-formed tables, one active operation, contiguous ranges and a job that knows about the flag survive every step |
| RecoveryRuns.ObservationIsAnnounced | lib/recoveryMonitor.js:158-180 | after every committed observation each pending or ready operation has a scheduled notice of this enrolment waiting or sent |
| RecoveryRuns.ClearedOnlyWhenReconciled | lib/recoveryRepository.js:277-289 | the flag goes down only with the transaction that reaches the observed head with every operation stored before still stored and re-recorded there, or with a new enrolment |
| RecoveryRuns.RaisedUntilReconciled | lib/recoveryMonitor.js:187-203 | over every run a raised flag stays raised until such a step |
| RecoveryRuns.ForkIsRemembered | lib/recoveryMonitor.js:181-193 | over every run from a detected fork the flag is raised, and every update of that enrolment knows it, until the history is settled |
| RecoveryRuns.ForkIsKnownAtOnce | lib/recoveryMonitor.js:181-193 | the flag is durable before anything else of the update can fail |
| RecoveryRuns.RunKeepsInv | lib/recoveryMonitor.js:128-278 | the invariant holds over every interleaving of updates, delivery, disabling and enrolling |
| RecoveryRuns.ContiguousCovers | lib/recoveryMonitor.js:204-206 | the log ranges read since the last rewind leave no block out |
| RecoveryRuns.ForkIsDetected | lib/recoveryMonitor.js:181-193 | a fork is detected exactly if the chain is shorter than the cursor or shows another block there; then the flag is raised, the scan starts over before the anchor and every stored operation is read again |
| RecoveryRuns.ForkIsAnnounced | lib/recoveryMonitor.js:158-203 | a detected fork is announced, under the hash of the head |
| RecoveryRuns.UpdateStartsFromRow | lib/recoveryMonitor.js:142-157 | an update starts from the stored cursor, flag and enrolment |
| RecoveryRuns.EarlyResultRaisesFlag | lib/recoveryMonitor.js:158-180 | a result seen before the logs up to it are read raises the flag |
| RecoveryRuns.ResultAtHeadRaisesNothing | lib/recoveryMonitor.js:158-180 | with the logs read up to the head, what is observed raises no flag |
| RecoveryRuns.CommitMovesCursor | lib/recoveryMonitor.js:204-264 | a commit reads exactly the blocks after the cursor, at most two thousand, moves the cursor to the last one, and is healthy and clears the flag at the head |
| RecoveryRuns.LogEnriches | lib/recoveryMonitor.js:229-261 | a replayed log gives a row its transaction and place and nothing that the snapshot does not say |
| RecoveryRuns.ReplayedIsStored | lib/recoveryMonitor.js:206-261 | every replayed recovery that the chain still knows is read before the commit and stored with its transaction |
| RecoveryRuns.EnrolmentStartsOver | routes/recovery.js:203-221 | a new enrolment counts up the generation, starts at its block, is confirmed by a notice, and raises the flag exactly for a result seen at once |
| RecoveryRuns.EnrolledEffect | routes/recovery.js:203-221 | enrolling starts a new generation that holds at most the current operation, announced |
| RecoveryRepo.ReenrolmentStartsEmpty | lib/recoveryRepository.js:226-237 | no notice of an earlier enrolment counts in the new one |
| RecoveryRepo.Repository.QueueNotice | lib/recoveryRepository.js:22-37 | insert or ignore under the unique event key |
| RecoveryRepo.Repository.QueueUnsentActiveNotice | lib/recoveryRepository.js:49-84 | the statement sequence has the effect above |
| RecoveryRepo.Repository.QueueTransitionNotice | lib/recoveryRepository.js:129-150 | the statement sequence has the effect above |
| RecoveryRepo.Repository.RearmTerminalNotice | lib/recoveryRepository.js:85-108 | re-arms the newest unsent terminal notice, if it is newer than everything delivered |
| RecoveryRepo.Repository.MarkNotice | lib/recoveryRepository.js:324-344 | sending, superseding, retrying and deferring; a delivered notice is never superseded |
| RecoveryRepo.Repository.MarkReconcileNeeded | lib/recoveryRepository.js:268-276 | raises the flag for the current enrolment only, and says whether it did |
| RecoveryRepo.Repository.SetHealth | lib/recoveryRepository.js:277-289 | moves the cursor, and clears the flag only when told that history is covered |
| RecoveryRepo.Repository.DisableRow | lib/recoveryRepository.js:253-260 | disabling leaves nothing waiting |
| RecoveryRepo.Repository.Subscribe | lib/recoveryRepository.js:214-237 | enrols again only when disabled, into a new generation |
| RecoveryRepo.RecordOperation | lib/recoveryMonitor.js:58-119 | the branches of the loop body, and whether the operation was seen terminal |
| RecoveryRepo.RecordSnapshot | lib/recoveryMonitor.js:42-121 | the loop over the candidates records them all; its result tells whether any is terminal |
| VoteReceipts.UpsertNeverLowers | lib/voteReceipts.js:315-334 | no late or weaker result lowers a stored intent or its evidence |
| VoteReceipts.FoldIsMaximum | lib/voteReceipts.js:286-334 | folding results gives the greatest by time, outcome and strength, when the latest agree on a signal |
| VoteReceipts.OrderFreeExactly | lib/voteReceipts.js:286-334 | every order of completions leaves the same row exactly when the latest results agree on a signal |
| VoteReceipts.OneSignalSuffices | lib/voteReceipts.js:286-334 | results of one signal fold to their maximum in every order |
| VoteReceipts.TwoSignalsKeepTheFirst | lib/voteReceipts.js:315-334 | two signals at one vote time: the first to complete stays |
| VoteReceipts.DecideSkipsExactly | lib/voteReceipts.js:637-716 | which stored rows hold or skip a submission, and that no others do |
| VoteReceipts.SuppressionEnds | lib/voteReceipts.js:650-715 | only an uncertain row holds an entry for good: any other vote is relayed again at latest when the row's freshness has run out, a changed one at once |
| VoteReceipts.RelayedSuppressesRepetition | lib/voteReceipts.js:693-710 | a relay that just succeeded suppresses exactly its own repetition, for exactly the window, whatever it replaced |
| VoteReceipts.OnChain | lib/voteReceipts.js:764-768 | the last vote listed under an outpoint and signal |
| VoteReceipts.UpsertReplacesExactly | lib/voteReceipts.js:286-334 | when a stored row is replaced, by time, signal, rank of the outcome and strength of the evidence |
| VoteReceipts.ChangedRowIsLeftAlone | lib/voteReceipts.js:774-783 | a row that changed since it was captured is not touched, whatever the chain shows |
| VoteReceipts.UnchangedRowFollowsChain | lib/voteReceipts.js:784-843 | what an unchanged row becomes: confirmed by a vote on chain, an uncertain one only by this vote or a later one; stale after the grace period; otherwise as it was |
| VoteCache.GetEffect | lib/voteReceipts.js:192-253 | a refresh gets a read begun then; others a read in flight or younger than the time-to-live; a current read in flight is shared |
| VoteCache.VotesCache.Lookup | lib/voteReceipts.js:192-253 | the lookup with its sweep has this effect |
| VoteCache.VotesCache.Settle | lib/voteReceipts.js:231-252 | an answer is stamped from its resolution, a rejection dropped, and only if the entry is still current |
| VoteCache.OthersAreKept | lib/voteReceipts.js:192-230 | a lookup leaves the reads of other proposals alone, except expired ones that its sweep drops |
| VoteCache.SettlingKeepsOthers | lib/voteReceipts.js:231-252 | an answer or a rejection changes the entry of its own read only |
| VoteRuns.StepKeepsInv | lib/voteReceipts.js:718-849 | a reconciliation that asked for a fresh read awaits one that began after it captured its receipts |
| VoteRuns.StepKeepsUnknown | lib/voteReceipts.js:784-800 | one step leaves an uncertain receipt exactly as it is or moves it for one of the four causes |
| VoteRuns.UnknownUntilCause | lib/voteReceipts.js:643-648 | until then every decision on the entry is to hold it |
| VoteRuns.LeavesOnlyByCause | lib/voteReceipts.js:743-845 | over every interleaving an uncertain receipt leaves only by a greater intent, a definite result of the same, an exact or later vote on chain, or a fresh read begun after the grace period that shows neither |
| VoteRepo.Index | lib/voteReceipts.js:764-768 | the loop builds the last vote of every outpoint and signal |
| VoteRepo.Receipts.Upsert | lib/voteReceipts.js:520-530 | the row is the join of the stored and the new one |
| VoteRepo.Receipts.DecideRelay | lib/voteReceipts.js:629-716 | the decision, and that it holds exactly the uncertain rows |
| VoteRepo.Receipts.ReconcileRow | lib/voteReceipts.js:774-843 | one reconciling write; none if the row changed since it was captured |
| VoteRepo.Receipts.Reconcile | lib/voteReceipts.js:769-848 | the transaction writes each captured row at most once and leaves changed rows alone |
| RelayPool.StepIsFinal | lib/gov.js:255-269 | results, settled calls and written receipts are final; a late answer changes nothing |
| RelayPool.RunIsFinal | lib/gov.js:413-560 | over every interleaving nothing decided is taken back |
| RelayPool.BatchOutcome | lib/gov.js:413-568 | one result per entry at its own index, each what its decision and the answer of its call say; at most one call per entry and none for held, skipped or rejected ones; receipts written exactly for votes taken, in doubt and refused; totals are the numbers of entries |
| RelayPool.ResultFollows | lib/gov.js:415-552 | a result is accepted exactly if skipped as delivered or taken by the node, not submitted exactly if rejected before or never sent, uncertain exactly if held or in doubt |
| RelayPool.ReceiptFollows | lib/gov.js:455-552 | a receipt is written exactly for a vote taken, in doubt, or refused unless it is known over a delivered receipt |
| RelayPool.SettledByTheFirst | lib/gov.js:455-493 | over every run a call is settled by its own answer, or by the deadline and then in doubt |
| RelayPool.DeadlineLeavesDoubt | lib/gov.js:413-493 | a call open at the deadline ends uncertain with a receipt that says so, whatever is answered afterwards |
| RelayPool.AnswerInTimeDecides | lib/gov.js:455-493 | an answer that comes first decides its entry for good |
| RelayPool.DecisionsFollowReceipts | lib/gov.js:351-381 | rejected, held, skipped or relayed, by the receipt |
| RelayPool.TotalsCount | lib/gov.js:561-568 | each total is the number of entries of its kind |
| RelayPool.CallsAreLimited | lib/gov.js:251-270 | over every run no more calls are open at once than the limit says, with as many workers as limit and entries allow |
| RelayPool.HeldEntryIsLeftAlone | lib/gov.js:351-381 | an entry whose receipt is uncertain or unreadable is neither submitted nor written |
| RelayPool.DeadlineFreesWorkers | lib/gov.js:413-414 | the batch always comes nearer to its end and never waits for the node beyond the deadline |
| RelayPool.Batch.TakeEntry | lib/gov.js:258-264 | a worker takes the next index; only an entry to relay makes it wait |
| RelayPool.Batch.Answered | lib/gov.js:455-493 | the first of answer and deadline settles the call |
| RelayPool.Batch.Continue | lib/gov.js:494-552 | the settled call gives the result and the receipt |
| RelayPool.Batch.Deadline | lib/gov.js:413-414 | the deadline settles every wait that is still open |
| DispatcherRuns.HashesAreUnique | db/migrations/001_init.sql:331-358 | over every run no two rows ever share a collateral transaction or a governance hash |
| SubmissionTable.AttachEffect | lib/proposalSubmissions.js:322-334 | the conditional update keeps the indexes and moves rows forward only |
| SubmissionTable.SubmittedEffect | lib/proposalSubmissions.js:433-437 | the conditional update keeps the indexes and moves rows forward only |
| SubmissionTable.FailedEffect | lib/proposalSubmissions.js:498-510 | the conditional update keeps the indexes and moves rows forward only |
| SubmissionTable.DeleteEffect | lib/proposalSubmissions.js:177-181 | only prepared or failed rows disappear |
| DispatcherRuns.FinalOnlyByWinner | lib/proposalDispatcher.js:188-495 | a row enters a final state only by the conditional update of one call, which goes on to its hook |
| DispatcherRuns.ExecuteEffect | lib/proposalSubmissions.js:397-515 | past the confirmations a call gives up only on a row that awaits nothing any more |
| DispatcherRuns.StepKeepsInv | lib/proposalDispatcher.js:188-495 | the invariant survives every statement of every worker and request, and every fault |
| DispatcherRuns.HooksFireOnce | lib/proposalDispatcher.js:188-495 | at most one hook per row, from the call whose update changed it, with that state; exactly one unless the winner's database failed or the row was removed |
| DispatcherRuns.RowsMoveForward | lib/proposalSubmissions.js:397-520 | hashed fields never change, hashes are written once, final states are final, removed ids never return |
| DispatcherRuns.SettledCallsFinish | lib/proposalDispatcher.js:260-482 | a submission answered for good never leaves its row awaiting; the inexplicable attach error is never raised |
| DispatcherRuns.CallsReturn | lib/proposalDispatcher.js:188-495 | a call returns after at most ten steps |
| DispatcherReasons.DecidedAsAnswered | lib/proposalDispatcher.js:188-495 | in every run a decided row has a winning call whose answers decide it: submitted only after enough confirmations and under the hash that the node returned or the row's own; each reason of failure only on the answer it names |
| DispatcherReasons.OnlyConfirmedIsSubmitted | lib/proposalDispatcher.js:197-260 | in every run a call submits only after it saw enough confirmations |
| DispatcherReasons.ReturnedCallsAreDone | lib/proposalDispatcher.js:188-495 | in every run a call that returned undisturbed has submitted a confirmed collateral, and left no row awaiting after a decisive answer or past the timeout |
| DispatcherReasons.HeardIsAnswered | lib/proposalDispatcher.js:188-495 | what a call has heard is what the run answered it |
| DispatcherReasons.RequestsAreAnswered | lib/proposalSubmissions.js:287-381 | an attach request goes on while row and transaction allow it, is refused for what does not hold, and changes exactly its row |
| DispatcherReasons.ConfirmationsAreStored | lib/proposalDispatcher.js:238-254 | confirmations that differ from the listed ones are stored before anything is submitted |
| DispatcherReasons.RowsComeAndGo | lib/proposalSubmissions.js:183-253 | rows are added and removed at any time, exactly as owner, state and payload allow |
| SubmissionRepo.Submissions.Create | lib/proposalSubmissions.js:183-253 | a second prepared row with the same payload of the same user is refused |
| SubmissionRepo.Submissions.AttachCollateral | lib/proposalSubmissions.js:287-381 | succeeds exactly when it changes the row; otherwise says why |
| SubmissionRepo.Submissions.MarkSubmitted | lib/proposalSubmissions.js:397-475 | a row exactly when this call moved it; a clash exactly when another row holds the hash |
| SubmissionRepo.Submissions.MarkFailed | lib/proposalSubmissions.js:480-520 | a row exactly when this call moved it; final rows are refused |
| SubmissionRepo.Submissions.Remove | lib/proposalSubmissions.js:525-528 | removes exactly the owner's prepared or failed row |
| SubmissionRepo.Submissions.Advance | lib/proposalDispatcher.js:188-495 | one undisturbed call: collateral not found exactly if unknown longer than the timeout; rejected, duplicate and submitted exactly if confirmed enough and answered so; a hook exactly for a final state |
| StatsScheduler.OneLoop | services/sysMain.js:357-455 | started means exactly one of an armed timer and a pass in flight that owes it; stopped means neither |
| StatsScheduler.PublishedInOrder | services/sysMain.js:300-355 | generations of each source strictly increase and its delay is the doubled base, capped |
| StatsScheduler.FencesHold | services/sysMain.js:315-341 | what is published later is newer than the fence |
| StatsScheduler.RetiredTicksStaySilent | services/sysMain.js:397-455 | nothing is published after the watchdog abandoned the tick or a stop retired it |
| StatsScheduler.BackoffFollowsFailures | services/sysMain.js:318-339 | doubling up to the cap counts consecutive failures |
| StatsScheduler.StepKeepsInv | services/sysMain.js:300-455 | the invariant survives every callback |
| StatsScheduler.CoreIsPublished | services/sysMain.js:315-329 | a Core result is published exactly in front of both fences; success resets the delay, failure doubles it up to five minutes |
| StatsScheduler.MarketIsPublished | services/sysMain.js:330-343 | the same for the market, which is due again one delay later |
| StatsScheduler.TickFetchesWhatIsDue | services/sysMain.js:300-314 | every tick asks Core, and the market exactly when it is due |
| StatsScheduler.WatchdogCharges | services/sysMain.js:397-422 | the watchdog of the active pass charges a failure to each source that this tick asked and that has not reported |
| StatsScheduler.PassesComeToAnEnd | services/sysMain.js:346-430 | a pass never stalls: its tick ends once both sources have settled and not before, and then, or by the watchdog, the timer is armed again |
| StatsScheduler.Scheduler.StartService | services/sysMain.js:433-439 | a second start does nothing |
| StatsScheduler.Scheduler.StopService | services/sysMain.js:441-455 | stopping disarms the timer, drops the token and fences every tick begun |
| StatsScheduler.Scheduler.WatchdogFired | services/sysMain.js:397-422 | abandons the tick of the active pass and re-arms once |
| StatsScheduler.Scheduler.TickReturned | services/sysMain.js:427-430 | a returning tick re-arms once, and only for the active pass |
| StatsScheduler.Scheduler.PublishCoreResult | services/sysMain.js:315-329 | a result counts only in front of both fences |
| SentryJournal.JournalStep | lib/sentryManagement.js:65-77 | each step claims at most once, with the stored bytes, a retry gap after the row was last stamped |
| SentryJournal.BytesWrittenOnce | lib/sentryManagement.js:159-227 | over every run the signed bytes and the transaction id are written once |
| SentryJournal.PublicationsAreSpaced | lib/sentryManagement.js:159-211 | every broadcast sends the stored bytes, one per claim, and any two claims are thirty seconds apart |
| SentryJournal.CallsStartOnTheirRow | lib/sentryManagement.js:159-197 | a submission goes on only on a prepared row within fifteen minutes, a retry only on signed bytes |
| SentryJournal.ValidatedIsPublishedOnce | lib/sentryManagement.js:165-205 | what is validated is published at once if the row is still as it was read, and not at all otherwise |
| SentryJournal.BroadcastIsJudged | lib/sentryManagement.js:169-178 | only the transaction's own id counts as submitted |
| SentryJournal.RetryObserves | lib/sentryManagement.js:184-199 | what a retry writes down, and that it may publish only after thirty seconds |
| SentryJournal.ReconcileObserves | lib/sentryManagement.js:212-227 | what a reconciliation writes down, by what it saw and the state it read |
| SentryJournal.LostCallsChangeNothing | lib/sentryManagement.js:159-227 | a call lost before it publishes leaves the row as it is |
| SentryJournal.Operations.ClaimFirst | lib/sentryManagement.js:65-69 | won exactly from the prepared state |
| SentryJournal.Operations.ClaimAgain | lib/sentryManagement.js:70-73 | won exactly if nobody stamped the row since; the bytes stay |
| Amounts.RoundTrip | lib/proposalValidate.js:96-110 | parsing a formatted amount gives it back, for every integer |
| Amounts.FormatIsMinimal | lib/proposalValidate.js:96-110 | no exponent, no leading zero, no trailing fractional zero, at most eight decimals |
| Amounts.ParseIsExact | lib/proposalValidate.js:191-203 | a decimal is read exactly, or refused for a ninth decimal place |
| Amounts.RefusedExactly | lib/proposalValidate.js:191-194 | refused as text exactly when it is no decimal |
| Amounts.ExpandIsExact | lib/proposalValidate.js:139-167 | the point is moved, the digits stay: the number text keeps its exact value |
| Amounts.NumberIsExact | lib/proposalValidate.js:169-203 | a number is accepted exactly down to the eighth decimal place, never rounded |
| Amounts.PrintedNumberIsExact | lib/proposalValidate.js:139-203 | the same from the printed text with its exponent |
| Amounts.PlainNumberIsExact | lib/proposalValidate.js:169-203 | a number that prints without an exponent is read as the decimal it is |
| CanonicalJson.StringRoundTrip | lib/proposalValidate.js:213-215 | an escaped string is read back whatever its units, and whatever follows |
| CanonicalJson.EscapedIsWellFormed | lib/proposalValidate.js:213-215 | the escaped string has no lone surrogate |
| CanonicalJson.WriteRead | lib/proposalValidate.js:221-238 | the payload is read back from its text |
| CanonicalJson.DataHexRoundTrip | lib/proposalValidate.js:281-302 | the payload is read back from the hexadecimal of the UTF-8 of its text |
| CanonicalJson.CanonicalIsObject | lib/proposalValidate.js:221-238 | the canonical text is a JSON object of exactly these members in this order, without spaces |
| CanonicalJson.EscapesAreStandard | lib/proposalValidate.js:213-215 | the escape of every unit, as section 7 of RFC 8259 and JSON.stringify have it |
| CanonicalJson.IntegersAreDigits | lib/proposalValidate.js:221-238 | an epoch prints as its digits without a leading zero, behind a minus exactly if negative |
| Utf.Utf8RoundTrip | lib/proposalValidate.js:296 | a text without lone surrogates survives UTF-8 |
| Utf.LoneSurrogatesCollide | lib/proposalValidate.js:213-215 | with them it would not |
| Utf.HexRoundTrip | lib/proposalValidate.js:296 | bytes survive hexadecimal |
| Utf.HexAt | lib/proposalValidate.js:296 | two characters for every byte, the high half first |
| Utf.Utf8Examples | lib/proposalValidate.js:296 | the encoding of one character of each length |
| HashPreimage.CompactSizeRoundTrip | lib/proposalHash.js:72-93 | a length prefix is read back and nothing behind it |
| HashPreimage.SignedRoundTrip | lib/proposalHash.js:141-145 | a signed little-endian integer is read back |
| HashPreimage.WriteCompactSize | lib/proposalHash.js:72-93 | the buffer is filled with the prefix |
| HashPreimage.StreamRoundTrip | lib/proposalHash.js:147-163 | the stream determines parent, revision, time and data, and ends with the fixed tail |
| HashPreimage.Layout | lib/proposalHash.js:130-163 | what is hashed, byte by byte: parent, revision, time, length, characters, and the null outpoint with an index of all ones and an empty signature |
| HashPreimage.PrefixBytes | lib/proposalHash.js:72-93 | the length prefix of each range, byte by byte |
| HashPreimage.PreimageIsInjective | lib/proposalHash.js:130-163 | no two proposals are hashed from the same bytes |
| HashPreimage.PreparedIsInjective | lib/proposalHash.js:98-163 | the same over textual inputs, up to the spelling of the hexadecimal |
| HashPreimage.ConvertersAreInverse | lib/proposalHash.js:177-190 | display form and raw bytes of a hash convert into each other |
| HashPreimage.DisplayIsReversed | lib/proposalHash.js:177-190 | the display form has the last byte first |
| HashPreimage.ParentIsReversed | lib/proposalHash.js:98-109 | the parent's bytes are those of its display form in reverse, or zeros |
| HashPreimage.PreparedExactly | lib/proposalHash.js:98-145 | for which inputs a stream is built, and what a refusal names |
| HashPreimage.HexIsListed | lib/proposalHash.js:98-128 | the digits that are accepted, and how capitals are written down |
| Base32.TakeIn | lib/totp.js:54-55 | bits shifted into a 32-bit word follow those already there, although nothing is masked |
| Base32.EncodingIsUnique | lib/totp.js:49-65 | an encoding is determined by the bytes, has ceil(8n/5) digits, and decoding it gives the bytes |
| Base32.Encode | lib/totp.js:49-65 | the loop writes the encoding |
| Base32.Decode | lib/totp.js:67-83 | the loop reads exactly the texts that spell digits, and the bytes they stand for |
| Base32.EncodingIsSpelled | lib/totp.js:67-69 | case and padding do not matter |
| Base32.RoundTrip | lib/totp.js:49-83 | decoding what was encoded gives the bytes back |
| Base32.Vector | lib/totp.js:49-65 | a test vector of RFC 4648 |
| MfaChallenges.ChallengesAreBounded | lib/totp.js:263-337 | a challenge is passed at most once, answered wrongly at most five times, and a user has one open |
| MfaChallenges.DeadStaysDead | lib/totp.js:300-337 | a removed challenge is never answered again |
| MfaChallenges.AnsweredInTime | lib/totp.js:300-337 | over every run a challenge is passed or counted against only within five minutes, with fewer than five wrong answers before, and while the factor is on |
| MfaChallenges.Challenges.CreateChallenge | lib/totp.js:263-272 | a new challenge replaces the user's others and sweeps expired ones |
| MfaChallenges.Challenges.VerifyChallenge | lib/totp.js:300-337 | passes exactly a live challenge with a correct answer |
| MfaChallenges.ConsumeRecoveryCode | lib/totp.js:274-284 | a recovery code is struck from the stored ones, once |

## Left out

- Express routes, sessions, cookies, CSRF, rate limits, mail templates and transports: plumbing around the modelled functions.
- SHA-256, HMAC, AES-GCM and random tokens: preimages, byte order and table logic are modelled, not the functions themselves.
- HTTP, DNS, ethers and Core RPC calls, and the classification of Core's error texts: they are arbitrary answers.
- File locking, fsync order and the checksum envelope of the indexer's files: a file is replaced at once or not at all, and an unreadable one counts as absent.
- PoolIndex.Index.Publish: does not model the encoded body and the ETag, which are functions of the snapshot; hashes of blocks are numbers, so the shape checks on them hold by type.
- PoolIndex.Index.Sync: several HTTP calls of one logical read count as one moment; a node that changes its branch inside a single log query is outside `Honest`; that it achieves its work is promised while the node serves without a reorganisation, not across one.
- The pool registry, activation files and the background refresh timer: only the queue they feed is modelled.
- RecoveryRuns.StepKeepsInv: does not model more than one subscription, the paging of `tick` over subscriptions, RPC faults other than the update being aborted, and the thousand-row limit of a reconciliation, which aborts it too.
- RecoveryRepo.Repository.SetHealth: does not model `checked_at` and `block_timestamp`, which only delivery of enrolment mail reads.
- RecoveryRepo.Repository.Subscribe: does not model the limit of twenty subscriptions of a user; the first insert is the class's constructor.
- Enrolment challenges and mail delivery: mail is not exactly-once, and the code does not claim it.
- VoteRepo.Receipts.Upsert: does not model the argument checks that throw, which the types exclude.
- VoteReceipts: the summaries and listings for the user interface, and the parsing of Core's vote strings.
- VoteRuns.LeavesOnlyByCause: does not model the deletion of a user with all receipts.
- RelayPool.BatchOutcome: does not model a batch without a receipts table, which relays everything and writes nothing, nor a receipt write that itself fails, which the code logs and passes over.
- DispatcherRuns.SettledCallsFinish: speaks of calls none of whose own statements failed for another reason; such a call is retried by the next tick.
- DispatcherRuns.HooksFireOnce: does not model the deletion of a user with all rows, and the draft a submission came from.
- StatsScheduler.PublishedInOrder: does not model the published figures, only which generation publishes and whether it succeeded; it does not claim that nothing publishes while stopped, since a tick called directly may.
- SentryJournal.PublicationsAreSpaced: does not model the checks of prepared and signed transactions, which decide only whether a call goes on; a permanent confirmed status is not claimed, since status writes are unconditional.
- HashPreimage.PreparedIsInjective: does not model non-integer numbers, which are refused before the stream is built.
- CanonicalJson.DataHexRoundTrip: epochs are any integers here; beyond the safe range JavaScript prints them with an exponent.
- Base32.TakeIn: words are unsigned here; JavaScript's signed shift results have the same 32 bits.
- TOTP code generation, and the relayer directory, vaults, reminders, node-count logger and chain guard: easier copies of the same ideas.
