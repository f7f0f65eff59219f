# The bridge, its consumers and the report algorithms, as a verified model

The repository moves trading history from MT5 terminals to a reporting site. A
Python bridge reads deals and orders, keeps a durable journal (checkpoint, window
ledger, outbox) in SQLite, and publishes to Redis under a lease with fencing
tokens. A TypeScript worker consumes one Redis stream per account, stores deals
and orders, and rebuilds closed positions, which the site pages, caches and
charts.

This project models that path and proves what it is built to guarantee.

* `Wrappers`, `Sequences`, `Canonical`, `Sorting`: results and exceptions, small
  functions on sequences and numbers, the values the bridge hashes, and the stable
  sort of both languages.
* `JournalModel`, `JournalRepository`: the tables and each transaction as a
  function on them; the class whose methods run the transactions row by row and
  are proved to compute exactly those functions.
* `RedisTransport`: the five Lua scripts as atomic steps, as functions and as a class.
* `History`, `OutboxDispatcher`, `Live`, `Worker`: the bridge's planner and
  reconciler, outbox dispatcher, live publisher, renewal thread and poll loop.
* `Pipeline`: journal, Redis and any number of dispatchers as one machine whose
  steps may interleave and fail anywhere. `DeliveryProof`, `NoLoss`,
  `Coverage`, `ClaimOrder`, `Quarantine`: what holds in all its runs and steps.
* `CommitLaws`, `OutboxLaws`, `RecoveryLaws`, `TransportLaws`, `LiveLaws`: commits,
  outbox transactions, recovery, scripts and live polls stated on the rows and keys
  themselves. `WindowBuilds`, `WindowContents`, `WindowMessages`: which rows build a
  window and what it then holds. `PollLaws`, `ReviewLaws`: polls and reviews in terms
  of the clock and the rows the terminal lists. `TerminalRows`: no listed row is missed
  over whole runs.
* `HistoryLaws`, `ReconcileLaws`, `PlanCoverage`: what planning and
  reconciliation promise. `HonestJournal`, `ForwardLaws`, `JournalRuns`: what
  planned commits keep, exactly when a poll commits, and both for every reachable
  journal. `BridgeRuns`: the pipeline over windows that synchronizers built.
  `LiveSequence`, `Watchdog`: runs of live publishers and of the lease watchdog.
* `StreamGroup`, `StreamConsumer`: a stream with its consumer group, and the
  consumer loop over it. `HistoryConsumer`, `HandlerLaws`, `IngestionLaws`: the
  handler and the tables it leaves behind. `PositionReconstructor`, `PositionLaws`,
  `PositionFields`: a position from its deals. `EndToEnd`: journal, dispatchers, consumer and tables together.
* `Starvation`, `JournalExamples`, `ReopenExample`: runs of what the code does not meet.
* `ReportViewCache`, `TradeHistory`, `TradeHistoryLaws`, `PercentEncoding`,
  `TradeDistributions`: the cache, the paging, and the statistics.

`dafny verify dfyconfig.toml` checks everything.

## What the code does not meet

Each of these has the exact condition, stated for all inputs, and a lemma at inputs
that fail.

* A claim misses ready rows exactly when blocked markers fill its candidate list
  (`ClaimCompleteExactly`). For every claim limit a run of the pipeline gets there: as
  many windows with a quarantined record as a claim considers candidates, then one
  more, and every claim of that limit is empty though a row is ready
  (`StarvationReached`).
* A stored window is found unchanged exactly when it is the first of its range and the
  re-read lists the same rows (`UnchangedExactly`): the digest of a later revision
  covers the window it supersedes, so once revised it never settles
  (`RevisedNeverUnchanged`).
* A planned window is refused exactly when a row it relied on is gone
  (`BuiltInputCovered`, `ReachableInputCovered`). Clean-up of a published row between
  planning and commit does it (`CleanupRefusesPlan`).
* A poll whose range already has a first revision raises an integrity error, which
  the synchronizer does not catch (bridge/history.py:187); this is the only error
  that escapes, and `ForwardOutcomeExactly` says when it does. Polling an unmoved
  safe end gets there: the first poll reaches it, the second re-reads the overlap,
  the third raises (`UnmovedSafeEndRaises`, `ThirdPollExample`).
* A checkpoint below a raised lower bound is one of the conditions under which a poll
  does not commit (`ForwardOutcomeExactly`), whatever the journal holds
  (`BelowBoundNeverCommits`).
* The watchdog is sound exactly when each stamp follows its Redis call by less
  than the margin (`SoundExactlyWhenPrompt`). The first stamp is taken when the
  renewal thread is built, after the terminal connection (`SlowStartUnsound`).
* A trim that another loop's read interrupts is harmless exactly when that read got
  at most one entry (`RacedTrimHarmlessExactly`); with two, a pending entry is
  removed (`RacingTrimLosesPending`).
* A position row is exact unless an acknowledged deal once closed the position and
  its stored deals no longer do (`PositionRowsExactly`): a late deal reopens it and
  the row stays (`LateDealLeavesRow`, `LateDealExample`).
* What a read after a set answers (`SetReadBackExactly`): a value over the byte limit
  changes nothing, so a view of an older version stays readable (`OversizedLeavesOld`).
  Any other is read back exactly when it fits together with the account's other views
  of its version and that version's entry is young enough; otherwise the account reads
  as a miss, because the value evicted itself (`OwnSetEvicts`) or because a set does
  not refresh its entry (`SetDoesNotRefresh`).
* A page continues the report exactly when its last row has a non-empty number and a
  valid date (`NextPageExactly`); otherwise the client restarts (`RestartExample`).

## Model

| member | source | states |
|---|---|---|
| JournalRepository.Repository.CommitTransaction | bridge/journal/repository.py:578-745 | One commit transaction ends in exactly the tables the specification gives, or changes nothing and reports that specification's error. |
| JournalRepository.Repository.CommitWindow | bridge/journal/repository.py:509-543 | A forward commit answers with the advanced checkpoint, requires the stored one to match the expected one, and leaves every table as it was on refusal. |
| JournalRepository.Repository.CommitReconciliation | bridge/journal/repository.py:545-557 | A reconciliation supersedes its prior window, moves no checkpoint, and is refused without a prior window. |
| JournalRepository.Repository.ValidateOutboxCoverage | bridge/journal/repository.py:407-472 | True if and only if the messages belong to the window, have one marker with its digest, back only its records, cover every record by a message or a stored row of its type, and the counts agree. |
| JournalRepository.Repository.RecordCovered | bridge/journal/repository.py:443-470 | Decides whether one record is covered by a message or a stored row of its own type. |
| JournalRepository.Repository.HasOneMarker | bridge/journal/repository.py:421-429 | Decides whether exactly one message is a marker and carries the window digest. |
| JournalRepository.Repository.InsertOutbox | bridge/journal/repository.py:474-507 | Inserting the messages succeeds unless a stored row differs; then the outbox is the old one plus a PENDING row per new message. |
| JournalRepository.Repository.LinkRecords | bridge/journal/repository.py:661-707 | Linking the records row by row reuses or adds versions and fails exactly where the specification violates a constraint. |
| JournalRepository.Repository.RecoverHistoryLowerBound | bridge/journal/repository.py:296-374 | The bound is raised exactly when the checkpoint seen before still holds, nothing but empty windows lies before the bound and no record awaits delivery; a changed checkpoint is a conflict, and a refusal changes nothing. |
| RecoveryLaws.RecoveryExactly | bridge/journal/repository.py:296-374 | Nothing happens without a checkpoint below the bound; otherwise a missing journal path, a changed checkpoint, a window that crosses the bound or holds a record, and an unpublished deal or order each refuse, and only then is the checkpoint raised, field by field. |
| RecoveryLaws.NothingBeforeTheBound | bridge/journal/repository.py:327-349 | In every run, when a bound is raised no stored window of the profile that starts before it links a record. |
| JournalRepository.Repository.Reserve | bridge/journal/repository.py:260-277 | Hands out the next number of the profile, 1 first, and stores the one after it. |
| JournalRepository.Repository.ClaimCandidates | bridge/journal/repository.py:785-831 | The loop over candidates claims exactly the unblocked prefix the specification names, checking siblings against the rows as already changed. |
| JournalRepository.Repository.ClaimOutbox | bridge/journal/repository.py:769-834 | A claim transaction leaves the specified rows INFLIGHT under the new owner and returns their messages in order. |
| JournalRepository.Repository.AckOutbox | bridge/journal/repository.py:836-851 | Only an INFLIGHT row becomes PUBLISHED, whoever claimed it; anything else is a state conflict that changes nothing. |
| JournalRepository.Repository.FailOutbox | bridge/journal/repository.py:853-911 | An INFLIGHT row is rescheduled or quarantined by its failure count; anything else is a conflict that changes nothing. |
| JournalRepository.Repository.RequeueOutbox | bridge/journal/repository.py:913-928 | Only a QUARANTINED row becomes PENDING again. |
| JournalRepository.Repository.CleanupPublishedOutbox | bridge/journal/repository.py:930-939 | Exactly the rows published before the cut-off are deleted, and counted. |
| JournalModel.EnqueueKeepsAndAdds | bridge/journal/repository.py:474-507 | Stored rows stay as they are; every message without a row gets a PENDING row of its own, and no other row appears. |
| JournalRepository.CommitDecodable | bridge/journal/repository.py:416-422 | Every commit keeps all stored envelopes decodable. |
| CommitLaws.AdmittedExactly | bridge/journal/repository.py:376-657 | On the tables themselves: which commits are admitted, and which of five reasons refuses any other first: it does not continue its plan, its messages do not cover it, the checkpoint moved, it does not replace the revision before it, or it is stored already. |
| CommitLaws.CoverageExactly | bridge/journal/repository.py:407-472 | The coverage check, message by message and record by record. |
| CommitLaws.CommitWritesExactly | bridge/journal/repository.py:610-745 | What a commit leaves: the checkpoint past the window or untouched, the window COMMITTED and the one it replaces SUPERSEDED, a fresh row for each new message, and new versions that each name the last earlier version of their record. |
| ClaimOrder.ClaimCompleteExactly | bridge/journal/repository.py:777-831 | A claim takes the first ready rows in (next attempt, event id) order if and only if the blocked markers among its candidates leave room for them. |
| ClaimOrder.ClaimComplete | bridge/journal/repository.py:777-831 | With at most max(3 * limit, 16) blocked due rows a claim is the first min(limit, k) of the k ready rows, in order. |
| ClaimOrder.ClaimTakesDueRowsOnly | bridge/journal/repository.py:777-826 | A claimed row was due and unblocked; a row under an unexpired claim, published or quarantined is never taken. |
| ClaimOrder.OrderUnique | bridge/journal/repository.py:786-797 | Two listings of the same rows in (next attempt, event id) order are equal. |
| OutboxLaws.ClaimExactly | bridge/journal/repository.py:777-834 | A claim hands out, in order and each once, rows that are PENDING and due or INFLIGHT and expired and not markers with an unpublished sibling, marks exactly those for its owner and time, and passes none over unless more are held back than it looks past. |
| OutboxLaws.AckExactly | bridge/journal/repository.py:836-851 | Which row an acknowledgement changes, and every field of it. |
| OutboxLaws.FailExactly | bridge/journal/repository.py:853-911 | Which row a failure changes, when it is tried again, and every field of it. |
| OutboxLaws.RequeueExactly | bridge/journal/repository.py:913-928 | Which row a requeue changes, and every field of it. |
| OutboxLaws.CleanupExactly | bridge/journal/repository.py:930-939 | Which rows a clean-up deletes. |
| OutboxLaws.PublishedStays | bridge/journal/repository.py:836-939 | In every state and step a row becomes published only when a dispatcher acknowledges it, stamped with that time, and then stays as it is until a clean-up whose cut-off is past its stamp. |
| ClaimOrder.BlockedMarkersStarve | bridge/journal/repository.py:777-831 | One step: a candidate list of blocked markers makes the claim empty and changes no row. |
| Starvation.StarvationReached | bridge/journal/repository.py:777-831 | For every claim limit a run of commits, claims, invalid deliveries and quarantines ends in a state with a ready row in which a claim of that limit changes nothing. |
| RedisTransport.Server.AcquireLease | bridge/redis_transport.py:35-43 | Grants a lease only when none is held, with the next token and the epoch in force. |
| RedisTransport.Server.RenewLease | bridge/redis_transport.py:45-53 | Extends the lease exactly for its holder. |
| RedisTransport.Server.ReleaseLease | bridge/redis_transport.py:55-63 | Deletes the lease exactly for its holder. |
| RedisTransport.Server.PublishLiveFenced | bridge/redis_transport.py:65-73 | Overwrites the live key exactly for the holder of the lease. |
| RedisTransport.Server.AppendStreamFenced | bridge/redis_transport.py:75-83 | Appends one entry exactly for the holder of the lease. |
| RedisTransport.ApplyCoordinated | bridge/redis_transport.py:35-83 | Every script keeps tokens numbered in order of issue and the stored lease the last one issued. |
| RedisTransport.Fencing | bridge/redis_transport.py:35-155 | In every run of any callers no token is issued twice, each accepted fenced call carries the last credential issued, and tokens never decrease along the stream. |
| RedisTransport.Superseded | bridge/redis_transport.py:45-83 | Once a later credential is issued, every call under an earlier one is rejected and changes nothing. |
| TransportLaws.ScriptExactly | bridge/redis_transport.py:35-83 | Key by key, what each script changes, and for whom: a lease is granted when none is in force, every other script works exactly for the credential that holds it. |
| OutboxDispatcher.Dispatcher.DispatchOne | bridge/outbox_dispatcher.py:124-165 | Each way a delivery can end leads to its journal transition: malformed and rejected messages are quarantined, transport errors rescheduled, a lost lease stops the batch. |
| OutboxDispatcher.Dispatcher.DispatchOnce | bridge/outbox_dispatcher.py:109-122 | One cycle claims a batch, whether or not the lease is lost already, and drains it in order until the lease is lost or a stop is requested. |
| OutboxDispatcher.Dispatcher.MaybeCleanup | bridge/outbox_dispatcher.py:186-192 | Clean-up runs at most once per interval and deletes rows past their retention. |
| OutboxDispatcher.DrainIsRun | bridge/outbox_dispatcher.py:109-165 | A drained batch is a run of Send, Settle and Stop steps of the pipeline machine, so every theorem about its runs applies. |
| OutboxDispatcher.OutcomeOfMessage | bridge/outbox_dispatcher.py:124-184 | One step: a claimed message is published if and only if its append is accepted and answered; a stale credential leaves the row and ends the batch; every other failure counts once, and only transport errors are retried. |
| OutboxDispatcher.HeldMarkerPassedOver | bridge/outbox_dispatcher.py:131-139 | One step: a marker whose window has an unpublished row is neither sent nor changed. |
| OutboxDispatcher.FailureIsNamed | bridge/outbox_dispatcher.py:124-184 | One step: each kind of failure leaves its name on the row. |
| OutboxDispatcher.DrainHandles | bridge/outbox_dispatcher.py:109-122 | A batch is handled message by message and ends only when it is empty, stopped or its lease is lost. |
| Quarantine.OnlyFailuresQuarantine | bridge/journal/repository.py:853-911 | In every state and step a row's failure count grows, and the row becomes quarantined, only by a failed delivery, and then if and only if the failure is final or attempts are used up: claims, crashes and lost leases never count. |
| DeliveryProof.StepKeeps | bridge/journal/repository.py:578-939 | Every step of the pipeline keeps the delivery invariant: published rows are in the log, an INFLIGHT marker has no unpublished sibling, queues and phases agree with the rows. |
| DeliveryProof.MarkerAfterRecords | bridge/journal/repository.py:747-834 | In every run each row ever inserted under a window stands in the stream before that window's marker. |
| DeliveryProof.RecheckNeverFiresInAnyRun | bridge/outbox_dispatcher.py:131-139 | In every run the dispatcher's second look at siblings never holds a claimed marker back. |
| DeliveryProof.EveryInsertionDelivered | bridge/journal/repository.py:769-939 | In every run an inserted row is in the stream or still waiting, and every PUBLISHED row is in the stream. |
| NoLoss.NothingIsLost | bridge/journal/repository.py:407-507 | In every run each deal and order of each stored window is linked to an event that is in the stream or has an unresolved outbox row. |
| NoLoss.StepKeepsSafe | bridge/journal/repository.py:836-939 | No step, clean-up and requeue included, takes an event out of both the stream and the outbox. |
| Coverage.WindowsCoverHistory | bridge/journal/repository.py:578-745 | In every run the COMMITTED windows cover every raw time from the bound in force up to the checkpoint. |
| Coverage.NextNeverDecreases | bridge/journal/repository.py:296-392 | No step moves a checkpoint back or deletes it. |
| Coverage.NoCheckpointConsumedTwice | bridge/journal/repository.py:376-392 | In no run do two forward commits planned from the same checkpoint both take effect. |
| History.Synchronizer.RunNext | bridge/history.py:143-188 | Planning, both revalidations, the safe end, reading, building and committing one window end in the specified tables and outcome, on every error path. |
| History.Synchronizer.Reconcile | bridge/history.py:212-270 | Re-reading a stored window reports it unchanged, commits a superseding revision, or aborts, a failed revalidation before reading or committing included, as specified. |
| HistoryLaws.PlanReaches | bridge/history.py:150-170 | A plan starts at or before the frontier and above the bound, and ends at the safe end or a net window past the frontier. |
| HistoryLaws.CommitAdvances | bridge/history.py:143-206 | Each committed window moves the frontier by at least min(safe end - frontier, maximum - overlap), and never past the safe end. |
| HistoryLaws.WidensOnlyOverEmpty | bridge/history.py:190-206 | One step: a plan exceeds the maximum window only when the last stored window saw nothing, and then by the width of the policy for empty regions. |
| HistoryLaws.NeverIdleBelowSafeEnd | bridge/history.py:172-176 | While the safe end is ahead of the frontier, no plan is idle. |
| PollLaws.PollCommitsExactly | bridge/history.py:143-206 | A poll commits if and only if its checkpoint can be resumed, the terminal answers with usable lists for a range that is not empty, and that range has no first revision; the range is given in terms of checkpoint, bound, overlap, widths and safe end. |
| PollLaws.PollOutcomeExactly | bridge/history.py:143-188 | Which of its outcomes a poll has, in the order in which things are found out. |
| WindowBuilds.ReadBuildsExactly | bridge/history.py:313-446 | A range builds if and only if both calls answer, every row has an integer ticket and time and a canonical form, and no row of the range is listed twice or has a time that is no integer. |
| WindowMessages.BuiltExactly | bridge/history.py:313-514 | The window a range is built into, field by field, a message for each record without a row, and the marker last. |
| PollLaws.PollStoresRows | bridge/history.py:143-188 | A committed poll stores every listed row whose time lies in its range, as often as it was listed and in time order, and no other. |
| TerminalRows.ListedRowIsStored | bridge/history.py:143-270 | In every run, once the checkpoint has passed a time from the bound on, a row of that time that every read around it listed is held by a COMMITTED window of that time. |
| TerminalRows.ListedRowIsCommitted | bridge/history.py:143-270 | It is a record of some commit of the run. |
| HistoryLaws.BackfillBound | bridge/history.py:143-206 | After k commits towards one safe end the frontier has moved k net windows or arrived, however empty regions are widened. |
| HistoryLaws.BackfillTerminates | bridge/history.py:51-73 | ceil((safe end - frontier) / (maximum - overlap)) commits reach the safe end, for runs of polls that are known to commit. |
| HistoryLaws.BelowBoundNeverCommits | bridge/history.py:272-302 | A checkpoint below a raised bound never commits and changes nothing. |
| HistoryLaws.RepeatedPlanRefused | bridge/journal/repository.py:632-654 | In any journal, honest or not, a plan for a range that already has a first revision does not commit and changes nothing; `ForwardLaws.ForwardOutcomeExactly` gives the error. |
| ForwardLaws.ForwardOutcomeExactly | bridge/history.py:143-188 | In an honest journal a forward poll commits if and only if its checkpoint fits profile, policy and bound, the plan is non-empty, the rows build, and the range has no first revision; it raises IntegrityError if and only if only the last fails; no other error escapes, and nothing changes unless it commits. |
| ForwardLaws.PollCommits | bridge/history.py:143-188 | Below the safe end every poll whose checkpoint fits and whose rows build does commit. |
| ForwardLaws.PollsReachSafeEnd | bridge/history.py:143-206 | ceil((safe end - frontier) / (maximum - overlap)) polls whose rows build reach a fixed safe end, with the commits proved and not assumed. |
| ForwardLaws.UnmovedSafeEndRaises | bridge/history.py:150-188 | With the checkpoint at an unmoved safe end at most one more window commits; the next poll whose rows build raises IntegrityError. |
| HonestJournal.PlannedCommitExactly | bridge/journal/repository.py:578-745 | A planned forward commit is a checkpoint conflict, an integrity error for a stored range, or succeeds, each exactly when stated: record links and messages never conflict. |
| HonestJournal.CommitKeepsHonest | bridge/journal/repository.py:578-745 | A planned commit, forward or superseding, keeps windows, versions, members, rows and markers under the names of their own content, whatever was cleaned up since it was planned. |
| JournalRuns.ReachableIsHonest | bridge/journal/repository.py:296-939 | In every run of synchronizers, reviews, late commits, recovery, claims, failures, requeues and clean-up the journal is honest. |
| JournalRuns.ReachablePollCommits | bridge/history.py:143-188 | In every such run a poll below the safe end whose checkpoint fits and whose rows build commits. |
| JournalExamples.ThirdPollRaises | bridge/history.py:143-188 | From an empty journal, three polls of a quiet terminal at one safe end commit, commit the overlap, and raise IntegrityError. |
| JournalExamples.ThirdPollExample | bridge/history.py:143-188 | The same with bound 0, safe end 5, windows of 10 and an overlap of 3. |
| HistoryLaws.SortedRowsSame | bridge/history.py:98-115 | Rows with distinct tickets sort the same in every input order. |
| HistoryLaws.RowOrderIrrelevant | bridge/history.py:143-188 | The order in which the terminal lists rows changes neither the tables nor the outcome of a forward window. |
| HistoryLaws.ReconcileOrderIrrelevant | bridge/history.py:212-270 | Nor does it change a reconciliation. |
| ReconcileLaws.SameContentExactly | bridge/history.py:303-358 | Two windows of one range and revision have the same content if and only if they list the same records and supersede the same window. |
| ReconcileLaws.UnchangedExactly | bridge/history.py:212-251 | Reconciliation returns UNCHANGED and writes nothing if and only if the re-read succeeds, lists the same rows in any order, and the window supersedes none. |
| ReviewLaws.ReviewOutcomeExactly | bridge/history.py:212-270 | In an honest journal a review supersedes its window with the next revision, which holds exactly the relisted rows, if and only if the window is stored for this profile and policy, the terminal relists it with other figures and stays identified, it is COMMITTED, and no next revision is stored; UNCHANGED and the integrity error are characterised as exactly. |
| ReviewLaws.ReviewAbortsExactly | bridge/history.py:212-270 | Why any other review is aborted. |
| JournalExamples.LateDealReconciles | bridge/history.py:212-268 | From an empty journal: a quiet first poll, then a review that lists one deal of its window, which a second revision takes over. |
| ReconcileLaws.RevisedNeverUnchanged | bridge/history.py:230-268 | After a reconciliation has committed a revision, no further review of that revision reports it unchanged, whatever the terminal answers. |
| PlanCoverage.BuiltInputCovered | bridge/history.py:313-393 | A built input passes the coverage check of the journal if and only if no outbox row the plan relied on is gone. |
| JournalRuns.ReachableInputCovered | bridge/history.py:313-393 | In every run of the journal a planned input is covered if and only if no row it relied on is gone. |
| JournalExamples.CleanupRefusesPlan | bridge/journal/repository.py:407-472 | A re-read window whose published row is cleaned up before the commit was covered and is then aborted. |
| PlanCoverage.PlannedKeepsHonest | bridge/history.py:451-514 | Writing a planned input of any session keeps every stored row under a self-named record id a row of that record. |
| Live.LivePublisher.PollOnce | bridge/live.py:95-129 | One poll retries the pending envelope or builds and publishes the next one, and ends in the specified pending map, sequence and live key. |
| Live.LivePublisher.PublishOne | bridge/live.py:276-293 | A pending envelope leaves only after Redis accepts it; an error report leaves without being sent. |
| Live.LivePublisher.BuildPending | bridge/live.py:221-267 | A build reserves a number first, and a failed build still consumes it. |
| Live.PendingLeavesOnlyWhenPublished | bridge/live.py:98-101 | One step: a pending snapshot is retried unchanged and leaves if and only if Redis accepts it and says so; no number is used meanwhile. |
| Live.PollUsesNumbers | bridge/live.py:103-129 | One step: a poll without a pending envelope uses one or two numbers of its profile, and only a complete snapshot reaches Redis. |
| LiveLaws.RejectedExactly | bridge/live.py:95-140 | A poll is turned away before it does anything if and only if login, profile, epochs or token of session and fence differ. |
| LiveLaws.PendingExactly | bridge/live.py:98-101 | What a poll does with a pending envelope: an error report leaves unsent, a snapshot becomes the live key and leaves, each exactly when stated, and no number is used. |
| LiveLaws.NewSnapshotExactly | bridge/live.py:103-129 | A complete poll builds the snapshot under the next number; it becomes the live key, is reported published and leaves, each exactly when stated. |
| LiveLaws.IncompleteReportsError | bridge/live.py:189-219 | Any other poll reports an error and leaves Redis alone. |
| LiveSequence.PollKeeps | bridge/live.py:95-293 | A poll keeps the pending envelope below the next number and not behind the live key while its producer is the last one. |
| LiveSequence.LiveNeverGoesBack | bridge/live.py:95-293 | Across any number of workers, retries, lost replies and lease changes the live number never decreases, and equal numbers mean identical envelopes. |
| Worker.LeaseRenewalThread.Turn | bridge/worker.py:140-157 | One turn stamps only an answered success, sets lease-lost only on a definitive rejection outside shutdown, and ignores ambiguous replies. |
| Worker.LeaseRenewalThread.Run | bridge/worker.py:140-157 | The renewal loop is the fold of its turns until one of them ends it. |
| Worker.PollLoop | bridge/worker.py:418-500 | Every cycle that touches the terminal has passed both lease checks; the loop leaves with the first cycle's exit that has one. |
| Worker.ExitExactly | bridge/worker.py:418-500 | Which exit a cycle takes, and in which order it looks. |
| Watchdog.WatchdogSound | bridge/worker.py:85-157 | In a timed run with prompt stamps every cycle that passes the checks starts while this worker holds the lease, so no other worker can acquire it. |
| Watchdog.SoundExactlyWhenPrompt | bridge/worker.py:85-157 | After a stamp the watchdog is sound if and only if the stamp followed its Redis call by less than the margin. |
| Watchdog.TurnIsEvents | bridge/worker.py:140-157 | Every turn of the renewal thread outside shutdown is a stretch of the timed run, so soundness holds of the thread. |
| Watchdog.SlowStartUnsound | bridge/worker.py:321-363 | A start-up of at least the margin between acquiring and building the thread admits a passing cycle without the lease. |
| StreamGroup.ReadKeeps | src/worker-v2/stream-consumer.ts:37-44 | A read moves the next stretch of the stream from undelivered to pending. |
| StreamGroup.AckKeeps | src/worker-v2/stream-consumer.ts:49-53 | An acknowledgement moves exactly one entry from pending to acknowledged. |
| StreamGroup.TrimRemovesOnlyAcked | src/worker-v2/stream-consumer.ts:57-84 | A trim to a safe floor removes only acknowledged entries. |
| StreamGroup.FloorIsSafe | src/worker-v2/stream-consumer.ts:64-73 | The floor the consumer computes without interference lies above no pending or undelivered entry. |
| StreamConsumer.ConsumeOnce | src/worker-v2/stream-consumer.ts:29-55 | The next batch is handled in order up to the first exception, and exactly the accepted entries are acknowledged. |
| StreamConsumer.ReclaimPending | src/worker-v2/stream-consumer.ts:94-139 | A pass retries exactly the idle ones of the first thousand pending entries, page by page, up to the first exception. |
| StreamConsumer.TrimAckedEntries | src/worker-v2/stream-consumer.ts:57-89 | The stream is trimmed to the computed floor, and every entry removed was acknowledged. |
| StreamConsumer.RunConsumerLoop | src/worker-v2/stream-consumer.ts:141-197 | Over any iterations, arrivals and failures the loop ends in the group, the calls of the handler, the failed iterations and the trims of the loop it refines; the group stays accounted for, nothing is acknowledged that the handler did not accept, every hundredth success trims, and the back-off is that of the failures since the last success. |
| StreamConsumer.IterationExactly | src/worker-v2/stream-consumer.ts:160-195 | An iteration fails if and only if its read is lost or the last visit of the handler ends in an exception; any other hands over every idle one of the first thousand pending entries and then the whole next batch, in order. |
| StreamConsumer.BackoffDoubles | src/worker-v2/stream-consumer.ts:156-195 | The delay after k failures in a row is min(1000 * 2^k, 30000) milliseconds. |
| StreamConsumer.ExactlyOnePlace | src/worker-v2/stream-consumer.ts:141-197 | Every appended entry is in exactly one place: undelivered, pending or acknowledged. |
| StreamConsumer.LogFollows | src/worker-v2/stream-consumer.ts:45-54 | A pass visits its entries in order and stops only at an exception. |
| StreamConsumer.PassAcksExactly | src/worker-v2/stream-consumer.ts:45-54 | A pass acknowledges exactly the pending entries that the handler accepted and whose acknowledgement arrived. |
| StreamConsumer.RetriedExactly | src/worker-v2/stream-consumer.ts:101-137 | A pass retries each idle entry among the first thousand pending once, in id order, and no other. |
| StreamConsumer.RetryRestartsIdleTime | src/worker-v2/stream-consumer.ts:114-120 | One step: a retry restarts the idle time of its entry and of no other. |
| StreamConsumer.TrimExactly | src/worker-v2/stream-consumer.ts:57-83 | A trim keeps exactly the entries from the first pending one on, or from the last delivered one when none is. |
| StreamConsumer.RacedTrimHarmlessExactly | src/worker-v2/stream-consumer.ts:57-89 | For every group with nothing pending: a trim with another loop's read between its two calls removes acknowledged entries only, if and only if that read got at most one entry. |
| StreamConsumer.RacingTrimLosesPending | src/worker-v2/stream-consumer.ts:64-83 | The witness: with two fresh entries the first is removed while it is pending. |
| HistoryConsumer.Database.Handle | src/worker-v2/history-consumer.ts:44-173 | Each event is acknowledged or left pending as specified: malformed and marker events are acknowledged, unknown or unconfigured logins left pending. |
| HistoryConsumer.Database.HandleDeal | src/worker-v2/history-consumer.ts:97-143 | A deal is stored and its position rebuilt in one transaction, rolled back when the position is corrupted or reopened. |
| HistoryConsumer.Database.FindDeals | src/worker-v2/position-reconstructor.ts:256-274 | The query returns each stored deal of the position once. |
| HandlerLaws.HandledExactly | src/worker-v2/history-consumer.ts:44-173 | What one event comes to, field by field: which events are acknowledged, left pending or stored, and that a stored time plus the account's offset is the broker's time. |
| HandlerLaws.StoredDealsExactly | src/worker-v2/history-consumer.ts:86-137 | In every run a deal row is there if and only if a good deal of its account and ticket was acknowledged, and it is the last such deal as listed, but for its time. |
| HandlerLaws.DistancesKept | src/worker-v2/history-consumer.ts:94-98 | Two stored deals of one login are as far apart, in the same order, as they were listed. |
| HistoryConsumer.RunFleet | src/worker-v2/history-consumer.ts:184-239 | One consumer loop is started for each login ever seen, and never two. |
| IngestionLaws.HandledStores | src/worker-v2/history-consumer.ts:88-173 | One step: an acknowledged well-formed event is stored; an event left pending changes nothing. |
| IngestionLaws.PendingExactly | src/worker-v2/history-consumer.ts:44-173 | One step: an event stays pending if and only if its account is not ready, the database fails, or its position would be corrupted or reopened; every other well-formed event is stored. |
| IngestionLaws.DealsAreAcked | src/worker-v2/history-consumer.ts:97-143 | The deal table holds exactly the acknowledged deals. |
| IngestionLaws.Confluence | src/worker-v2/history-consumer.ts:44-173 | Two runs that acknowledge the same deals and orders, in any order and with duplicates, end with equal tables. |
| IngestionLaws.ClosedPositionsExact | src/worker-v2/position-reconstructor.ts:250-333 | In every run stored deals never reconstruct as corrupted or reopened, and whenever they close a position its row is that reconstruction. |
| IngestionLaws.AnswerOrderFree | src/worker-v2/position-reconstructor.ts:256-276 | The order of the query's answer does not change the reconstruction. |
| IngestionLaws.StoredRowExactly | src/worker-v2/position-reconstructor.ts:276-333 | One step: after an acknowledged deal the row of its position is exact unless a row was there and the deals do not close the position. |
| IngestionLaws.RowIffEverClosed | src/worker-v2/position-reconstructor.ts:276-333 | In every run a position has a row if and only if some acknowledged deal once closed it. |
| IngestionLaws.PositionRowsExactly | src/worker-v2/position-reconstructor.ts:250-333 | In every run a position has a row exactly when its stored deals close it, and then the row of that reconstruction, if and only if it was never closed or is closed now. |
| ReopenExample.LateDealLeavesRow | src/worker-v2/position-reconstructor.ts:276-277 | For every account and position: two deals close it, a late one is acknowledged and reopens it, and the old row is still there. |
| ReopenExample.LateDealExample | src/worker-v2/position-reconstructor.ts:276-277 | One such run, in literal values. |
| EndToEnd.NothingIsLostEndToEnd | bridge/journal/repository.py:407-507 | Over every run of bridge and consumer, each deal and order of each stored window is unresolved in the outbox, or undelivered or pending in the group, or acknowledged and, when well formed, in its table. |
| EndToEnd.EveryRecordArrives | src/worker-v2/history-consumer.ts:44-173 | Over every run whose windows synchronizers built, each record of each commit that took effect is unresolved in the outbox, or undelivered or pending in the group, or acknowledged and, when well formed, stored as the row its own payload stands for. |
| EndToEnd.ListedRowArrives | src/worker-v2/history-consumer.ts:44-173 | From the terminal to the table: once the checkpoint has passed its time, a row that every read of that time listed is a record that is still owed, on its way, or stored as the row its payload stands for. |
| BridgeRuns.RunIsJournalRun | bridge/journal/repository.py:578-939 | The journal after any run of the pipeline over built windows is the journal after some run of synchronizers, reviews and row changes, so what is proved of those holds along the pipeline. |
| BridgeRuns.RunIsHonest | bridge/journal/repository.py:578-939 | In particular it is honest. |
| BridgeRuns.RunIsFaithful | bridge/history.py:415-514 | In every such run each outbox row, queued message and stream entry under a record's event id carries the payload of that record and of no other. |
| BridgeRuns.CommittedStaysSafe | bridge/journal/repository.py:578-939 | From its commit on, every record is in the log or has a row that is not published. |
| PositionReconstructor.ComputePositionLifecycle | src/worker-v2/position-reconstructor.ts:85-248 | The loop over its dozen variables computes the signed-prefix-sum specification for all deals with non-negative volumes. |
| PositionReconstructor.Trade | src/worker-v2/position-reconstructor.ts:125-198 | One volume-carrying deal opens, adds, closes or reverses exactly as the prefix sums say, or stops the walk. |
| PositionLaws.StatusByPrefixSums | src/worker-v2/position-reconstructor.ts:113-218 | Reopened if and only if a zero prefix sum is followed by another volume-carrying deal; closed or corrupted if and only if zero is first reached at the last one; open otherwise. |
| PositionLaws.ClosedOrCorrupted | src/worker-v2/position-reconstructor.ts:203-218 | A flat position is closed exactly when it has a symbol and a price on both sides. |
| PositionLaws.OrderFree | src/worker-v2/position-reconstructor.ts:64-81 | With distinct (time, ticket) keys the result is the same for every input order. |
| PositionLaws.ConservedAtClose | src/worker-v2/position-reconstructor.ts:113-248 | At close, total buys = total sells = opened volume, and entry plus exit notional is the sum of price times volume. |
| PositionLaws.PricesBounded | src/worker-v2/position-reconstructor.ts:220-221 | Open and close price lie between the least and the greatest price of the deals. |
| PositionLaws.PricedNeverCorrupted | src/worker-v2/position-reconstructor.ts:213-218 | A position whose deals all have prices is corrupted only for lack of a symbol. |
| PositionLaws.NetPnlCountsEveryDeal | src/worker-v2/position-reconstructor.ts:113-222 | Net profit is the sum of profit, swap and commission over all deals, zero-volume rows included. |
| PositionFields.VerdictExactly | src/worker-v2/position-reconstructor.ts:85-218 | For all deals with non-negative volumes, in time and ticket order: the first deal that trades with an unknown type or after the exposure returned to zero decides; else open, missing symbol, missing price or closed, each exactly when stated. |
| PositionFields.ClosedFieldsExact | src/worker-v2/position-reconstructor.ts:113-248 | Every field of a closed position: the side is opposite to the last deal that traded, times and texts are those of the first and last, prices are the means over what enlarged and what reduced the exposure, money counts every deal. |
| PositionFields.UnturnedPrices | src/worker-v2/position-reconstructor.ts:152-221 | When the exposure never changes side, the side is the type of the first deal and the prices are the volume-weighted means of the deals of either type. |
| ReportViewCache.Cache.Get | src/lib/trading/report-view-cache.ts:67-81 | Answers the version and the view stored under the timeframe, or no view, for an account confirmed less than the time to live ago; a view is the last value set under its name; an expired entry is deleted. |
| ReportViewCache.Cache.Set | src/lib/trading/report-view-cache.ts:82-126 | A set drops other versions and then the oldest accounts until the rest fits; an oversized value changes nothing. Retained bytes stay the sum of all view sizes. |
| ReportViewCache.Cache.Evict | src/lib/trading/report-view-cache.ts:121-125 | The eviction loop terminates within both bounds and keeps what the specification keeps. |
| ReportViewCache.Cache.DeleteEntry | src/lib/trading/report-view-cache.ts:59-64 | Deleting an account subtracts exactly its bytes. |
| ReportViewCache.Cache.Delete | src/lib/trading/report-view-cache.ts:127-129 | Deleting an account leaves every other one. |
| ReportViewCache.EvictedIsLongest | src/lib/trading/report-view-cache.ts:121-125 | Eviction keeps the first suffix that fits: the longest run of most recently set accounts. |
| ReportViewCache.SetSurvivesExactly | src/lib/trading/report-view-cache.ts:94-125 | The account set last keeps its entry if and only if at least one entry is allowed and its views fit alone. |
| ReportViewCache.SetReadBackExactly | src/lib/trading/report-view-cache.ts:67-126 | A read after a set: over the byte limit, what it would have answered before; otherwise the value, if and only if an entry is allowed, it fits with the account's other views of its version, and that version's entry is young enough; otherwise a miss. |
| ReportViewCache.OwnSetEvicts | src/lib/trading/report-view-cache.ts:94-126 | Two views that fit alone and not together: setting the second loses both. |
| ReportViewCache.OversizedLeavesOld | src/lib/trading/report-view-cache.ts:97 | A value over the limit is dropped while the view of the older version still reads. |
| ReportViewCache.SetDoesNotRefresh | src/lib/trading/report-view-cache.ts:104-113 | A value set a millisecond before its entry expires reads at once, and a millisecond later as a miss. |
| ReportViewCache.PlaceCurrent | src/lib/trading/report-view-cache.ts:99-119 | After a set every retained view is still the last one set under its name. |
| TradeHistory.ClampLimit | src/lib/trading/trade-history.ts:41-46 | A number in range is truncated and kept, a smaller or larger one becomes the nearest bound, and anything not finite the default. |
| TradeHistory.CursorRoundTrip | src/lib/trading/trade-history.ts:60-102 | A cursor decodes to what it was made from if and only if the position number is non-empty and the time a valid date; otherwise to nothing. |
| TradeHistoryLaws.MatchesIsStrictlyBelow | src/lib/trading/trade-history.ts:104-131 | The cursor predicate is the strict lexicographic order on (close time, position number). |
| TradeHistoryLaws.ReportIsStrict | src/lib/trading/trade-history.ts:143-151 | The ordered report holds each closed row once. |
| TradeHistoryLaws.ReportNewestFirst | src/lib/trading/trade-history.ts:143-147 | The report lists the last closed position first, and at equal times the greatest number in text order first. |
| TradeHistoryLaws.RestAfterCursor | src/lib/trading/trade-history.ts:108-151 | The rows a cursor selects are the rest of the report after its row. |
| TradeHistoryLaws.NextPageExactly | src/lib/trading/trade-history.ts:153-186 | A next page continues the report if and only if the row its cursor names has a non-empty number and a valid date; otherwise it is the first page again. |
| TradeHistoryLaws.RestartExample | src/lib/trading/trade-history.ts:153-186 | Two rows, the newer without a number: with one row a page, the first page follows itself for ever. |
| TradeHistoryLaws.PaginationExact | src/lib/trading/trade-history.ts:133-186 | Following cursors reads prefixes of the report, ends within ceil(rows / limit) pages, and ends exactly with the whole report read. |
| TradeHistoryLaws.PercentTextsLawful | src/lib/trading/trade-history.ts:60-65 | Percent-encoding has the laws the cursor relies on. |
| PercentEncoding.RoundTrip | src/lib/trading/trade-history.ts:64 | Every text survives encoding and decoding (section 2.1 of RFC 3986). |
| PercentEncoding.EncodedExactly | src/lib/trading/trade-history.ts:64 | Which characters stay as they are, and what any other ASCII one becomes. |
| PercentEncoding.EncodedHasNoColon | src/lib/trading/trade-history.ts:75 | An encoded text has no colon and is empty only for the empty text. |
| TradeDistributions.ComputeLinearRegression | src/lib/trading/trade-distributions.ts:11-68 | Nothing is returned if and only if there are fewer than two finite points or the denominator is below epsilon; otherwise the least-squares line with its statistics. |
| TradeDistributions.Accumulate | src/lib/trading/trade-distributions.ts:23-36 | The single pass yields the four sums and the extremes of x. |
| TradeDistributions.DenominatorNonNegative | src/lib/trading/trade-distributions.ts:37-41 | The denominator is never negative, and zero if and only if all x are equal. |
| TradeDistributions.NormalEquations | src/lib/trading/trade-distributions.ts:43-44 | The errors of the fitted line sum to zero, alone and weighted by x. |
| TradeDistributions.BestFit | src/lib/trading/trade-distributions.ts:43-53 | No line leaves less squared error than the fitted one. |
| TradeDistributions.RSquaredIsProportion | src/lib/trading/trade-distributions.ts:54-55 | The explained share lies between 0 and 1. |
| TradeDistributions.RSquaredExactly | src/lib/trading/trade-distributions.ts:49-55 | The share times the squared distances of y from their mean is what the fit removes of them; it is 1 if and only if the fit leaves nothing. |
| TradeDistributions.FiniteExactly | src/lib/trading/trade-distributions.ts:11-20 | The points that enter the fit are those with two finite coordinates, as often as given. |
| TradeDistributions.SampleEvenly | src/lib/trading/trade-distributions.ts:92-105 | All items when there are few, otherwise the requested number of them with both ends. |
| TradeDistributions.PicksEvenlySpaced | src/lib/trading/trade-distributions.ts:98-102 | Consecutive picks are a floor or a ceiling of the step apart, and strictly increase. |
| TradeDistributions.PicksEnds | src/lib/trading/trade-distributions.ts:98-102 | The first and the last index are always picked. |

## Left out

* Terminal calls, process discovery, locks, access control, health files, the supervisor, start-up clean-up and exit-code tables: foreign calls, table lookups and one-step facts. The adapter is any answer of rows or FAILED.
* SQLite, Redis and Prisma internals: a transaction and a script are atomic, a rollback restores the old tables. Faults injected between statements of one transaction are that rollback.
* The backup file written before a bound is raised.
* Profile and epoch registration, and foreign keys to them: rows of one profile are assumed registered. The uniqueness constraints of windows, records, links and outbox rows are modelled.
* JSON and SHA-256: content is a datatype and the digest a function of it; lemmas that need it assume that no two contents share a digest. Identifiers are numbers in the order of their hexadecimal text.
* Field checks of the input models: only the checks the built fields can fail are modelled. What an order stores as it is listed is one number; its times and volume are modelled.
* Text timestamps: UTC times are integer milliseconds. Jitter is any value the caller passes as the delay.
* Decimal and floating-point rounding: exact reals. Square roots (correlation, standard error) and holding seconds are not modelled.
* Redis data loss, a reset of the coordination epoch, and replay of published rows.
* Excursion figures of a position, health counters and logging of the consumer, and re-creation of a lost consumer group.
* Redis-backed view storage and its time-outs: the process-local cache only. Cloning of views: values cannot be changed in place here.
* The bound on poll cycles used by tests.
- PositionReconstructor.ComputePositionLifecycle: promises nothing for negative volumes, because the validator of the handler lets none through (src/worker-v2/validators.ts:26-31); `HistoryConsumer.Database.Valid` keeps them out of the table.
- StreamConsumer.RunConsumerLoop: new entries arrive before a pass, before a read and before a trim, because appends touch nothing else that an iteration reads; a failing listing or claim is a visit that throws; the numbers in entry ids are unbounded.
- EndToEnd.NothingIsLostEndToEnd: the group starts at the first entry and its ids are those of the appends; one loop serves the stream; each ticket has one payload. Decoding an entry is any function here; `EveryRecordArrives` ties it to the payload.
- EndToEnd.EveryRecordArrives: the same, except that decoding an envelope yields the event its record stands for; which fields of the payload that event takes is a parameter.
- ForwardLaws.ForwardOutcomeExactly: no two contents share a digest, and the journal is honest, which `JournalRuns.ReachableIsHonest` proves of every run.
- LiveSequence.LiveNeverGoesBack: each worker process acquires the lease once, as the worker does (bridge/worker.py:321-326, 634), and all of one login share a journal profile.
- Watchdog.WatchdogSound: the worker's clock and the clock of Redis run at the same rate.
- IngestionLaws.ClosedPositionsExact: assumes one payload per ticket, different numbers for different tickets, and deals without a position are not rebuilt.
- IngestionLaws.Confluence: the registry is fixed and each ticket has one payload; what the source corrects later is not claimed to arrive.
- TradeDistributions.SampleEvenly: the limit is an integer.
- TradeHistory.CursorRoundTrip: the parser of numbers is a parameter that reads back every printed integer; text order is by character code.
- HistoryLaws.RowOrderIrrelevant: tickets are distinct within one answer of the adapter.
- History.Synchronizer.Reconcile: an integrity error is reported as raised, since the synchronizer catches type, value and runtime errors only.
- JournalRepository.Repository.AckOutbox: as in the code, the owner of the claim is not checked, so delivery is at least once and never claimed to be exactly once.
