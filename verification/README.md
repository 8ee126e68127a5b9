# Verification of the scanner service

A Dafny model of the stateful cores of a web service that drives one shared virus
scanner for several users, and proofs about it. `dafny verify dfyconfig.toml` checks
everything.

| modules | what they model |
|---|---|
| `ScanQueues`, `ScanQueueLaws`, `PowerProtocol`, `PowerProgress`, `PowerLaws` | the in-memory scan queue, its lazily started runner, the scan processes and the automatic engine-sleep timer, as one interleaved step system |
| `LoginLimiters`, `LoginLimiterTight`, `LoginLimiterCauses` | per-source and global login windows and cooldowns over one map that gets wiped |
| `Lookups`, `LookupProtocol`, `LookupLaws` | asynchronous lookups: quota counters, the shared record cap, eviction, cancel-and-wait |
| `HistoryIndex`, `HistoryRows`, `HistoryLoop`, `HistoryProgress` | the incremental job index and the event loop that keeps it up to date |
| `QuarantineRecords`, `Quarantine`, `QuarantineLaws` | moving a file into quarantine and back while every command may fail |
| `CronFields`, `CronLines`, `CronDocument`, `CronFile`, `CronSaved`, `CronEditor`, `CronLaws` | the two cron field validators, rule lines, and the editor of the cron configuration |
| `AppConfigKeys`, `AppConfigLines`, `AppConfig`, `SettingsLaws` | reading and merging the settings file |
| `Paths`, `PathLaws` | path containment and the refusal of symbolic links |
| `Sessions`, `SessionLaws`, `SessionOverlap` | idle and absolute expiry of login sessions, with requests one by one and overlapping |
| `LogRotation`, `LogLaws` | the rotating application log |
| `Text`, `Subsequences`, `UserIds`, `Optional`, `Sets` | strings, subsequences, account identifiers, optional values, set sizes |

Code that changes state in place is a class whose methods are proved against
functions on values; queues and maps are fields that the methods reassign. The
theorems about whole runs are stated over those functions. A protocol is a step
system: a run is a sequence of states and steps, sections under a mutex are single
steps, and a mutex that is held across calls (the power mutex, the lookup lifecycle
lock) has its holder in the state. The modules whose names end in `Laws`, `Rows` or
`Causes` say what the functions mean in terms of ids, owners, texts, numbers and times.

Assumptions: generated ids, tokens and temporary names are new; times passed to a
component never go back; the limiter's configuration is fixed between resets; file
system and database calls succeed, except in quarantine, where each command decides
freely whether it reports success, whether it took effect and what it leaves behind
(only that a copy or mv that reports success is complete, and that mv gives up its
source for a complete target). A change of a job file gives it a modification time it
never had before, and detection logs are fixed once their job file is published.
Strings are sequences of characters; where the original counts bytes a character is
one byte.

Where the code does less than one might expect, the code was kept, and the exact
condition and an input that misses it are proved:

- the Go validator accepts `0--0` and `+5`, because `-0` and `+5` are numbers to it, and
  the shell validator ignores one comma at the end of a field
  (`CronFields.ValidatorsAgree`, `CronFields.ValidatorsDiffer`);
- a rule whose target contains a quote and a space, or a newline, or other white space
  but no space or tab, is not read back as it was (`CronSaved.PrintedIsReread`,
  `CronSaved.NewlineIsLost`, `CronSaved.UnquotableTargets`);
- a saved line that ends in a carriage return, or a single empty line, is not read
  back line by line (`CronFile.SaveThenRead`, `CronFile.LostLines`), which makes no
  difference to the rules (`CronSaved.SavedMeansTheSame`);
- a full refresh trusts equal modification times (`HistoryIndex.FullRefreshIsRebuild`,
  `HistoryIndex.EqualTimesMislead`), and a single-file refresh follows symbolic links,
  which a full refresh does not, and leaves rows of other directories
  (`HistoryIndex.FileRefreshRepairs`, `HistoryIndex.LinksMislead`,
  `HistoryIndex.LoopsMislead`, `HistoryIndex.OtherDirectoriesStay`);
- restoring loses the file if removing it from quarantine reports failure although it
  happened and the copy is then removed (`Quarantine.FileSystem.RestoreQuarantinedFile`,
  `Quarantine.FileSystem.LoseTheFile`);
- a clean-up just before a login attempt can let in a new source that met a full map
  (`LoginLimiters.CleanupHarmless`, `LoginLimiterTight.CleanUpLetsIn`);
- a clean-up that has listed a lookup as late deletes the result that is published
  meanwhile (`LookupLaws.ResultStays`, `LookupLaws.LateResultIsLost`);
- the path prefix test accepts nothing under a root that is the root directory itself
  (`Paths.TextWithinIsPrefix`, `Paths.RootLetsNothingThrough`);
- overlapping requests, or the janitor, can end a session earlier than 6900 seconds
  after its last use (`SessionOverlap.BoundKeptExactly`,
  `SessionOverlap.LateWriteHappens`, `SessionOverlap.JanitorOvertakes`).

Changes of job files that nobody reports wait for the next full refresh
(`HistoryLoop.DisagreementIsQueued`, `HistoryLoop.SilentDeletionIsMissed`).

## Model

| member | source | states |
|---|---|---|
| ScanQueues.EnqueueKeeps | server/scans.go:162-173 | submitting a batch with a new id keeps the queue sound: queued ids distinct, the running batch not queued, batches exactly the queued ones and the running one, each with the matching status |
| ScanQueues.NextKeeps | server/scans.go:692-722 | picking drops nothing, finds a batch exactly when one is queued, picks the first batch of its owner, and clears the runner flag exactly when nothing is queued or running |
| ScanQueues.NextCanPickAnyUser | server/scans.go:692-722 | whichever user has work queued, some random draw picks that user |
| ScanQueues.ActivateKeeps | server/scans.go:724-745 | activation succeeds exactly for a batch that is still queued while none runs, and keeps the queue sound |
| ScanQueues.FinishKeeps | server/scans.go:758-767 | finishing removes the running batch and leaves the queue as it is |
| ScanQueues.CancelKeeps | server/scans.go:858-885 | cancelling changes nothing unless it succeeds, never touches the running batch, and removes exactly the cancelled one |
| ScanQueues.RemovalKeepsOrder | server/scans.go:724-745 | cancelling or activating one batch leaves the relative order of all others alone |
| ScanQueues.PurgeKeeps | server/cleanup.go:178-192 | an account purge is refused exactly while the account runs a batch, else leaves none of its batches and all of the others, and never touches the running batch |
| ScanQueues.PurgeKeepsOrder | server/cleanup.go:178-192 | a purge leaves the relative order of the other accounts' batches alone |
| ScanQueues.ReorderCorrect | server/scans.go:809-856 | reordering permutes the queue, keeps every other user's id at its index, and gives the owner remove-then-insert at the requested number, clamped to the owner's count |
| ScanQueues.ReorderIsPrivate | server/scans.go:809-856 | reordering leaves every other user's subsequence as it is |
| ScanQueues.ReorderKeeps | server/scans.go:809-856 | reordering, refused or not, keeps the queue sound and the running batch untouched |
| ScanQueues.ListedMeaning | server/scans.go:185-217 | an item is listed exactly when it is the batch at its number in the owner's part of the queue and the number lies in the requested range |
| ScanQueues.ListingShowsMove | server/scans.go:185-217 | listing after a reorder shows the moved batch under the clamped number that was asked for |
| ScanQueues.ScanQueue.EnqueueBatch | server/scans.go:162-173 | the method on the fields makes exactly the specified new state and says whether a runner has to be started |
| ScanQueues.ScanQueue.NextQueuedBatchId | server/scans.go:692-722 | the compaction and the draw together give the specified state and pick |
| ScanQueues.ScanQueue.ActivateQueuedBatch | server/scans.go:724-745 | the method gives the specified state and answer |
| ScanQueues.ScanQueue.FinishBatch | server/scans.go:758-767 | the method gives the specified state |
| ScanQueues.ScanQueue.ReorderQueuedBatch | server/scans.go:809-856 | collecting, moving and writing back over the owner's positions gives the specified state and error |
| ScanQueues.ScanQueue.CancelQueuedBatch | server/scans.go:858-885 | the splice and the deletion give the specified state and error |
| ScanQueues.ScanQueue.PurgeUser | server/cleanup.go:178-192 | the active check and the compacting loop give the specified state and error |
| ScanQueues.ScanQueue.ListQueueItems | server/scans.go:185-217 | the loop lists the specified items in order |
| ScanQueueLaws.CancelExactly | server/scans.go:858-885 | a confirmed cancel succeeds exactly for a queued batch of the user who asks, with a well-formed identifier; then that batch and no other is gone; each other answer has its exact condition and changes nothing |
| ScanQueueLaws.CancelIsPrivate | server/scans.go:858-885 | whatever a user cancels, every other user keeps all batches, unchanged and in the same order |
| ScanQueueLaws.ReorderExactly | server/scans.go:809-856 | a reorder succeeds exactly for a queued batch of the user who asks and a number of at least one; each other answer has its exact condition and changes nothing |
| ScanQueueLaws.ReorderMeaning | server/scans.go:842-854 | the moved batch gets the number that was asked for or the last one, and the owner keeps the order of all the others |
| ScanQueueLaws.EnqueueMeaning | server/scans.go:162-173 | a submitted batch is the last of all and the last of its owner, as it was handed in |
| ScanQueueLaws.RunMeaning | server/scans.go:724-767 | activation takes exactly that batch out of the queue, finishing takes exactly it out of the table, and owners and targets never change |
| ScanQueueLaws.PurgeMeaning | server/cleanup.go:178-192 | unless the account runs a batch, a purge succeeds and takes away exactly its batches |
| ScanQueueLaws.DrawIsFair | server/scans.go:692-722 | there are as many draws as users with queued work, one for each, however many batches a user has, and the drawn user gets the first of them |
| ScanQueueLaws.ListingExactly | server/scans.go:185-217 | an item of the listing stands for a position of the queue whose batch the caller may see, and its number counts the visible batches up to there |
| ScanQueueLaws.ListingAscends | server/scans.go:185-217 | the listed numbers ascend and stay within the count of visible batches |
| UserIds.CheckUserId | server/auth.go:601-617 | the one-pass check accepts exactly the identifiers of eight lower-case letters and digits with one of each |
| PowerProtocol.NoSleepUnderScan | server/sleep_wake.go:164-183 | in every run, while the automatic sleep action runs no manual scan process is alive, the timer holds the power mutex, and nothing reset the timer for at least the armed interval, which is ten minutes or more |
| PowerProtocol.SleepExcludesStarts | server/scans.go:380-430 | while the automatic sleep action runs no step starts a scan process or another power action |
| PowerProtocol.NoStaleDeadline | server/sleep_wake.go:131-180 | the decision to sleep is only taken under the power mutex on an expired deadline whose generation, re-checked there, is still current and whose interval is too, unless a new one is stored and about to be announced |
| PowerProtocol.NoResetLost | server/sleep_wake.go:31-45 | every completed advance is covered by an arm that began after it or has its token in the channel, and a quiet timer with an empty channel is armed for the current generation and interval |
| PowerProtocol.LiveMeansActive | server/scans.go:291-330 | a live scan process belongs to the running batch, and there is at most one |
| PowerProtocol.OneRunner | server/scans.go:658-690 | one runner exists exactly when the flag is set, queued or running work implies the flag, and the queue is sound, in every reachable state |
| PowerProgress.ActiveBatchStays | server/scans.go:858-885 | no cancel, purge, reorder, submission or other step touches the running batch or its runner; only its finishBatch ends it |
| PowerProgress.RunnerDescends | server/scans.go:291-366 | every step of the runner inside a batch, its first look at the batch included, lowers what is left to do for the batch, and only finishBatch ends it |
| PowerProgress.StepsAreBounded | server/scans.go:291-366 | in every run, from any state with a running batch until finishBatch, the batch is there unchanged and its runner has made no more steps than were left |
| PowerProgress.BatchTakesBoundedSteps | server/scans.go:658-690 | in every run the runner makes at most six steps for each target, and two more, between activation and finishBatch |
| PowerProgress.SomeStepHelps | server/scans.go:380-430 | while a batch is running, its runner, the holder of the power mutex or the end of a process can always move |
| PowerProgress.HelpIsProgress | server/scans.go:291-430 | and each such move brings the batch closer to its end |
| PowerProgress.ActiveBatchReachesFinish | server/scans.go:658-690 | from every reachable state with a running batch, moves of the runner, of the holder of the power mutex and of processes alone lead to its finishBatch: no deadlock, and no state from which it would run for ever |
| PowerProtocol.ActivatedInSubmissionOrder | server/scans.go:666-745 | in every run without reordering, one user's batches start in the order of submission, whatever users are drawn and whatever is cancelled, purged or submitted between pick and activation |
| PowerLaws.SleepNeedsIdleQueue | server/sleep_wake.go:164-183 | in every run the sleep action begins only when no batch is queued, none is running, no process is alive, and the last reset is ten minutes old or more |
| PowerLaws.DueTimerSleeps | server/sleep_wake.go:164-183 | a deadline that has passed, is current and finds the mutex free leads to the sleep action if no batch is queued or running, and otherwise to a new arm with the mutex free again |
| PowerLaws.ArmSetsDeadline | server/sleep_wake.go:131-153 | with the timer on and the engine awake an undisturbed arm sets a deadline one interval ahead for the current generation, which is due when that has passed |
| PowerLaws.ArmLeavesOff | server/sleep_wake.go:131-147 | with the timer off, or the engine asleep, it sets none |
| PowerLaws.ReceiveMeaning | server/sleep_wake.go:160-163 | taking the notification empties the channel and begins an arm that has seen every advance so far |
| PowerLaws.EveryTargetIsTried | server/scans.go:291-366 | in every run, between the activation of a batch and its finishBatch the runner tries to start a scan process exactly once for each target |
| PowerLaws.QueuedWorkStarts | server/scans.go:658-745 | a runner that decides, with work queued, picks a queued batch and makes it the running one |
| LoginLimiters.LoginLimiter.TryAttempt | server/login_limiter.go:36-79 | the method on the map, the counters and the deadlines gives the specified state, answer and wait |
| LoginLimiters.LoginLimiter.CleanUp | server/login_limiter.go:104-120 | the sweep gives the specified state |
| LoginLimiters.TraceValid | server/login_limiter.go:36-120 | after any trace of attempts and clean-ups the limiter is sound: in particular its map never exceeds the overall limit |
| LoginLimiters.RateBound | server/login_limiter.go:36-120 | for one source, or for all together, accepted attempts within a span shorter than the smaller of the cooldown and ten minutes number at most twice the limit less one, across window roll-over, cooldowns, global wipes and clean-ups |
| LoginLimiterTight.RateBoundIsReached | server/login_limiter.go:40-79 | the bound for all sources cannot be improved: with an overall limit of three, five attempts are accepted within a nanosecond, because a rejected attempt opens the first window |
| LoginLimiters.SourceRateBound | server/login_limiter.go:36-79 | for a single source the bound is one lower, and one when the limit is one |
| LoginLimiters.LastAttemptCostsCooldown | server/login_limiter.go:66-90 | whoever uses a last attempt is not accepted before a whole cooldown has passed, even if a global cooldown clears its entry |
| LoginLimiters.WaitIsHonest | server/login_limiter.go:40-79 | the wait returned with a rejection is positive and a true lower bound on the source's next acceptance, whatever happens in between |
| LoginLimiters.WaitIsExact | server/login_limiter.go:40-79 | with nothing in between, coming back after the wait is accepted |
| LoginLimiters.RetryAfterCovers | server/login_limiter.go:135-141 | the Retry-After delay (section 10.2.3 of RFC 9110) covers the wait and exceeds it by less than a second, unless it is the minimum of one second |
| LoginLimiters.CleanupHarmless | server/login_limiter.go:104-120 | a clean-up just before an attempt never turns an acceptance into a rejection, and turns a rejection into an acceptance in exactly one case: a new source that met a full map holding expired entries |
| LoginLimiterTight.CleanUpLetsIn | server/login_limiter.go:104-120 | that case happens after a trace of six attempts |
| LoginLimiterCauses.RejectionHasCause | server/login_limiter.go:36-90 | over every trace, a rejected attempt has one of three causes: within the last cooldown and ten minutes its source had all its accepted attempts, or all sources together had theirs; or within the last cooldown a new source met a full map |
| LoginLimiterCauses.OverflowNeedsAttempts | server/login_limiter.go:64-68 | a map can only be full after as many accepted attempts as all sources together may have |
| LoginLimiterCauses.BelowLimitsIsAccepted | server/login_limiter.go:36-79 | so an attempt is always accepted while its source and all sources together have had fewer accepted attempts than their limits |
| LoginLimiterCauses.CleanUpExactly | server/login_limiter.go:104-120 | a clean-up keeps exactly the entries with a window or a cooldown that is not over, unchanged, and forgets everything once a global cooldown is over |
| LoginLimiterCauses.Units | server/login_limiter.go:14-90 | a window lasts ten minutes and a cooldown as many seconds as are configured |
| Lookups.LookupTables.Start | server/lookups.go:48-77 | a worker starts exactly when the runtime is running and its user has fewer than two, and the counter stays the number of the user's workers |
| Lookups.LookupTables.Leave | server/lookups.go:61-75 | a leaving worker takes itself out of the table and the counter, and a counter of zero out of the map |
| Lookups.LookupTables.CancelUser | server/lookups.go:95-111 | every worker of the user and no other is cancelled, and these are the ones to wait for |
| Lookups.LookupTables.Cleanup | server/lookups.go:174-187 | a completed record stays, unchanged, exactly until 15 minutes after it was completed and a pending one exactly until 90 seconds after it was started; the workers of those that go, and no others, are cancelled |
| Lookups.LookupTables.FindOldest | server/lookups.go:195-206 | the scan of a snapshot finds a completed record that no other completed one predates, or shows that all are pending |
| Lookups.LookupTables.MakeRoom | server/lookups.go:189-209 | the eviction loop ends, succeeds exactly when fewer than ten records are pending, leaves nine or fewer, and evicts only completed records, oldest first |
| LookupProtocol.LimitsHold | server/lookups.go:48-117 | at every moment of every run a user's counter equals the user's live workers, at most two, and the three record maps hold at most ten of the user's records |
| LookupProtocol.NoAbandonedRecord | server/lookups.go:136-153 | whenever the lifecycle lock is free and the context is not done, each pending record has a live, uncancelled worker of its user, so at most two are pending |
| LookupProtocol.RoomIsAlwaysFound | server/lookups.go:189-209 | a start that passed its quota check never fails for want of room, unless the runtime is stopping |
| LookupProtocol.EvictsOldest | server/lookups.go:189-209 | what is evicted is, at that moment, the user's oldest completed record, whatever workers published since it was chosen |
| LookupProtocol.RoomLoopEnds | server/lookups.go:189-209 | the steps of the eviction loop lower a measure that no concurrent step raises |
| LookupProtocol.LaunchSucceeds | server/lookups.go:147-152 | a start that inserted its record launches its worker, unless the runtime is stopping, and then takes the record out again |
| LookupProtocol.RemovalIsComplete | server/lookups.go:254-263 | removing a user leaves no worker, counter or record of the user |
| LookupProtocol.RemovalProgresses | server/lookups.go:94-109 | each worker a removal waits for can be cancelled, give up or leave at once, so the wait cannot get stuck |
| LookupProtocol.CounterNeverUnderflows | server/lookups.go:62-69 | a worker that is done can always leave: its user's counter is positive |
| LookupLaws.StartExactly | server/lookups.go:48-83 | a worker may start exactly while the runtime runs and fewer than two of the user's workers are there |
| LookupLaws.StartGoesThrough | server/lookups.go:136-153 | while the runtime runs, a start with fewer than two workers and ten records ends with its pending record and its running worker in the tables |
| LookupLaws.PublishMeaning | server/result_lookup.go:146-178 | publishing writes the outcome and its time into that record only |
| LookupLaws.NoMoreThan | server/lookups.go:48-209 | at every moment of every run, no three workers and no eleven records belong to one user |
| LookupLaws.NothingIsLeft | server/lookups.go:254-263 | after a removal no worker and no record has that user |
| LookupLaws.RemovalHasCause | server/lookups.go:136-263 | over every run, a record goes for one of four reasons only: room is made for its user and it is the oldest completed one; its user is removed; its worker could not be started because the runtime is stopping; or a clean-up had listed it, pending for 90 seconds or completed for 15 minutes |
| LookupLaws.ResultStays | server/lookups.go:174-187 | over every run, a result published less than 90 seconds after its lookup began stays as it is for 15 minutes, unless it is evicted as the oldest or its user is removed |
| LookupLaws.LateResultIsLost | server/lookups.go:174-187 | the 90 seconds are needed: a clean-up that has listed a late pending lookup deletes the result that is published meanwhile |
| LookupLaws.CleanupIsComplete | server/lookups.go:174-187 | over every run, a record that is late when a clean-up begins is gone when it ends |
| HistoryIndex.HistoryIndexer.Refresh | server/history_index.go:112-156 | the walk with its skips, upserts and deletions leaves, job by job, exactly the specified row |
| HistoryIndex.HistoryIndexer.RefreshFile | server/history_index.go:185-202 | a single-file refresh leaves exactly the specified rows |
| HistoryIndex.HistoryIndexer.UpgradeSchema | server/history_index.go:85-110 | only schema 2 is upgraded, by a forced walk that deletes nothing, and a failure changes nothing |
| HistoryIndex.FullRefreshIsRebuild | server/history_index.go:112-156 | a full refresh leaves exactly the rows of a rebuild from scratch, if and only if every recorded modification time that equals its file's belongs to that file's row |
| HistoryIndex.EqualTimesMislead | server/history_index.go:137-144 | it happens that they do not: a file that is overwritten with garbage and keeps its time keeps its row |
| HistoryIndex.RebuildAgrees | server/history_index.go:76-80 | refreshing an empty index always gives the rebuild, and refreshing an index that agrees changes nothing |
| HistoryIndex.FileRefreshRepairs | server/history_index.go:185-218 | a single-file refresh touches no other job and repairs its own, unless the file is a link to an acceptable file, or a link that cannot be examined while the job has a row, or the job without an acceptable file has a row from another directory (exactly then it does not) |
| HistoryIndex.LinksMislead | server/history_index.go:191-202 | a single-file refresh gives a link to an acceptable file a row, which a rebuild does not, and there are such files |
| HistoryIndex.LinkMisleads | server/history_index.go:191-202 | it does so for every acceptable file that is linked |
| HistoryIndex.LoopsMislead | server/history_index.go:191-198 | it leaves the row of a file that was replaced by a loop of links |
| HistoryIndex.OtherDirectoriesStay | server/history_index.go:192-195 | it leaves the row of a job whose file is gone if the row is from another directory |
| HistoryIndex.UpgradeKeepsRows | server/history_index.go:82-110 | the schema upgrade never removes a row, and gives every acceptable file its row |
| HistoryRows.RowExactly | server/history_index.go:220-297 | a job has a row exactly if the file named after it is a regular file with a version 3 document of that job, its type, owner, start, and action are well formed, and, if something was found and a log is named, that is the job's own log and it exists |
| HistoryRows.RowHolds | server/history_index.go:220-297 | the row holds that document, the file's place and time, and exactly the detections of the job's own log if something was found and a log is named, none otherwise |
| HistoryRows.JobIdIs | server/history_index.go:21 | a job id is manual- or cron-, ten to nineteen digits, and possibly a dash and three digits |
| HistoryRows.RefreshedExactly | server/history_index.go:112-156 | after a full refresh whose times told the truth the index has a row for exactly the jobs that deserve one, and that row |
| HistoryRows.FileRefreshedExactly | server/history_index.go:185-218 | after a refresh of one regular or missing file its job has a row exactly if it deserves one, and no other row is touched |
| HistoryLoop.DisagreementIsQueued | server/history_index.go:420-530 | in every run, a job the index has wrong is in the notifications, the watcher's hand, the request channel, the pending paths or the refresh under way, or changed silently since the last full refresh began; pending work always has an armed timer |
| HistoryLoop.DrainedMeansRebuilt | server/history_index.go:420-530 | a drained loop has exactly the rows of a rebuild, if nothing changed silently since the last full refresh began |
| HistoryLoop.SilentDeletionIsMissed | server/history_index.go:420-530 | an unnoticed deletion leaves the loop drained and the row in place |
| HistoryLoop.FullRefreshCatchesUp | server/history_index.go:520-528 | once a full refresh has begun, only jobs that changed silently after its beginning can still be missed |
| HistoryLoop.SameAsFileRefresh | server/history_index.go:185-218 | without changes in between, the loop's refresh of one file is the indexer's |
| HistoryProgress.SomethingHelps | server/history_index.go:420-530 | in every reachable state that is not drained, a step of the watcher or the loop is possible that brings it closer |
| HistoryProgress.CanCatchUp | server/history_index.go:420-530 | from where any run is, steps of the watcher and the loop alone lead to a drained loop with exactly the rows of a rebuild, whatever was missed before |
| QuarantineRecords.ParseOfPrint | server/quarantine.go:392-410 | a printed record reads back as the same path and owner if the path has no double quote, and is refused, never misread, if it has one |
| QuarantineRecords.ParseIsSafe | server/quarantine.go:392-410 | whatever is read has a path without a quote and a well-formed owner, and an empty reservation is unreadable |
| QuarantineRecords.NameIsDataName | scan_once.sh:275-293 | every name the search tries is a data name, so data files and records never collide |
| QuarantineRecords.IndexBound | scan_once.sh:286-299 | a serial number whose name fits is bounded, so the search for a name ends |
| Quarantine.FileSystem.ReserveName | scan_once.sh:275-323 | the first serial number whose name and record are both free is reserved, with every name before it taken, even by scans that take names meanwhile; the search fails exactly if a name before that is too long or the record cannot be created, only adds files, and ends |
| Quarantine.FileSystem.PlainNameIsReserved | scan_once.sh:286-307 | a file whose own name is free, fits and is no record name is given that name |
| Quarantine.FileSystem.PrepareFallback | scan_once.sh:200-211 | the way on is clear exactly if the source is there and the target is absent or its clean-up reports success; the target is cleaned up only while the source is there |
| Quarantine.FileSystem.MoveDetectedFile | scan_once.sh:213-273 | whatever each command does or leaves, the complete file is at the source or the target after every command and no other file changes; it succeeds exactly if link and delete, copy and delete, or mv works after those before it failed cleanly, and then the file has moved |
| Quarantine.FileSystem.QuarantineDetectedFile | scan_once.sh:325-365 | through reservation, record, move, publication and rollback the complete file is at its path or at the reserved target after every command; it succeeds exactly if the file is there, the first free name fits, its record can be created and the commands work, fallbacks included; success moves the file, publishes its record and touches nothing else |
| Quarantine.FileSystem.CopyRegularFile | server/quarantine.go:344-379 | the copy succeeds exactly if the source is there, the target is not, nobody creates it first and each call works; it never writes or removes a file that was at the target, or appeared there at the last moment |
| Quarantine.FileSystem.RestoreQuarantinedFile | server/quarantine.go:327-342 | restore never overwrites and succeeds exactly if every call works on a free target; the complete file is in quarantine or at the target after every step, if and only if the inputs are not those of the one way to lose it: the copy works, its removal from quarantine takes effect but reports failure, and taking the copy back takes effect |
| Quarantine.FileSystem.LoseTheFile | server/quarantine.go:337-340 | for every file there are such outcomes, and after them it is nowhere |
| Quarantine.FileSystem.RecoverSubject | server/quarantine.go:287-325 | a file is recovered exactly if the recorded owner asks, the path is permitted and free, and every call works; otherwise nothing changes or the file is kept; the complete file is in quarantine or at its path after every step, with the same one exception |
| Quarantine.FileSystem.DeleteSubject | server/quarantine.go:268-285 | a file is deleted exactly if the recorded owner asks, it is there and both removals report success; the record never goes before the file |
| Quarantine.FileSystem.RoundTrip | server/quarantine.go:287-342 | with commands that work, fallbacks included, a file is quarantined exactly if a free name for it fits, and then recovery by the owner restores the same bytes at the same path and leaves nothing over, if and only if the path has no double quote |
| QuarantineLaws.BaseNameIs | scan_once.sh:275-277 | the base name is what follows the last slash, without newlines at its end |
| QuarantineLaws.TriedNames | scan_once.sh:277-293 | the names tried are the base name, unless it ends in .rec or is the lock's, and then the base name, a dot and 1, 2, 3 ... in decimal with at least three digits |
| QuarantineLaws.NamesDiffer | scan_once.sh:286-293 | no name is tried twice |
| QuarantineLaws.ReservedIsFree | scan_once.sh:295-303 | a name fits if it and its record's are within the limit, and is free if neither path exists |
| QuarantineLaws.RecoverExactly | server/quarantine.go:287-325 | with a record that the scan wrote, recovery is granted exactly to the owner named in it, for a permitted path where nothing is, while the file is in quarantine and its path has no double quote; then the file is there and nothing is left in quarantine |
| QuarantineLaws.DeleteExactly | server/quarantine.go:268-285 | with such a record deletion is granted exactly to its owner |
| QuarantineLaws.NoRecordNoAccess | server/quarantine.go:268-325 | without a record, or with an empty one that only reserves a name, nobody recovers or deletes |
| QuarantineLaws.WaysToMove | scan_once.sh:213-273 | which answers of the commands make each of the three ways of moving succeed or fail |
| QuarantineLaws.NothingIgnored | server/quarantine.go:327-379 | no failure of a call is ignored in a restore |
| QuarantineLaws.NothingSkipped | scan_once.sh:325-365 | a quarantine run has written its record, moved the file and published the record |
| CronFields.ValidatorsAgree | server/cron.go:538-586 | the shell validator (config.sh:170-257) accepts a word exactly when the Go validator accepts it without one comma at its end and it has no two dashes in a row and no plus sign |
| CronFields.ValidatorsDiffer | config.sh:232-257 | the differences are real: 0--0 and +5 are accepted by the Go validator only, a field with a comma at its end by the shell validator only |
| CronFields.AcceptedFieldsMeanSomething | server/cron.go:538-586 | each accepted field stands for at least one value and for none outside its range |
| CronFields.AcceptedFieldsAreTokens | server/cron.go:538-586 | each accepted field is one word of its line |
| CronLaws.AtomExactly | server/cron.go:565-586 | a star, a number in the range, and a range of numbers in it from low to high are accepted, other numbers and ranges are not |
| CronLaws.StepExactly | server/cron.go:550-563 | behind a slash any step from one on is accepted |
| CronLaws.ListExactly | server/cron.go:538-548 | a field is accepted exactly if it is a list of accepted parts with commas between them, none empty |
| CronLaws.RequestExactly | server/cron.go:512-536 | the ranges of the five fields and the three actions |
| CronLines.PrintThenParse | server/cron.go:682-713 | the two lines of a printed rule are read as that rule, enabled or disabled, if and only if the target with a space or tab has no quote in it and without one is a token that does not start with a quote; they are two lines of a file if and only if the target has no newline |
| CronLaws.MetaLineExactly | server/cron.go:682-684 | the text of the metadata line |
| CronLaws.RuleLineExactly | server/cron.go:686-713 | the nine words of the rule line in their order, the target quoted if it has a space or a tab, all behind a hash if the rule is disabled |
| CronSaved.PrintedIsReread | server/cron.go:222-268 | printing a rule, saving its lines and reading the file is the identity, if and only if the target is printable: both of the above |
| CronSaved.NewlineIsLost | server/cron.go:606-609 | with the target /a b, newline, c the lines in memory are read as the rule and the saved file is not |
| CronSaved.UnquotableTargets | server/cron.go:708-713 | with a quote next to a space, or a carriage return and no space, not even the lines in memory are |
| CronSaved.ValidatedIsWellFormed | server/cron.go:514-536 | a request that passed validation has single-word fields and action, which is all the printers and parsers need |
| CronLines.AbsoluteTargetsArePrintable | server/cron.go:505-509 | absolute targets without quotes and with no white space but spaces and tabs are printable |
| CronLines.ParsedIsWellFormed | server/cron.go:270-341 | every rule that can be read has a valid id and owner and single-token fields and action |
| CronDocument.RewrittenBlock | server/cron.go:416-418 | rewriting the two lines of a block changes that block when read again, and no other |
| CronDocument.DeletedBlock | server/cron.go:452 | deleting a block leaves the others, those behind it two lines further up |
| CronDocument.AppendedBlock | server/cron.go:396 | two appended lines are read as one more block |
| CronDocument.OthersRemain | server/cron.go:792-808 | without the lines of one user's blocks exactly the others' rules are read, in order |
| CronSaved.CronIsFaithful | server/cron.go:222-378 | the reader and the printers of this program meet what the editing operations rely on |
| CronSaved.SavedMeansTheSame | server/cron.go:606-609 | single lines mean the same after they were saved and read, even if they end in carriage returns |
| CronSaved.RewrittenIsReread | server/cron.go:416-419 | a rewritten block is read from the file as the new rule, and the others as they were, if and only if the new target is printable |
| CronSaved.AppendedIsReread | server/cron.go:396-397 | an appended rule is read from the file behind the others, if and only if its target is printable |
| CronSaved.RewrittenReadsBack | server/cron.go:606-609 | an edited document comes back from the file line by line, if its other lines do, if and only if the new target has no newline |
| CronEditor.CronConfig.Read | server/cron.go:237-268 | the text of the file is cut into lines, and the reading loop finds exactly the specified blocks or fails |
| CronEditor.CronConfig.Update | server/cron.go:400-419 | the first rule with that id which is the user's own, and only its lines, change, or the user has no such rule and nothing changes; read again from the file the document has exactly that change, if and only if the target is printable, and then everybody else's rules are as they were |
| CronEditor.CronConfig.SetEnabled | server/cron.go:421-441 | the same for switching a rule on or off, which fails exactly if the user has no such rule or it is switched on without permission for its target |
| CronEditor.CronConfig.Delete | server/cron.go:443-454 | a deletion takes out the first rule with that id which is the user's own, or the user has no such rule and nothing changes; read again from the file the rules before and behind it, and so everybody else's, are as they were |
| CronEditor.OthersFilter | server/cron.go:203-220 | the rules of everybody else are exactly those with another owner, in their order |
| CronEditor.CronConfig.Add | server/cron.go:380-398 | a rule is appended; read again from the file it is one more rule, if and only if its target is printable |
| CronEditor.CronConfig.DisableForUser | server/cron.go:757-783 | every line outside the user's blocks stays; read again from the file exactly the user's rules are disabled, if and only if the targets of those that were enabled are printable |
| CronEditor.CronConfig.RemoveForUser | server/cron.go:785-814 | exactly the lines of the user's blocks go, and exactly the others' rules are read from the file, in order |
| CronFile.SaveThenRead | server/cron.go:606-609 | saved lines are read back as they were, if and only if none ends in a carriage return and they are not one single empty line |
| CronFile.LostLines | server/cron.go:230-235 | both happen |
| CronFile.ReadLinesAreSingle | server/cron.go:231-235 | lines that were read contain no newline |
| AppConfigKeys.PrintedValueParses | server/app_config.go:304-317 | the text of every stored value parses back to the value |
| AppConfigLines.SettingsAreCoherent | server/app_config.go:331-366 | the key names, the line reader and the line rewriter of this program meet what merging relies on: a rewritten line is the same key with the new value, and rewriting again changes nothing |
| AppConfigLines.DefaultIsNormal | server/app_config.go:67-78 | the default settings are settings that can be stored |
| AppConfig.ParseAppConfig | server/app_config.go:149-216 | the loop over the lines gives the specified settings or fails |
| AppConfig.MergeAppConfigContent | server/app_config.go:331-380 | the pass over the lines and the pass over the entries give the specified text |
| AppConfig.MergeThenParse | server/app_config.go:331-380 | reading a merged file gives, key by key, the new value where the key changed or was absent and the file's own value otherwise |
| AppConfig.MergeKeepsLines | server/app_config.go:343-366 | comments, blank lines and lines of unchanged keys survive a merge verbatim and in place (an empty last line may become an appended one) |
| AppConfig.MergeTwice | server/app_config.go:331-380 | merging the same settings twice equals merging once, whatever is in the file |
| AppConfig.UpdateTakesEffect | server/app_config.go:86-118 | if nobody else edited the file, what is read after an update is exactly what was asked for |
| AppConfig.AppConfigStore.Update | server/app_config.go:86-118 | an update succeeds exactly if the request is valid, the merged text can be read and, unless it is the text that is there, written; a failure changes neither file nor memory; a success merges the changed keys into the file and leaves memory equal to what the file says |
| AppConfig.AppConfigStore.EnsureAndReload | server/app_config.go:120-147 | a missing file is created with the defaults, an existing one gets its missing keys; this succeeds exactly if the file can be read or is missing and, unless nothing is missing in it, can be written; a failure changes nothing |
| SettingsLaws.ParseExactly | server/app_config.go:149-216 | a file is accepted as these settings exactly if every line is blank, a comment or the entry of a setting, none comes twice, each setting that has a line has the value of its text, every other one its default, and all are in range |
| SettingsLaws.EntriesExactly | server/app_config.go:152-170 | the entries of a file are, setting by setting, the texts of its lines |
| SettingsLaws.LineExactly | server/app_config.go:153-163 | what makes a line skipped, malformed or an entry, and what its name and value are |
| SettingsLaws.NumberExactly | server/app_config.go:218-240 | a number is an optional sign and digits, within 64 bits |
| SettingsLaws.LevelExactly | server/app_config.go:206-207 | the log level is read without regard to the case of its letters |
| SettingsLaws.ValidExactly | server/app_config.go:242-280 | the ranges of all settings |
| SettingsLaws.DefaultExactly | server/app_config.go:67-78 | the defaults |
| SettingsLaws.ChangedExactly | server/app_config.go:319-329 | the changed settings are those whose values differ |
| SettingsLaws.RewrittenExactly | server/app_config.go:343-366 | a rewritten line keeps all in front of its equals sign, and its line ending |
| SettingsLaws.MergeExactly | server/app_config.go:334-380 | a saved file is the old one with the lines of changed settings rewritten, and then NAME=value for each setting that was missing, in their order |
| Paths.CleanOfRender | server/browse.go:272 | cleaning the text of a clean path changes nothing |
| PathLaws.CleanIsTheWalk | server/browse.go:268-287 | on a file system without links, wherever the kernel gets along the uncleaned path is the cleaned path |
| PathLaws.CleanExactly | server/browse.go:272 | part by part: an empty one and a dot stay, two dots go up but never above the root directory, a name goes down |
| PathLaws.ContainsExactly | server/browse.go:254-258 | containment is by whole names from the front |
| PathLaws.SolidExactly | server/browse.go:294-319 | without missing ends, a path is free of links exactly if every prefix exists, none is a link, and all but the last are directories |
| PathLaws.LinkDecides | server/browse.go:294-319 | the first link on the way refuses the path, also where missing ends are allowed |
| PathLaws.MissingDecides | server/browse.go:294-319 | a way through directories to a missing name passes exactly if that is allowed |
| Paths.TextWithinIsPrefix | server/browse.go:254-258 | the prefix test on the texts is containment by components, except under the root directory, which for the test contains only itself |
| Paths.RootLetsNothingThrough | server/browse.go:254-258 | no other path passes the test under the root directory |
| Paths.RejectSymlinkComponents | server/browse.go:294-319 | a path is accepted if and only if all its prefixes exist and none is a link, or, where that is allowed, they do up to a directory in which the next name is missing |
| Paths.ValidatePath | server/browse.go:268-287 | a path is accepted, as its cleaned form, if and only if it is absolute, under a root and free of links |
| Paths.AcceptedLeadsToItself | server/browse.go:260-319 | with links followed, an accepted path leads to itself, or, if its end may be missing, every part that exists does |
| Paths.IsTimeDockDeviceName | server/browse.go:228-241 | the loop accepts exactly extdev, and usb followed by digits |
| Paths.TimeDockDeviceAccounts | server/browse.go:204-226 | the loop collects exactly the account directories on real device directories |
| PathLaws.DeviceExactly | server/browse.go:228-241 | extdev, or usb and one digit or more |
| PathLaws.AccountExactly | server/browse.go:204-226 | under a root without links the account directories are exactly the real directories on devices that are real directories; a link in either place is none |
| Paths.AccountPathsStayInside | server/browse.go:163-182 | in account mode an accepted path lies in the account's own directory on a device and leads to itself, as far as it exists |
| Sessions.SessionTable.Authenticate | server/auth.go:181-206 | a request is accepted exactly when the row is there, not revoked and not expired, and refreshes it at most every 300 seconds, never past its absolute expiry |
| Sessions.SessionTable.Handle | server/auth.go:181-206 | each session sees the requests, revocations and clean-ups that are meant for it and nothing else |
| Sessions.UsedSessionsStayAlive | server/auth.go:181-206 | a session used at most 6900 seconds ago works, unless revoked or a day old |
| Sessions.DeadSessionsStayDead | server/auth.go:181-206 | a session last used 7200 seconds ago or more, or 24 hours old, or revoked, does not work |
| Sessions.IdleBoundsAreTight | server/auth.go:27-29 | neither idle bound can be improved |
| Sessions.CleanUpIsInvisible | server/auth.go:654-674 | requests are answered as if the janitor had never deleted anything |
| SessionLaws.LifeInSeconds | server/auth.go:181-206 | in seconds: used within 6900 it works, after 7200 without use or at the age of 86400 or revoked it does not |
| SessionLaws.RequestMeaning | server/auth.go:181-206 | a request is accepted strictly before both deadlines, and written back from 300 seconds after the last write on, with an idle deadline 7200 seconds ahead but not past the absolute one |
| SessionLaws.LoginMeaning | server/auth.go:385 | a new session works for two hours without use and a day at most |
| SessionLaws.RevokeMeaning | server/auth.go:181-206 | a revocation is for good; the time of an earlier one is replaced only when asked for |
| SessionLaws.CleanUpExactly | server/auth.go:654-674 | the janitor deletes exactly the rows past a deadline and those revoked more than a day ago |
| SessionLaws.RowsGo | server/auth.go:654-674 | whatever happens to it, every row is deleted by a clean-up more than a day after its login |
| SessionOverlap.AcceptedExactly | server/auth.go:181-204 | however requests, refreshes, revocations and clean-ups overlap, a session is accepted exactly when it was not revoked, is less than a day old, less than two hours have passed since the request whose refresh landed last, and the janitor has not overtaken a refresh |
| SessionOverlap.BoundKeptExactly | server/auth.go:181-204 | a session is accepted whenever it was used at most 6900 seconds ago, if and only if the janitor has overtaken no refresh and the request whose refresh landed last came less than 300 seconds before the last use or in the last two hours of the day |
| SessionOverlap.OrderlySessionsStayAlive | server/auth.go:181-204 | it is, if refreshes land in the order of their requests and all have landed, and the janitor comes by only when none is outstanding |
| SessionOverlap.LateWriteShortens | server/auth.go:198-204 | every refresh that lands 300 seconds or more late, before the last two hours of the day, breaks the bound |
| SessionOverlap.LateWriteHappens | server/auth.go:198-204 | two requests can overlap so that the session ends 6600 seconds after its last use |
| SessionOverlap.JanitorOvertakes | server/auth.go:661-671 | the janitor can delete a row between the two statements of an accepted request |
| LogRotation.RotationDropsOldest | server/internal/applog/logger.go:207-241 | a rotation loses exactly the oldest file within the limit |
| LogRotation.RotatingWriter.Shift | server/internal/applog/logger.go:223-235 | the chain of renames moves every file one up, whatever files are missing |
| LogRotation.RotatingWriter.Write | server/internal/applog/logger.go:181-198 | the record ends the active file, before which, exactly if it does not fit, every file moves one up and exactly the oldest goes; archives, oldest first, and the active file always are the end of everything written, cut between records; files this writer started, which are all but those found at first under their present numbers, keep to the size limit or hold a single record |
| LogRotation.EveryRun | server/internal/applog/logger.go:181-241 | over every sequence of writes to whatever files are found: the files within the limit are the end of all text, and all of it while none had to go; each file the run started, or that was not there, keeps to the size limit or holds a single record; and files beyond the limit are not touched |
| LogLaws.WriteExactly | server/internal/applog/logger.go:181-241 | a record goes behind what is in the active file if that is empty or both keep to the limit, and else every file moves one up, only the last is lost and the record starts a new file |
| LogLaws.NoFileIsGivenUpEarly | server/internal/applog/logger.go:187-191 | over every history, of two neighbours that were started the first record of the newer one would not have fitted into the older |

## Left out

- PowerProtocol.NoSleepUnderScan: covers the automatic sleep only; an administrator's sleep request may race a scan that has not taken its lock, and cron scans are outside the queue's guard.
- PowerProtocol.NoResetLost: the generation is unbounded; its wrap-around after 2^64 resets is not modelled.
- HistoryLoop.DrainedMeansRebuilt: the job files of the loop are not links and all rows are of one directory; links and other directories are covered by the lemmas on single refreshes.
- LoginLimiters.RetryAfterCovers: the seconds are computed exactly, not through the floating-point ceiling of the original.
- Quarantine.FileSystem.MoveDetectedFile: files are contents; symbolic links, modes, owners and the sharing of a hard link's data are not modelled.
- LookupLaws.ResultStays: the original ends every lookup after 30 seconds; that timer is not part of the step system, so the lemma asks that the result came within 90.
- Paths.AcceptedLeadsToItself: the file system is fixed while a path is checked and used.
- PowerProgress.ActiveBatchReachesFinish: that a process ends by itself and that the power mutex is handed out fairly are assumptions about the system, not part of the step system; between activation and finishBatch nothing else is needed.
- LookupProtocol.EvictsOldest: the records of the three maps are read in one step, where the original reads them under three mutexes one after the other.
- HistoryLoop.DisagreementIsQueued: the loop is the only one to refresh; the refreshes before and after an account is deleted (server/cleanup.go:83, server/cleanup.go:169) run beside it under the index's own mutex.
- PowerProtocol.LiveMeansActive: the status of the running batch changes to finished or failed only with finishBatch, shortly after it does in the original.
- Batch messages, progress counters and job ids of a batch; shutdown and context cancellation of the timer; the sleep-lock check before a submission.
- In-place edits of Go slices are sequence updates of one field; aliasing between slices of one array is not modelled.
- The mkdir scan lock: it rests on process liveness and gives no exclusion to state.
- The panics and partial initialisation of lookup workers; a work function fails with a cancellation error only when its context was cancelled.
- The delays of the history loop (debounce, cooldown, retry): timers may fire at any time once armed; a periodic refresh does not fail.
- Lines of more than 64 KiB in the settings file, which the original refuses, and the parsing of IP addresses, which is a parameter.
- The cron script that validates a saved configuration and reloads it; an edit is judged by what is read back.
- Error texts; which of several errors in one file is reported first.
- Failed writes of the rotating log, which go to standard error.
- parse_detection_log, history statistics by local day, whitelist lines, log masking, the Argon2 slots and the trusted proxy list: easy next to what is here.
- HTTP handlers, JSON, cookies, the React frontend, SQLite, fsnotify, clamd sockets and process execution: abstract values, events and outcomes.
- Concurrent administrator requests on accounts and the last-administrator rule: no lock covers check and update.
- startup.sh, cron.sh, exclude.sh, log.sh: supervision and I/O.
