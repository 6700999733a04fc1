# A verified model of the guest agent's stateful cores

This project models the compact, stateful parts of the Google guest agent and proves what they promise over
every input, every run and every interleaving. It covers:

- **Network telemetry** (`cmd/guest_net_telemetry`): collector timers snapped to a common grid, the reporter
  that batches results by due time, the queue that hands reports to the sender, the worker loop that swaps
  whole collection runs, the failure counter and the override list. Modules `TelemetryConfig`, `Collector`,
  `Scheduler`, `Reporting`, `ReporterTheorems`, `ReporterMemory`, `ReporterHistory`, `ReporterRounds`,
  `ReporterBatches`, `Dispatch`, `SendHealth`, `Worker`, `WorkerHistory`.
- **Snapshot freeze and unfreeze** (`cmd/core_plugin/snapshot`) with the recency cache it uses for
  de-duplication (`internal/lru`). Modules `Snapshot`, `SnapshotTheorems`, `SnapshotHistory`, `Lru`.
- **Text files that must be restorable**: the managed-block editor, `authorized_keys`, `nsswitch.conf` with the
  OS Login rollback, and `google_users`. Modules `Text`, `TextConfig`, `AuthorizedKeys`, `OsLogin`,
  `GoogleUsers`.
- **Small cores**: the metric buffer shared by concurrent recorders, the ring buffer, the version printer and
  parser. Modules `MetricRegistry`, `BoundedList`, `OsInfo`.

`Sequences` and `Tally` hold general facts about sequences, sets and multisets.

Check everything with `dafny verify dfyconfig.toml`.

## How the code is represented

- An object whose methods change its fields is a class; each method is proved equal to a function of the old
  state, and the theorems are about that function over whole runs.
- A `select` branch or a critical section is a step of a state machine. A clock reading, a tick, what a script or
  a collection returned, and the order in which Go visits a map are inputs, so a theorem holds for all of them.
- Two of the machines, the snapshot handler and the worker loop, have a second description that reads only the list
  of steps taken so far and never the machine's state; `SnapshotHistory` and `WorkerHistory` prove that both allow
  exactly the same lists.
- A file is an optional string. Time is in nanoseconds; 0 is Go's zero time, which the reporter uses to mean
  "none", so clock readings are positive.
- `PluginConfig.equal` compares all fields, and is equality of the datatype here.

## Where the code falls short, and exactly when

- `updateSSHKeys` removes the file when there are no metadata keys, under the comment "Remove empty file", even
  when the file holds the user's own keys. Its parser pairs each comment with the next non-empty line, so a key
  after an empty one is taken for the user's and stays for good. `AuthorizedKeys.LastUpdateWinsIff` and
  `AuthorizedKeys.ParseRenderIff` give the exact conditions.
- Checking for a duplicate operation and marking it are separate critical sections. No schedule for a list of
  requests loses a freeze if and only if no PRE in the list is repeated
  (`SnapshotTheorems.FreezesKeptIffNoPreRepeated`). For every list with a repeated PRE, whatever else it holds,
  `SnapshotTheorems.RepeatedPreLosesFreeze` is a schedule that runs every request to its end and leaves the guest
  frozen, with no timer and no POST left.
- The reporter forgets flushed due times that are more than twice `MaxRunTimeout` older than one just flushed, so
  the late first result of a collector can make a second report for a due time
  (`ReporterMemory.StragglerIsReportedAgain`). It happens exactly when a result arrives for a due time that was
  reported and since superseded (`ReporterMemory.OneReportPerDueIff`).
- Which due times it remembers depends on the order in which Go visits the deadlines, exactly when two expired
  ones are that far apart (`ReporterMemory.TimerOrderIrrelevantForMemoryIff`).
- A rollback of OS Login stops when `nsswitch.conf` cannot be read, before the PAM and group files are cleaned.
  `OsLogin.RollbackClearsCheckIff` gives the exact condition.
- A text block whose entry reads as an end delimiter leaks lines into the file; cleaning undoes applying, and
  applying is idempotent, exactly when no entry escapes (`TextConfig.CleanupUndoesApplyIff`,
  `TextConfig.ApplyIdempotentIff`).
- The metric buffer can exceed its limit: with N > 0 recorders it reaches exactly `max(maxRecords - 2, 0) + N`
  (`MetricRegistry.BoundIsReached`), so a limit of at least 2 is kept in every interleaving exactly when there are
  at most two recorders (`MetricRegistry.LimitKeptByTwo`; `MetricRegistry.LimitKeptIff` for every limit).
- `addToGUsers` appends to an unterminated last line, which merges the new name with the last one and loses both,
  and its line scanner drops a trailing carriage return, so a name that ends in one is added again every time.
  `GoogleUsers.AddIdempotentIff` gives the exact condition for any file and name.

## Model

| member | source | states |
|---|---|---|
| `TelemetryConfig.EffectiveTimeout` | cmd/guest_net_telemetry/config.go:40-49 | The timeout is positive, at most MAX_RUN_TIMEOUT and at most half of any interval of two nanoseconds or more; a requested timeout is used whenever it keeps these bounds. |
| `TelemetryConfig.ApplyCollectorOverrides` | cmd/guest_net_telemetry/config.go:104-144 | The loop over the parts computes the fold of one-part changes, and hands back the base config with an error as soon as one part is rejected. |
| `TelemetryConfig.OverrideFrame` | cmd/guest_net_telemetry/config.go:104-144 | An override adds or removes no collector, changes no timeout, enables none outside [MIN_INTERVAL, MAX_INTERVAL], and leaves the config alone when it is rejected. |
| `TelemetryConfig.OverrideComposes` | cmd/guest_net_telemetry/config.go:116-143 | The list "a,b" is accepted exactly when a is accepted and b is accepted after it, and then acts as a followed by b; otherwise nothing changes. |
| `TelemetryConfig.OneOverride` | cmd/guest_net_telemetry/config.go:116-143 | The list with the one part "name = value": "off" and "false" disable that collector and keep its interval; a duration from 10 seconds to one hour enables it with that interval; an unknown name and any other value reject the list. Blanks around the name and the value do not count. |
| `TelemetryConfig.NoOverride` | cmd/guest_net_telemetry/config.go:116-124 | A part that is neither blank nor holds an equals sign rejects the list. |
| `TelemetryConfig.BlankOverride` | cmd/guest_net_telemetry/config.go:110-120 | A blank list is accepted and changes nothing. |
| `Scheduler.NominalDueSnaps` | cmd/guest_net_telemetry/scheduler.go:15-23 | A tick after the epoch is snapped to the grid point at or before it, less than one interval away; every due time is on the grid. |
| `Scheduler.NominalDueMonotone` | cmd/guest_net_telemetry/scheduler.go:18-23 | Later ticks never get earlier due times, across the epoch and for any interval. |
| `Scheduler.SameDueIffSameWindow` | cmd/guest_net_telemetry/scheduler.go:18-23 | Two ticks share a due time exactly when they fall in the same window of the grid. |
| `Scheduler.RunCollectorLoop` | cmd/guest_net_telemetry/scheduler.go:61-96 | Result i carries the collector's name, run number i+1, the snapped due time of tick i, the first one the epoch, and the outcome of run i; exactly the results accepted before the context ends are sent, in order. |
| `Scheduler.DueIffInWindow` | cmd/guest_net_telemetry/scheduler.go:15-23 | A tick is snapped to grid point i exactly when it falls in the i-th window of the grid, for any tick. |
| `Scheduler.WindowedDue` | cmd/guest_net_telemetry/scheduler.go:15-23 | When each tick falls in its own window, run i is due exactly i intervals after the epoch. |
| `Scheduler.WindowedDuesIncrease` | cmd/guest_net_telemetry/scheduler.go:61-96 | The due times of one collector are then strictly increasing. |
| `Scheduler.LoopDueOnGrid` | cmd/guest_net_telemetry/scheduler.go:67-95 | Whatever its ticks, every result of a collector is due on that collector's grid. |
| `Scheduler.StartLoops` | cmd/guest_net_telemetry/scheduler.go:44-60 | A loop is started for exactly the known collectors that are configured, enabled and have a positive interval, each once. |
| `Reporting.Reporter.ExpectedAtDue` | cmd/guest_net_telemetry/reporter.go:40-54 | The loop collects exactly the known, enabled collectors whose grid contains the due time. |
| `Reporting.Reporter.BuildReport` | cmd/guest_net_telemetry/reporter.go:56-108 | The number goes up by one, and the loops over collectors and groups compute the report as a function of the batch as a map. |
| `Reporting.Reporter.AddGroups` | cmd/guest_net_telemetry/reporter.go:70-84 | The inner loop appends the groups in order and folds their stamps into the running minimum start and maximum end. |
| `Reporting.IncludedInOrder` | cmd/guest_net_telemetry/reporter.go:65-85 | The groups of a report follow the order of the collectors: splitting the collector list splits the groups at the same place. |
| `Reporting.Reporter.ForgetOld` | cmd/guest_net_telemetry/reporter.go:181-186 | Visiting the remembered due times in any order keeps exactly those at most 2 * MAX_RUN_TIMEOUT older than the one just flushed. |
| `Reporting.Reporter.FlushDue` | cmd/guest_net_telemetry/reporter.go:175-197 | A flush removes the batch and its deadline, remembers the due time, forgets old ones, and emits one numbered report unless the batch is empty. |
| `Reporting.Reporter.RearmTimer` | cmd/guest_net_telemetry/reporter.go:161-173 | Whatever the visiting order, the timer is armed at the least deadline or now if that has passed, and stopped when there is no deadline. |
| `Reporting.Reporter.OnResult` | cmd/guest_net_telemetry/reporter.go:203-234 | A late result changes nothing; any other joins its batch, opens it with a deadline if it is the first, flushes it if it was the last, and rearms the timer. |
| `Reporting.Reporter.OnTimer` | cmd/guest_net_telemetry/reporter.go:236-245 | Every deadline is visited once in the given order, the expired ones are flushed, and the timer is rearmed. |
| `ReporterTheorems.RunReporter` | cmd/guest_net_telemetry/reporter.go:199-247 | The event loop over any legal list of events leaves the reporter in the state that the run function gives. |
| `ReporterTheorems.InvariantOverRuns` | cmd/guest_net_telemetry/reporter.go:121-126 | After every event: the same keys in pending and deadlines, none of them remembered as flushed; every open batch non-empty, consistent and lacking an expected collector; reports numbered 1, 2, 3, ... and built from their batch; the timer set exactly when something is pending, and not before the earliest deadline. |
| `ReporterTheorems.TimerOverRuns` | cmd/guest_net_telemetry/reporter.go:161-173 | After any number of events of a run, the timer is armed for the earliest deadline, or for the clock reading of the last event that rearmed it when that deadline had passed by then. |
| `ReporterTheorems.LastRearmIsLast` | cmd/guest_net_telemetry/reporter.go:203-245 | That event rearmed the timer and no later one did; only results dropped as late do not. |
| `ReporterTheorems.TimerNeverLate` | cmd/guest_net_telemetry/reporter.go:156-173 | In every run, the timer stands between the earliest deadline and the later of that deadline and the latest clock reading, and is stopped when nothing is pending. |
| `ReporterTheorems.SweptForm` | cmd/guest_net_telemetry/reporter.go:239-244 | A sweep in any order takes out exactly the expired batches and reports each of them once, as it was. |
| `ReporterTheorems.TimerLeavesNoneExpired` | cmd/guest_net_telemetry/reporter.go:236-245 | After a timer event at time now, every remaining deadline is later than now. |
| `ReporterTheorems.TimerMakesProgress` | cmd/guest_net_telemetry/reporter.go:156-173 | When the timer's moment has come, the event flushes at least one batch: the timer is never armed in vain. |
| `ReporterTheorems.TimerOrderIrrelevant` | cmd/guest_net_telemetry/reporter.go:240-244 | Two visiting orders leave the same batches, deadlines, timer and count, and emit the same set of reports, each due time once; only the numbers may differ. |
| `ReporterMemory.TimerOrderDecidesMemory` | cmd/guest_net_telemetry/reporter.go:181-186 | In any state, with two expired due times more than 2 * MAX_RUN_TIMEOUT apart among any others, one visiting order remembers the early one and another forgets it. |
| `ReporterMemory.TimerOrderIrrelevantForMemoryIff` | cmd/guest_net_telemetry/reporter.go:181-186 | In any state, all visiting orders leave the same due times remembered exactly when no two expired ones are more than 2 * MAX_RUN_TIMEOUT apart. |
| `ReporterMemory.CloseMemory` | cmd/guest_net_telemetry/reporter.go:181-186 | Then what is remembered is the earlier memory and the expired due times, without those that an expired one is much later than. |
| `ReporterTheorems.ArrivalFlushesOnlyComplete` | cmd/guest_net_telemetry/reporter.go:221-233 | An arrival emits at most one batch: of its own due time, holding that result, and lacking no expected collector. |
| `ReporterHistory.ResultsAreConserved` | cmd/guest_net_telemetry/reporter.go:203-246 | Over any run, the multiset of results received equals the pending ones, plus the emitted ones, plus the overwritten ones, plus those dropped as late. |
| `ReporterHistory.OverwrittenBySame` | cmd/guest_net_telemetry/reporter.go:213-219 | A result is overwritten only by a later result of the same collector for the same due time. |
| `ReporterMemory.SecondFlushOnlyAfterLaterDue` | cmd/guest_net_telemetry/reporter.go:177-186 | In every run, between two flushes of one due time lies the flush of a due time more than 2 * MAX_RUN_TIMEOUT later. |
| `ReporterMemory.OneReportPerDueIff` | cmd/guest_net_telemetry/reporter.go:124-126 | In every run, each due time is reported at most once, and none reported is open again, exactly when no result arrives for a due time that was reported and then superseded by one more than 2 * MAX_RUN_TIMEOUT later. |
| `ReporterMemory.OneReportPerDue` | cmd/guest_net_telemetry/reporter.go:124-126 | So if no result arrives more than 2 * MAX_RUN_TIMEOUT behind a flushed due time, each due time is reported at most once, and the reports are numbered without gaps. |
| `ReporterMemory.StragglerIsReportedAgain` | cmd/guest_net_telemetry/reporter.go:181-186 | For any settings that expect two collectors at a due time: one of them reports, the timer closes the batch, a due time more than 2 * MAX_RUN_TIMEOUT later is reported, and the late first result of the other makes a second report for the first due time. |
| `ReporterMemory.ForgottenDueIsReportedTwice` | cmd/guest_net_telemetry/reporter.go:181-186 | The same with batches that each result completes at once: a due time, a much later one, the first again, and three reports. |
| `ReporterBatches.IncludedExactlyHealthy` | cmd/guest_net_telemetry/reporter.go:65-71 | A group is in the report exactly when it belongs to a result without error of a known collector in the batch. |
| `ReporterBatches.ReportHoldsGroups` | cmd/guest_net_telemetry/reporter.go:56-85 | A report carries its number and, in the order of the collectors, the groups of each healthy result as the collector returned them. |
| `ReporterBatches.EnvelopeCoversGroups` | cmd/guest_net_telemetry/reporter.go:72-97 | The envelope covers every included stamp and is attained by one of them; without stamps it is the due time and the clock reading. |
| `ReporterRounds.CollectedExactly` | cmd/guest_net_telemetry/reporter.go:213-219 | The batch built from results of distinct collectors holds exactly these results under their names. |
| `ReporterRounds.OthersLeaveAlone` | cmd/guest_net_telemetry/reporter.go:203-245 | Results of other due times, and timer events before its deadline, leave a due time's batch, deadline and absence from the memory as they are, and report nothing for it. |
| `ReporterRounds.StaysOpen` | cmd/guest_net_telemetry/reporter.go:212-234 | Over any events, until its batch is complete or its deadline passes, a due time collects exactly the results that arrived for it, keeps the deadline that the first one fixed, and is not reported. |
| `ReporterRounds.BatchIsReported` | cmd/guest_net_telemetry/reporter.go:203-245 | Whatever happens in between, the result that completes a batch, or the timer event after its deadline, reports it: exactly once, with exactly the results that arrived for its due time. |
| `ReporterRounds.RoundIsReported` | cmd/guest_net_telemetry/reporter.go:221-233 | One result from each expected collector, in any order and among any other events, with no timer event once the deadline has passed, gives exactly one report for the due time, with all of them in the batch. |
| `ReporterRounds.RunGoesOn` | cmd/guest_net_telemetry/reporter.go:199-247 | These runs from an arbitrary state are the tails of the runs from the start. |
| `ReporterRounds.ArrivalOrderIrrelevant` | cmd/guest_net_telemetry/reporter.go:20-22 | Two runs in which the same results arrive for a due time, in any two orders and among any other events, report it once each, completed or expired, with the same batch, the same groups in the same order, the same start, and the same end if a group has one. |
| `ReporterBatches.SentResultsAreExpected` | cmd/guest_net_telemetry/reporter.go:40-54 | Every result that the collector loops send passes the reporter's test at its due time: both components use the same grid. |
| `ReporterBatches.ExpectedIffSent` | cmd/guest_net_telemetry/reporter.go:40-54 | With every tick in its own window, the reporter expects a collector at a due time from the epoch up to the end of the window of its last run exactly when one of these runs is due then. |
| `ReporterBatches.ExpectedExactlyStarted` | cmd/guest_net_telemetry/reporter.go:40-54 | With loops for exactly the collectors that the scheduler starts, for every collector, known or not, enabled or not: the reporter expects it at a due time exactly when its loop was started and has a run due then. So a disabled collector is never awaited. |
| `ReporterBatches.StartedLoopsComplete` | cmd/guest_net_telemetry/reporter.go:221-234 | When the results due then from the started loops have arrived, in any order and among any other events with no timer event after the deadline, the last of them has the batch reported, once, with exactly those collectors. |
| `ReporterBatches.DistinctResultsNeverOverwrite` | cmd/guest_net_telemetry/reporter.go:213-219 | Over any run, results that differ in collector or due time never overwrite each other. |
| `ReporterBatches.SchedulerNeverOverwrites` | cmd/guest_net_telemetry/scheduler.go:61-96 | With every tick in its own window, no result of any collector is overwritten, however the channel interleaves the collectors. |
| `ReporterBatches.OpenBatchesArePartial` | cmd/guest_net_telemetry/reporter.go:212-234 | For results sent by the collector loops, an open batch holds some, but not all, of the collectors expected at its due time, and no others. |
| `Dispatch.DispatchedWithoutGaps` | cmd/guest_net_telemetry/reporter.go:133-150 | For any run of the reporter, in every interleaving of reporter, queue, worker and cancellation, what is handed to the sender is a first part of what the reporter emitted, in its order, numbered 1, 2, 3, ... without gaps; the queue never holds more than 16. |
| `Dispatch.NothingLostBeforeCancel` | cmd/guest_net_telemetry/reporter.go:190-196 | Before cancellation every report that the reporter built was sent, or is in the worker's hand, in the queue or waiting for a place in it, in this order. |
| `Dispatch.AllCanBeDispatched` | cmd/guest_net_telemetry/reporter.go:133-150 | Before cancellation, from every reachable state, some continuation sends everything emitted: the queue and its worker never get stuck. |
| `Dispatch.QueueTakesSixteen` | cmd/guest_net_telemetry/reporter.go:133-150 | The queue takes up to sixteen reports in order before the worker takes one, so the reporter blocks no earlier. |
| `Dispatch.AtMostOneAfterCancel` | cmd/guest_net_telemetry/reporter.go:133-150 | After cancellation, at most the one report that the worker had already decided to send is sent. |
| `SendHealth.Health.Record` | cmd/guest_net_telemetry/plugin.go:506-516 | The counter stays equal to the length of the failing tail of the sends recorded. |
| `SendHealth.Health.Reset` | cmd/guest_net_telemetry/plugin.go:518-522 | A reset starts an empty record of sends. |
| `SendHealth.Health.Failing` | cmd/guest_net_telemetry/plugin.go:524-533 | Failing is reported exactly when at least ten sends were recorded and the last ten all failed. |
| `SendHealth.TailBelow` | cmd/guest_net_telemetry/plugin.go:524-533 | The failing tail has length n or more exactly when the last n results exist and all failed. |
| `Worker.OneRunWithCurrentConfig` | cmd/guest_net_telemetry/plugin.go:546-621 | Over all schedules, a run that is alive is the latest one, started with some collector enabled, and collection is not paused; while the loop is in its select, its config is the one last read, and exactly then the run is not cancelled, so that a run with any other config has been; its context stands exactly while, besides, the surrounding context stands. |
| `Worker.WantsLastRead` | cmd/guest_net_telemetry/plugin.go:563-619 | Over all schedules, the config wanted is the one that the last successful refresh read, or the initial one, and the loop enters its periods and waits in its select with that one. |
| `Worker.RunsAreStarted` | cmd/guest_net_telemetry/plugin.go:563-582 | The runs ever started are exactly: one, with the config last read, each time a period is entered while that config enables something. The sends recorded are those of the schedule, each for the run started last. |
| `Worker.EarlierRunsReceivedFirst` | cmd/guest_net_telemetry/plugin.go:610-619 | A new run starts only when the completion of every earlier run has been received. |
| `Worker.RunsOnlyMoveOn` | cmd/guest_net_telemetry/plugin.go:563-619 | Runs never disappear and keep their config, a cancelled one stays cancelled and a received one stays received: no completion is received twice. |
| `Worker.NothingLeftBehind` | cmd/guest_net_telemetry/plugin.go:585-598 | When the loop has returned, every run it ever started has completed and been received. |
| `Worker.FailingMeansLastTenOfThisRun` | cmd/guest_net_telemetry/plugin.go:518-533 | Over all schedules, the failure count reaches ten exactly when the last ten sends recorded since the latest run was started all failed; sends of earlier runs never count. |
| `Worker.Drive` | cmd/guest_net_telemetry/plugin.go:546-621 | Driving the loop object by any schedule of its own moves and of those of its context and run leaves it in the state that the schedule reaches, about which the theorems here speak. |
| `WorkerHistory.SchedulesAreHistories` | cmd/guest_net_telemetry/plugin.go:563-619 | The loop allows exactly the step lists in which each step is permitted by the steps before it alone: a period is left by the end of the context, the end of its run, or a refresh that reads another config than the one last read when it was entered; the next one is entered only after such a refresh, and after the run, if one was started, has exited and been received. |
| `WorkerHistory.RunsFollowSteps` | cmd/guest_net_telemetry/plugin.go:563-619 | Over all schedules, runs of earlier periods are cancelled and received; the run of the current one is cancelled exactly when the period has been left, alive exactly until it exits, and received exactly when the loop saw it end. Collection is paused exactly while the config of the period enables nothing. |
| `WorkerHistory.NewConfigTakesOver` | cmd/guest_net_telemetry/plugin.go:599-619 | From the select of any reachable state, a refresh that reads another config can be followed up to the next select: then every earlier run is cancelled and received, and one new run is alive with the new config, or collection is paused when that enables nothing. |
| `Worker.Loop.EnterPeriod` | cmd/guest_net_telemetry/plugin.go:563-582 | Entering a period starts a run with the current config exactly when something is enabled, resets the failures then, and sets the paused flag otherwise. |
| `Worker.Loop.OnContextDone` | cmd/guest_net_telemetry/plugin.go:585-592 | The end of the context cancels the run and waits for it, or returns at once when there is none. |
| `Worker.Loop.OnRunDone` | cmd/guest_net_telemetry/plugin.go:593-598 | A run that ends by itself is received and ends the loop. |
| `Worker.Loop.OnRefresh` | cmd/guest_net_telemetry/plugin.go:599-617 | A failed or unchanged read changes nothing; a new config cancels the run and waits for it, or starts the next period at once. |
| `Worker.Loop.OnStoppedRun` | cmd/guest_net_telemetry/plugin.go:589-619 | Receiving the cancelled run either returns or starts the next period with the wanted config. |
| `Worker.Loop.OnSend` | cmd/guest_net_telemetry/plugin.go:684-699 | The result of a send is recorded for the latest run and in its failure count. |
| `Lru.Handle.Get` | internal/lru/lru.go:46-59 | A hit returns the stored value and moves its key to the front, a miss changes nothing; table and list keep the same keys. |
| `Lru.Handle.Put` | internal/lru/lru.go:61-77 | The three branches together put the key first, keep the others in order as far as they fit, and drop exactly the keys that fell out from the table. |
| `Lru.Handle.Len` | internal/lru/lru.go:79-84 | The size of the table is the length of the list. |
| `Lru.PutForms` | internal/lru/lru.go:61-77 | A put is, as a value: move to front, push to front, or drop the last key and push to front, according to presence and fullness. |
| `Lru.Run` | internal/lru/lru.go:42-77 | After any trace, table and list hold the same keys, none twice, and at most capacity of them. |
| `Lru.InclusionOverTraces` | internal/lru/lru.go:48-77 | After any trace applied to two caches, the smaller one's list is a subsequence of the larger one's, as long as it can be, and every stored value agrees. |
| `Lru.CachedExactlyWhenRecent` | internal/lru/lru.go:48-77 | A key is cached exactly when it was used and fewer than capacity other keys were used since its last use. |
| `Lru.StoredIsLastPut` | internal/lru/lru.go:48-77 | After any trace, a cached key holds the value that was put last for it. |
| `Snapshot.Client.CheckSeen` | cmd/core_plugin/snapshot/snapshot_linux.go:313-316 | A request is a duplicate exactly when its ID is in the cache of its own type, and is then the most recent one there; everything else is left alone. |
| `Snapshot.Client.MarkSeen` | cmd/core_plugin/snapshot/snapshot_linux.go:320-321 | The ID becomes the most recent one of its own cache; everything else is left alone. |
| `Snapshot.Client.CancelWatchdog` | cmd/core_plugin/snapshot/snapshot_linux.go:497-506 | The timer on file for the operation, if any, is told to stop and taken off the file; no other timer is touched. |
| `SnapshotTheorems.StepsAreCalls` | cmd/core_plugin/snapshot/snapshot_linux.go:313-336 | Every step of handlers and timers changes the shared state exactly as the critical section it enters. |
| `SnapshotTheorems.Drive` | cmd/core_plugin/snapshot/snapshot_linux.go:287-506 | Driving the shared object by any schedule leaves it in the shared part of the state that the schedule reaches. |
| `SnapshotTheorems.FrozenIff` | cmd/core_plugin/snapshot/snapshot_linux.go:334-336 | In every interleaving, a handler goes on to arm a timer exactly when its request is a PRE and its script succeeded. |
| `SnapshotTheorems.FreezeNeverAbandoned` | cmd/core_plugin/snapshot/snapshot_linux.go:320-336 | In every interleaving, for every received PRE whose script succeeded: it is about to arm its timer; or its timer waits uncancelled; or it fired and goes on to post.sh; or another handler of the same operation cancelled it and attempts its script; or the service is shutting down. |
| `SnapshotTheorems.PendingTimersAreUncancelled` | cmd/core_plugin/snapshot/snapshot_linux.go:499-506 | In every interleaving, each cancel function on file belongs to a timer of that operation which has not been cancelled. |
| `SnapshotTheorems.CancelledByPost` | cmd/core_plugin/snapshot/snapshot_linux.go:320-336 | While no two accepted PRE requests share an operation, a cancelled timer was cancelled by a POST of that operation, which attempts post.sh. |
| `SnapshotTheorems.FreezesKeptIffNoPreRepeated` | cmd/core_plugin/snapshot/snapshot_linux.go:313-336 | For any list of requests, exactly when no two PRE requests of it share an operation: no schedule for the list reaches a state in which a PRE script has succeeded and neither a timer nor a POST of that operation, received and not yet dealt with, will attempt post.sh; and exactly then every schedule keeps each such freeze by its own timer or the POST that cancelled it. |
| `SnapshotTheorems.BothPresAccepted` | cmd/core_plugin/snapshot/snapshot_linux.go:313-322 | For any list with a repeated PRE, a schedule in which both pass the check, because check and mark are separate. |
| `SnapshotTheorems.RepeatedPreLosesFreeze` | cmd/core_plugin/snapshot/snapshot_linux.go:320-336 | For any list with a repeated PRE, a schedule for it, in which the first one's script succeeds, at whose end every handler is finished or rejected and the only timer has ended, cancelled by the second PRE, with the first freeze standing and no shutdown. |
| `SnapshotTheorems.DuplicateExactlyWithinWindow` | cmd/core_plugin/snapshot/snapshot_linux.go:49-50 | With check and mark as one step, a request is a duplicate exactly when its ID was requested or marked by the failsafe before and fewer than 128 other IDs were since. |
| `SnapshotTheorems.SeenIsCached` | cmd/core_plugin/snapshot/snapshot_linux.go:313-321 | In every interleaving, the cache of each type is what the recency cache holds after the lookups and marks that the requests of that type, and for POST the timers that fired, made in the steps so far. |
| `SnapshotTheorems.AcceptedTwice` | cmd/core_plugin/snapshot/snapshot_linux.go:313-321 | In every interleaving, two accepted requests of one type for one operation either each were checked before the other was marked, or one of them was checked after 128 other operations had been used. |
| `SnapshotHistory.SchedulesAreHistories` | cmd/core_plugin/snapshot/snapshot_linux.go:287-506 | The machine allows exactly the step lists in which each step is permitted by the steps before it alone. A request of a known type goes through check, mark, cancel and script, arms a timer exactly when it is a PRE whose script succeeded, and responds; it ends after its check when its operation was used less than 128 others ago. A timer, once spawned, goes through its four steps, or ends when the request that found it on file cancelled it or at shutdown. |
| `SnapshotHistory.HandlerCourse` | cmd/core_plugin/snapshot/snapshot_linux.go:307-344 | The same for one handler, in every interleaving and for every step: it is possible exactly when it continues the handler's course. |
| `SnapshotHistory.TimerCourse` | cmd/core_plugin/snapshot/snapshot_linux.go:460-494 | The same for one timer. |
| `SnapshotHistory.FileIs` | cmd/core_plugin/snapshot/snapshot_linux.go:466-468 | In every interleaving, the timer on file for an operation is the last one registered for it, unless a request of that operation cancelled or a timer of it took itself off the file since. |
| `SnapshotHistory.CancellerIs` | cmd/core_plugin/snapshot/snapshot_linux.go:497-506 | In every interleaving, a timer is cancelled exactly when some request found it on file, and then by the last one that did. |
| `SnapshotHistory.FreezeIsAnswered` | cmd/core_plugin/snapshot/snapshot_linux.go:327-494 | When nothing more can happen but a new request or a shutdown, every PRE whose script succeeded has registered a timer, and that timer attempted post.sh, or another request of the operation cancelled it and attempted its own script, or the service was shut down. Said of the steps alone. |
| `Text.Split` | internal/textconfig/textconfig.go:185-185 | Splitting always gives at least one part, and no part holds the separator. |
| `Text.JoinSplit` | internal/textconfig/textconfig.go:185-188 | Joining what was split gives back the text. |
| `Text.SplitJoin` | internal/textconfig/textconfig.go:185-188 | Splitting what was joined gives back the parts, when there is at least one and none holds the separator. |
| `TextConfig.Handle.MatchStart` | internal/textconfig/textconfig.go:233-241 | Found exactly when the trimmed line equals the start of some delimiter. |
| `TextConfig.Handle.MatchEnd` | internal/textconfig/textconfig.go:243-251 | Found exactly when the trimmed line equals the end of some delimiter. |
| `TextConfig.Handle.CleanLines` | internal/textconfig/textconfig.go:195-231 | The loop with its block flag computes the recursive cleaning of the lines. |
| `TextConfig.CleanKeepsUserLines` | internal/textconfig/textconfig.go:195-231 | Cleaning keeps, in order, exactly the lines that are neither delimiters nor deprecated and do not lie after a start without an end in between. |
| `TextConfig.Handle.BlockLines` | internal/textconfig/textconfig.go:276-295 | The lines written for one position are those of its non-empty blocks in order, each between the written delimiters. |
| `TextConfig.Handle.Cleanup` | internal/textconfig/textconfig.go:166-193 | A missing file stays missing; any other file becomes its cleaned text. |
| `TextConfig.Handle.Apply` | internal/textconfig/textconfig.go:253-302 | The file becomes the top blocks, the lines read back after cleaning in place, and the bottom blocks. |
| `TextConfig.AppliedLines` | internal/textconfig/textconfig.go:253-302 | The applied file line by line, for any blocks of plain one-line entries and any file: the top blocks, the lines that cleaning keeps, the bottom blocks; each block between the written delimiters, and each entry as its key, the spacer and its value, in order. |
| `TextConfig.AppliedHoldsEntry` | internal/textconfig/textconfig.go:276-295 | So every entry of a top or bottom block has its line in the applied file. |
| `TextConfig.DeprecatedEntryIsRemoved` | internal/textconfig/textconfig.go:195-231 | Cleaning any text with settings that list an entry as deprecated leaves no line of that entry, whatever the spacer was. |
| `TextConfig.CleanupIdempotent` | internal/textconfig/textconfig.go:179-231 | Cleaning a file twice is cleaning it once, for any settings and text. |
| `TextConfig.CleanupLeavesNoDelimiter` | internal/textconfig/textconfig.go:195-231 | No line is left that, trimmed, equals the start or end of a delimiter, or begins with the key and ends with the value of a deprecated entry, except the single empty line of an emptied file. |
| `TextConfig.LeftByApply` | internal/textconfig/textconfig.go:166-302 | What cleaning leaves of a file written by Apply is what escapes from the top blocks, the lines that cleaning alone keeps, and what escapes from the bottom blocks. |
| `TextConfig.CleanupUndoesApplyIff` | internal/textconfig/textconfig.go:166-302 | On an existing file, cleaning after an apply leaves the same text as cleaning alone exactly when no entry escapes: every line of a written block is managed or has no closing end delimiter before it. |
| `TextConfig.ApplyIdempotentIff` | internal/textconfig/textconfig.go:253-302 | On an existing file, applying twice is applying once exactly when no entry escapes. |
| `TextConfig.ApplyToMissingFile` | internal/textconfig/textconfig.go:253-302 | A file first created by an apply reaches its fixed point at the second apply, and at the first exactly when nothing is written or an empty line counts as managed. |
| `TextConfig.EntryLikeEndLeaks` | internal/textconfig/textconfig.go:81-97 | Why entries must not read as an end delimiter: a block that contains one leaves the entries after it behind. |
| `AuthorizedKeys.ReadUserKeys` | cmd/core_plugin/metadatasshkey/metadatasshkey_linux.go:129-144 | The loop with its flag computes the user's own lines. |
| `AuthorizedKeys.ParseIsOwn` | cmd/core_plugin/metadatasshkey/metadatasshkey_linux.go:129-144 | Of any file, the user's own lines are, in order, exactly the non-empty ones that are neither an announcing comment nor announced by one, a comment that is itself announced counting as a key. |
| `AuthorizedKeys.RenderKeys` | cmd/core_plugin/metadatasshkey/metadatasshkey_linux.go:146-152 | What the joins and the loop print is every user line and then a comment and a key for each key, every line terminated. |
| `AuthorizedKeys.UpdateSSHKeys` | cmd/core_plugin/metadatasshkey/metadatasshkey_linux.go:118-163 | No keys: the file is removed. Otherwise it is the rendering of the user's own lines and the keys; a missing file reads as empty. |
| `AuthorizedKeys.ParseRender` | cmd/core_plugin/metadatasshkey/metadatasshkey_linux.go:129-152 | For keys without line breaks, reading a rendered file gives back exactly the user's own lines in order, followed by the keys that leak. |
| `AuthorizedKeys.ParseRenderIff` | cmd/core_plugin/metadatasshkey/metadatasshkey_linux.go:129-152 | Nothing but the user's own lines comes back exactly when no key follows a missing one; so it always does when no key is empty. |
| `AuthorizedKeys.UpdateKeepsUserLines` | cmd/core_plugin/metadatasshkey/metadatasshkey_linux.go:124-163 | Whatever the file held, an update with keys keeps the user's own lines, and adds only the keys that leak. |
| `AuthorizedKeys.UpdatedLines` | cmd/core_plugin/metadatasshkey/metadatasshkey_linux.go:124-163 | Line by line, the file after an update with keys is the user's own lines, then each key behind its own comment, in order, and a final line break. |
| `AuthorizedKeys.LastUpdateWinsIff` | cmd/core_plugin/metadatasshkey/metadatasshkey_linux.go:118-152 | For any file and keys without line breaks, updating with k1 and then k2 equals updating with k2 alone exactly when k2 is empty; or k1 is empty and the file has no line of the user; or k1 is not empty and none of its keys leaks, as when no key is empty. |
| `AuthorizedKeys.EmptyKeyLeaksNextKey` | cmd/core_plugin/metadatasshkey/metadatasshkey_linux.go:131-143 | The smallest leak: with an empty key and another one, the parser takes the second comment for the missing key and keeps the second key as the user's. |
| `OsLogin.Module.SetupNSSwitch` | cmd/core_plugin/oslogin/oslogin_linux.go:543-576 | Fails exactly when the file is missing; otherwise every line is edited on its own and nothing else changes. |
| `OsLogin.SetupAchieves` | cmd/core_plugin/oslogin/oslogin_linux.go:556-569 | Line by line, for any file: after setting up, every passwd or group line mentions oslogin; one that did before is unchanged, any other gained exactly a blank and the two names at its end; all other lines are unchanged. |
| `OsLogin.SetupIsConfigured` | cmd/core_plugin/oslogin/oslogin_linux.go:543-688 | Setting up a file with a passwd or group line that holds no hash sign makes the check true. |
| `OsLogin.RollbackAchieves` | cmd/core_plugin/oslogin/oslogin_linux.go:556-569 | Line by line, for any file: after rolling back, every passwd or group line has lost the first occurrence of the added names, if it had one, and the white space at its ends; all other lines are unchanged. |
| `OsLogin.Module.DisableOSLogin` | cmd/core_plugin/oslogin/oslogin_linux.go:690-731 | The four files after a rollback, including the one that stops at a missing nsswitch.conf after sshd_config was cleaned. |
| `OsLogin.Module.IsConfiguredOnDisk` | cmd/core_plugin/oslogin/oslogin_linux.go:663-688 | True exactly when a passwd or group line mentions oslogin outside its comment, or a start delimiter stands in one of the other files. |
| `OsLogin.ConfiguredMeans` | cmd/core_plugin/oslogin/oslogin_linux.go:663-688 | The check in terms of the files: a passwd or group line that mentions oslogin before its first hash sign, or a line of one of the other three files that, trimmed, is the start delimiter. |
| `OsLogin.SetupIdempotent` | cmd/core_plugin/oslogin/oslogin_linux.go:556-569 | Setting up nsswitch.conf twice is setting it up once, for any file. |
| `OsLogin.RollbackRestoresLines` | cmd/core_plugin/oslogin/oslogin_linux.go:556-569 | If no passwd or group line mentions oslogin, rolling back after setting up restores every line, up to trailing white space of the edited ones. |
| `OsLogin.RollbackRestoresFileIff` | cmd/core_plugin/oslogin/oslogin_linux.go:556-569 | Any file comes back after setting up and rolling back exactly when no passwd or group line contains the added text or ends in white space. |
| `OsLogin.RollbackClearsCheckIff` | cmd/core_plugin/oslogin/oslogin_linux.go:663-731 | For any disk, the check is still true after a rollback exactly when some line mentioned oslogin beyond the added text, or nsswitch.conf was missing and the PAM or group file held a start delimiter. |
| `OsLogin.PlainBlocksAreWellFormed` | cmd/core_plugin/oslogin/oslogin_linux.go:592-624 | Blocks of one-line entries whose key begins with neither white space nor a hash sign meet what the block editor needs. |
| `OsLogin.RollbackUndoesSetup` | cmd/core_plugin/oslogin/oslogin_linux.go:690-731 | After setting up all four files, with nsswitch.conf present and well-formed blocks, and rolling back, the check is true exactly when a passwd or group line mentioned oslogin beyond the added text before, and each other file that existed is as a plain cleanup would leave it. |
| `OsLogin.Module.SetupPAM` | cmd/core_plugin/oslogin/oslogin_linux.go:592-608 | The PAM file becomes what applying the two blocks to it gives; no other file changes. |
| `OsLogin.Module.SetupGroup` | cmd/core_plugin/oslogin/oslogin_linux.go:616-628 | The group file becomes what applying the one block to it gives; no other file changes. |
| `OsLogin.PamLines` | cmd/core_plugin/oslogin/oslogin_linux.go:592-608 | The PAM file after a set-up, line by line, for any file before: the login entry, with two-factor only, and the group entry between delimiters, the kept lines, and the session entry between delimiters. |
| `OsLogin.GroupLines` | cmd/core_plugin/oslogin/oslogin_linux.go:616-628 | The group file after a set-up, line by line: the kept lines and the video entry between delimiters. |
| `OsLogin.WrittenBlocksAreWellFormed` | cmd/core_plugin/oslogin/oslogin_linux.go:592-624 | The blocks written to the PAM and group files meet what the block editor needs. |
| `OsLogin.ForeignEntrySurvivesRollback` | cmd/core_plugin/oslogin/oslogin_linux.go:559-565 | A line that mentions oslogin otherwise than by the added text keeps the check true. |
| `GoogleUsers.Store.AddToGUsers` | internal/accounts/accounts_unix.go:267-307 | The scan appends the name as a terminated line exactly when no scanned line equals it; a missing file is created. |
| `GoogleUsers.Store.RemoveFromGUsers` | internal/accounts/accounts_unix.go:309-346 | The first line equal to the name is cut out; without one, or without a file, nothing changes. |
| `GoogleUsers.Store.ListGoogleUsers` | internal/accounts/accounts_unix.go:348-372 | The list is the lines without the empty ones, in order; a missing file has none. |
| `GoogleUsers.ScannedIff` | internal/accounts/accounts_unix.go:284-293 | A name counts as present exactly when some terminated line, or an unterminated last one that is not empty, is the name, or the name and one carriage return, a name that itself ends in one needing the latter. |
| `GoogleUsers.AddedToAny` | internal/accounts/accounts_unix.go:284-304 | Any file gains exactly the name and a line break when the name is not present, and nothing otherwise. |
| `GoogleUsers.RemovedFromAny` | internal/accounts/accounts_unix.go:309-346 | Any file loses exactly the first line that is the name, or nothing when there is none; a missing file stays missing. |
| `GoogleUsers.FileRefinesOrderedSet` | internal/accounts/accounts_unix.go:267-372 | Starting from a missing file, after any adds and removes the text is the terminated lines of the corresponding duplicate-free ordered list, and listing gives that list. |
| `GoogleUsers.RemoveRepresents` | internal/accounts/accounts_unix.go:309-346 | Removing keeps the file a terminated, duplicate-free list, now without the name. |
| `GoogleUsers.AddIdempotentIff` | internal/accounts/accounts_unix.go:284-304 | For any file and any name without line breaks, adding it twice is adding it once exactly when it was scanned before, or the last line with the name appended reads as the name. |
| `GoogleUsers.AddNameIdempotentIff` | internal/accounts/accounts_unix.go:284-304 | For a name that the scanner leaves whole: exactly when it was scanned before, or the file is empty or ends in a line break. |
| `GoogleUsers.AddToListIdempotentIff` | internal/accounts/accounts_unix.go:284-304 | On the terminated lists of names that add and remove produce: exactly when the name does not end in a carriage return. |
| `GoogleUsers.UnterminatedLineIsLost` | internal/accounts/accounts_unix.go:295-297 | Adding a new name to a file with an unterminated last line, which listing shows, replaces that line by its concatenation with the name. |
| `MetricRegistry.Registry.Record` | internal/metricregistry/metricregistry.go:138-157 | Undisturbed, what was sent followed by the buffer is the old buffer followed by the metric; the old buffer is sent exactly when it was full. |
| `MetricRegistry.BufferBounded` | internal/metricregistry/metricregistry.go:125-173 | In every interleaving of N recorders and the flusher, the buffer holds at most max(maxRecords - 2, 0) + N entries. |
| `MetricRegistry.BoundIsReached` | internal/metricregistry/metricregistry.go:151-156 | For any positive number N of recorders and any limit, some interleaving fills the buffer with exactly max(maxRecords - 2, 0) + N entries. |
| `MetricRegistry.NobodyRecords` | internal/metricregistry/metricregistry.go:151-156 | With no recorder the buffer stays empty. |
| `MetricRegistry.LimitKeptIff` | internal/metricregistry/metricregistry.go:151-156 | The buffer stays within the limit in every interleaving exactly when the bound does: max(maxRecords - 2, 0) + N <= maxRecords for N > 0. |
| `MetricRegistry.LimitKeptByTwo` | internal/metricregistry/metricregistry.go:151-156 | For a limit of at least 2, the buffer stays within it in every interleaving exactly when there are at most two recorders. |
| `MetricRegistry.Drive` | internal/metricregistry/metricregistry.go:125-173 | Driving the registry object by any schedule leaves it with the buffer that the schedule reaches, and takes exactly the batches it flushes. |
| `MetricRegistry.MetricsConserved` | internal/metricregistry/metricregistry.go:132-173 | In every interleaving, the metrics added are exactly the flushed batches followed by the buffer, in order. |
| `MetricRegistry.RecordedIsAccounted` | internal/metricregistry/metricregistry.go:132-173 | In every interleaving, what was given to the recorders is, counting repetitions, what was flushed, what the buffer holds and what a recorder is still about to add: nothing is lost or invented. |
| `BoundedList.List.Add` | internal/boundedlist/boundedlist.go:35-43 | Adding appends to the contents, read oldest first, and drops the oldest entry of a full list. |
| `BoundedList.List.Len` | internal/boundedlist/boundedlist.go:50-56 | The number of entries that are really there. |
| `BoundedList.List.Item` | internal/boundedlist/boundedlist.go:58-69 | The entry at that place of the contents, or the zero value when there is none. |
| `BoundedList.List.All` | internal/boundedlist/boundedlist.go:71-79 | A fresh array with exactly the contents, oldest first. |
| `BoundedList.List.Reset` | internal/boundedlist/boundedlist.go:81-86 | Empties the list on fresh storage. |
| `BoundedList.WriteAppends` | internal/boundedlist/boundedlist.go:37-43 | Writing at the next place and wrapping around is appending and cutting to the size. |
| `BoundedList.HoldsLastEntries` | internal/boundedlist/boundedlist.go:37-86 | After any trace, the contents are exactly the last min(count, size) entries added since the last reset. |
| `BoundedList.Replay` | internal/boundedlist/boundedlist.go:37-86 | Driving the array by any trace leaves exactly those entries, oldest first. |
| `OsInfo.AtoiPrint` | internal/osinfo/osinfo_unix.go:86-97 | A printed integer of the machine's width reads back as itself and holds no dot. |
| `OsInfo.AtoiIff` | internal/osinfo/osinfo_unix.go:86-97 | For any string and number: it parses to that number exactly when it is an optional sign, leading zeros and the digits of the number, and the number fits the machine's width. |
| `OsInfo.ParseVersionIff` | internal/osinfo/osinfo_unix.go:80-103 | For any string and version: it parses to that version exactly when its dot-separated parts, as many as the version's length, are such numerals of the version's numbers. |
| `OsInfo.SplitPrinted` | internal/osinfo/osinfo.go:46-58 | A version with a major prints as its first one, two or three numbers, as its length says, separated by dots. |
| `OsInfo.LeadingZeroIsLost` | internal/osinfo/osinfo_unix.go:86-97 | So the "04" of "22.04" reads as 4, and prints as "4". |
| `OsInfo.RoundTripIff` | internal/osinfo/osinfo.go:46-58 | A version survives printing and parsing exactly when it has one to three parts, a major that is not zero, and zero in the unused parts. |

## Left out

- Sending over ACS and gRPC, the metadata server, service restarts, `getent`, `ssh-keygen`, and script execution: a script and a send only succeed or fail here.
- Real files: permissions, ownership, SELinux, partial writes, and read errors other than a missing file.
- Liveness: nothing says that a timer does fire or that a goroutine is scheduled, only what can happen next (`Dispatch.AllCanBeDispatched`, `WorkerHistory.NewConfigTakesOver`).
- The starting and stopping of `PluginServer`; the retries in `runCollection` and `sendWithRetry`; the error values that `sendHealth` and `start` keep.
- The metadata that `StampEnvelope` adds to a report beyond its number, start and end.
- `listen`, `sendResponse` and the translation of NVMe identifiers; a handler's response is one step without effect.
- Exactly-once execution of post.sh: the code allows it to run twice, and only "at least one attempt" is proved.
- Unicode white space; a blank is one of the six ASCII ones.
- Overflow of Go's durations and times, and time stamps equal to Go's zero time.
- Parsing of `os-release` and `system-release` files apart from the version.
- The filters of the metric registry (collection disabled, nil or unknown message types); every metric is of the accepted type.
- `OnResult`: the clock is read when a batch opens and once more when the batch is reported and the timer armed; further readings within one event are taken as equal to the second.
- `OnTimer`: it may happen at any moment, not only when the armed timer expires, so the theorems cover stale expirations too.
- `RunCollectorLoop`: the end of the context is the number of results that the channel takes before it; a panic or a timeout of a collector is a failed outcome.
- `TimerOrderIrrelevant`: does not say that the due times remembered as flushed agree, because they need not; `TimerOrderIrrelevantForMemoryIff` says when they do.
- `ArrivalOrderIrrelevant`: compares the ends of the two reports only when a group has an end stamp, because otherwise the end is a clock reading; it asks that each collector reports once, because a later result of the same collector overwrites the earlier one.
- `OneReportPerDue`: asks for timely results, because the code forgets flushed due times; `OneReportPerDueIff` is the exact statement.
- `WindowedDue`: asks for ticks in their own windows, because a tick that is a full interval late shares the due time of the next one.
- `DuplicateExactlyWithinWindow`: takes check and mark as one step; `AcceptedTwice` is what holds when they are separate, as in all the other theorems about snapshots.
- `Put`: asks for a positive capacity, because with capacity 0 the code dereferences the back of an empty list. The linked list of nodes is a sequence.
- `Add`: asks for a positive size of the ring buffer, because with size 0 the code writes out of range.
- `Apply`: asks for a delimiter to write when a block has entries, because the code dereferences it. Delimiters that a caller puts into `AllDelimiters` itself are left out.
- `AppliedLines`: asks that keys and values are trimmed and single-line, that a key is not empty, and that the spacer is blank when a value is empty, because each line is trimmed as a whole.
- `ExpectedExactlyStarted`: asks for ticks in their own windows and a due time within the runs, as `ExpectedIffSent` does.
- `CleanupUndoesApplyIff` and `ApplyIdempotentIff`: ask that the written delimiters are trimmed, single-line and distinct. `ApplyToMissingFile` also asks that no entry escapes.
- `ApplyCollectorOverrides`: the syntax of Go durations is a parameter.
- `UpdateSSHKeys`: begins after the checks of the home directory and the login shell, and leaves out the creation of `.ssh` and the group membership.
- `SetupPAM`, `SetupGroup`: leave out the creation of the directory. The blocks of `sshd_config` depend on the installed binaries, and are any well-formed blocks here.
- `DisableOSLogin`: leaves out the restart of services and the closing of the certificate pipe.
- `AddToGUsers`: leaves out the scanner's limit on the length of a line.
- `RoundTripIff`: a parse error is `None`; the partly filled version that the code returns beside the error is left out.
