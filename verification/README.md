# Lyra Upgrade, modelled and verified in Dafny

A Dafny model of the parts of Lyra Upgrade that decide what happens to a machine: the bounded
event history, the life of an operation across crashes, the plan and the package transaction it
authorises, the XML readers whose verdict everything rests on, and the sanitizer of what is
stored. `dafny verify dfyconfig.toml` checks all of it.

## What is modelled

- **The event history** (`Lines`, `Events`, `History`, `Compaction`, `EventFile`, `EventProgress`,
  `MemoryLog`, `RestoredHistory`, `Observer`, `StatusTheorems`, `EventContents`). The file is a
  sequence of bytes, its records are framed by newlines. JSON is abstract: a `Codec` whose reading
  undoes its writing and whose output holds no raw newline (section 7 of RFC 8259). Failed appends
  are steps: an error before writing, a write cut short, an error reported after the data reached
  the disk. A worker's observer writes both logs; what `status` shows of them is a theorem over all
  its runs.
- **The life of an operation** (`Operation`, `Records`, `Protocol`, `Traces`, `ProtocolInvariant`,
  `ProtocolSteps`, `ProtocolWrites`, `ProtocolTheorems`, `VerifierPass`, `WorkerRuns`,
  `ProcessRuns`, `FailedSteps`, `Reopening`, `OneAtATime`, `PendingScan`, `Request`). Worker
  threads, the offline worker, the rollback scheduler, the boot verifier and the service's requests
  are one state machine over the disk: a record per operation, the `/system-update` marker, the
  transaction lock, the replay counter. Every save, marker change, snapshot, package transaction
  and rollback is one step; a crash, or the death of one process, may come between any two; every
  save may be lost, or be written although an error is reported. Each operation carries a log of
  its effects on the system, and most theorems about runs are about these logs. `Request` is how
  the marker is read.
- **Plans and transactions** (`Packages`, `PackageOrder`, `Orders`, `Issues`, `VendorPolicy`,
  `Preflight`, `PreflightIssues`, `Planner`, `PlanContents`, `Migration`, `Inventory`,
  `Transaction`, `MigrationAnswers`). SHA-256 over canonical JSON is an injective function of the
  plan; sorting is by the derived field order.
- **XML readers** (`Xml`, `HealthyOutput`, `HealthyReport`, `SolverSummary`, `SolverDocument`,
  `MetadataWalk`, `VendorCatalog`, `VendorEnrichment`, `VendorRecords`). They start from the
  reader's events; `Xml` relates event streams to element trees (section 3 of XML 1.0), and every
  loop is proved equal to a query on the tree.
- **The sanitizer** (`Text`, `MaskAssignments`, `Sanitizer`, `SanitizedText`), on characters with
  their UTF-8 width.

Code that changes things step by step is modelled as classes and loops proved against
specification functions (`EventLogFile`, `EventLog`, `Observer`, `OperationStateRecord`,
`MarkerLink`, `SolverResult`, the reading, retaining, merging and walking loops); the protocol is
a step function, since its subject is what other processes and crashes do between the steps.

What an operation answers is also said outright, on its input and with every name, field and state
written out, beside the specification that its method is proved against: `EventProgress` and
`EventContents`, `WorkerRuns`, `ProcessRuns` and `FailedSteps`, `PreflightIssues`, `PlanContents`
and `MigrationAnswers`, `HealthyReport`, `SolverDocument` and `VendorRecords`, `SanitizedText`.

## What the code does that its documentation does not say

- `docs/lyra-upgrade-state-machine.md` promises that a service that stops before or after the
  snapshot is reconciled at the next boot. A record left in `Snapshotting` before its snapshot
  number was stored is not: the verifier maps it to `NeedsRecovery`, which the gate on every save
  refuses without a number. It is never changed again, and no boot verification of any operation
  is reached while it exists (`ReconciliationIsSavedExactly`, `WedgeIsReachable`, `WedgedForever`).
  A pass whose saves are done settles everything exactly if there is no such record
  (`PassFinishesExactly`).
- The same document calls `Completed` terminal. A marker left behind reopens it: the offline
  worker finds the record not ready and marks it `NeedsRecovery`. A run gets there
  (`CompletedIsReopened`), and a completed record can still change exactly if the marker points at
  it (`CompletedReopensExactly`).
- Its seventh invariant, one operation at a time in `Snapshotting`, `Applying` or
  `ApplyingOffline`, holds of the work going on (`OneOperationAtATime`), not of the records on disk
  (`TwoRecordsInSnapshotting`). They keep to it as long as no process dies, or gives up without
  recording it, while its record is in such a state (`LeavesExactly`, `RecordsKeepToOneAtATime`);
  for a moment two may also be seen without a crash, because a failing worker returns the lock
  before it records its failure (`NextMakesTwoExactly`).
- The sanitizer leaves the controls from U+0080 to U+009F in place although it lists them among
  the bytes to drop: in UTF-8 their first byte is 0xC2 (`UpperControlsSurvive`; exactly which are
  left: `UpperControlsLeftExactly`). An escape followed by a non-ASCII character makes it slice
  inside that character; it panics exactly when a continuation byte above 0x9F is met there
  (`StripPanicsExactly`, `AccentAfterEscapePanics`). The panic happens with the
  event log locked, and from then on the worker records nothing more (`PanicSilencesTheWorker`).

## What the protocol assumes

The code needs these and does not enforce them; the model takes them as given.

- One worker per operation: nothing closes the gap between the check in `start` and the worker's
  first save.
- `cancel` and "keep current" load, check and save in one step. A cancellation after the worker's
  last poll may be overwritten, and the model lets it be.
- `remove_current` checks and removes the marker in one step; the verifier's scan is one step;
  replacing a file durably is one step, whatever it reports.
- Only Lyra makes a marker that points into its state root.
- The verifier may begin while a marker is present. With the packaged units a boot that finds the
  marker goes to `system-update.target`, where the offline worker runs and the verifier does not;
  the unit of the verifier itself has no such condition, so starting it in another way is a step
  of the model. `CompletedIsReopened` depends on it: in a boot that runs the offline worker first,
  the record still in `AwaitingReboot` is marked `NeedsRecovery` (`MarkerReopens`).
- The offline worker and the verifier begin at a boot, when no worker that has saved anything is
  still between releasing the lock and recording its failure (`Protocol.BootQuiet`).

## Model

| member | source | states |
|---|---|---|
| Lines.HeadWindowExact | service/src/event_log.rs:330-336 | The bounded head read returns exactly the first record, up to and including one that fills the window to its last byte. |
| Lines.TailWindowExact | service/src/event_log.rs:345-359 | The tail window recovers exactly the last record, at the boundary length too. |
| Lines.FramingUnique | service/src/event_log.rs:213-223 | Two framings of prefixes of one file agree line by line. |
| Events.DropTechnicalKeeps | service/src/event_log.rs:285-293 | Eviction keeps all state changes in order and exactly the newest technical lines. |
| History.ReadHistory | service/src/event_log.rs:207-262 | The reading loop, with its running total and previous sequence, returns what the specification reads. |
| History.ReaderReturnsLongestPrefix | service/src/event_log.rs:207-262 | On arbitrary bytes: the longest prefix of valid, increasing records within the legacy size, and incomplete iff bytes remain after it. |
| History.AcceptsIs | service/src/event_log.rs:230-257 | The records the reader accepts: at most 16 KiB each, of this operation, with growing sequences above zero, but for a truncation marker with both its numbers at the very start. |
| History.CompleteFileIsReadBack | service/src/event_log.rs:207-262 | A file of valid records alone is read back whole and complete. |
| History.TornFileKeepsItsPrefix | service/src/event_log.rs:226-229 | A torn last record leaves the history before it, marked incomplete. |
| Compaction.Retain | service/src/event_log.rs:281-293 | The retaining pass with its running size keeps the history without the evicted lines and counts them; the size never underflows. |
| Compaction.CompactHistory | service/src/event_log.rs:264-316 | The compaction loop computes the specified output, or fails as specified. |
| Compaction.EvictionsIsLeast | service/src/event_log.rs:281-293 | The evicted lines are the shortest prefix of the technical ones that brings the size to the target, or all of them. |
| EventFile.CompactionEvictsShortestPrefix | service/src/event_log.rs:264-316 | What a compaction writes: at most one marker, then the history without the shortest sufficient prefix of technical records, at most 8 MiB. |
| EventFile.RoomAfterCompaction | service/src/event_log.rs:282-284 | Once the retained bytes fit the target, the next 255 appends need no compaction, whatever they are. |
| EventFile.EventLogFile.AppendEvent | service/src/event_log.rs:318-383 | The checks of one append, read from the two windows, and under each fault the file `Append` describes; what that is, outright, is `AppendInPlace`, `AppendWhenFull` and `RefusalIs`. |
| EventProgress.AppendInPlace | service/src/event_log.rs:363-369 | In every run, while there is room, an event the history can take is written: without a fault the file is the old file and the record, and the answer Ok; if only the report fails the record is there too, if the write is cut short a proper beginning of it, and nothing if the error comes first. |
| EventProgress.AppendWhenFull | service/src/event_log.rs:370-383 | A full file is replaced by the marker and the old history with the event added and the shortest sufficient prefix of technical lines gone, exactly if marker and bytes fit; that is what is read back. Otherwise the append fails and changes nothing. |
| EventProgress.GoodAttemptsAreWritten | service/src/event_log.rs:318-383 | In every run an attempt without a fault, with an event the history can take and has room for, succeeds, and its event is among those written for good. |
| EventProgress.RefusalIs | service/src/event_log.rs:318-362 | The error of every refused append: of the wrong operation or without a sequence, too large, unavailable, or of a sequence already used in a history that ends in a whole record. |
| EventProgress.EndsAre | service/src/event_log.rs:328-362 | On any file of lines, whoever wrote them: what the check of the two ends demands of the first and of the last record, and with which error it refuses. |
| EventFile.CheckEndsIsFullScan | service/src/event_log.rs:328-362 | The check of two windows decides as a scan of everything ever accepted would, evicted records included. |
| EventFile.AppendKeeps | service/src/event_log.rs:318-383 | After any append the file stands for exactly what was durably appended, followed at most by a torn record. |
| EventFile.HistoryOfEveryRun | service/src/event_log.rs:207-383 | Over every run from an empty file: state changes are all there in order, marker count plus technical lines present equals those written, sequences increase, and the reader reports incomplete only after a torn write. |
| EventFile.AdmissionInEveryRun | service/src/event_log.rs:318-362 | In every run, torn writes included, an event is admitted iff the file ends in a whole record and its sequence exceeds every sequence ever written. |
| EventFile.RefusedAppendChangesNothing | service/src/event_log.rs:318-383 | A refused append leaves the file unchanged. |
| EventFile.TornFileRefuses | service/src/event_log.rs:350-353 | After a torn record every append is refused and changes nothing. |
| MemoryLog.EventLog.Restore | service/src/event_log.rs:49-70 | Restoring counts exactly, trims to budget and takes over the highest sequence used. |
| MemoryLog.EventLog.PushNormative | service/src/event_log.rs:72-76 | A state change is kept at the end and leaves the budgets alone. |
| MemoryLog.EventLog.PushTechnical | service/src/event_log.rs:78-96 | Counters stay exact, both budgets hold, and the line just pushed survives; nothing changes when sanitizing panics. |
| MemoryLog.EventLog.TrimTechnical | service/src/event_log.rs:106-126 | The loop leaves the specified trimmed log with exact counters. |
| MemoryLog.EventLog.After | service/src/event_log.rs:98-104 | Exactly the events beyond a sequence, in order. |
| MemoryLog.TrimmedDropsFewest | service/src/event_log.rs:106-126 | Trimming drops the fewest oldest technical events that restore both budgets. |
| MemoryLog.NewestSurvives | service/src/event_log.rs:78-96 | A line of at most 4096 bytes is never trimmed by its own push. |
| RestoredHistory.RestoreContinuesTheSequence | service/src/event_log.rs:45-70 | In every run the restored log goes on right after the last event written, even when compaction evicted it. |
| RestoredHistory.TrimmingKeepsStateChanges | service/src/event_log.rs:106-126 | Trimming keeps every state change in order and the newest technical lines. |
| Observer.Observer.CommandLine | service/src/main.rs:731-751 | A technical line goes to memory, then to the file, under each fault; a panic while sanitizing leaves both alone and poisons the log. |
| Observer.Observer.StateChanged | service/src/main.rs:753-775 | A state change goes to the file, then to memory, whether or not writing it failed; the first failure is recorded. |
| Observer.Observer.LoadPersisted | service/src/main.rs:469-485 | The durable events after a sequence, with the marker, and the error of reading or of a recorded write failure. |
| Observer.Observer.Status | service/src/main.rs:469-514 | The report of the persisted history, merged with memory whenever it cannot be trusted alone. |
| EventContents.StateChangeIs | service/src/main.rs:753-806 | A state change is the event of the next sequence with the name of the new state, state by state. |
| EventContents.CommandLineIs | service/src/main.rs:731-751 | A line is the event of the next sequence in the current state, with the program and what the sanitizer leaves; none if that panics. |
| EventContents.StatusIs | service/src/main.rs:469-514 | What is shown: the file alone while nothing failed; else merged with memory, and a warning outside of the sequence with the error of writing, or else of reading; after a panic the file alone with the error of reading. |
| EventContents.FirstFailureIsMarked | service/src/main.rs:745-773 | In every run a failure is remembered iff some append failed, and marked on disk iff the first that failed could be. |
| StatusTheorems.MergedExactly | service/src/main.rs:492-496 | The merge holds each event of either side once, in order of sequence. |
| StatusTheorems.StatusShowsEveryStateChange | service/src/main.rs:452-536 | In every run, whichever appends failed and even if the file cannot be opened: what is shown is numbered upwards, was reported, and holds every state change after the sequence asked for, once and in order, unless a line made the sanitizer panic. |
| StatusTheorems.NoFailureIsConcealed | service/src/main.rs:469-500 | A history error is shown iff the file cannot be opened, a line made the sanitizer panic or some append failed; without one the file holds all that was reported. |
| StatusTheorems.PanicSilencesTheWorker | service/src/main.rs:731-754 | After a line that makes the sanitizer panic nothing the worker does is recorded any more. |
| StatusTheorems.TriedBeforeThePanic | service/src/main.rs:731-775 | What a worker tries to record is exactly what it emitted before its first line that makes the sanitizer panic. |
| StatusTheorems.PanicLeavesTheWritten | service/src/main.rs:469-514 | After such a line the state changes shown are exactly those written: a change whose append failed is gone. |
| Decimal.ParseOfDecimal | service/src/event_log.rs:302-305 | The numbers written into the marker are read back exactly. |
| Records.OperationStateRecord.Transition | core/src/lib.rs:153-173 | A transition changes state and sequence, or nothing, exactly as the table of transitions says. |
| Records.TransitionsAre | core/src/lib.rs:153-173 | The table of transitions, state by state. |
| Records.OperationStateRecord.PrepareOffline | offline/src/main.rs:217-226 | Only a record ready to reboot with a snapshot is prepared, and becomes ApplyingOffline. |
| Records.OperationStateRecord.FinalizeVerification | verifier/src/main.rs:201-236 | The verdict written into the record, by outcome, recovery goal and whether the replay sequence could be stored; field by field in `VerdictFields`. |
| Records.VerdictFields | verifier/src/main.rs:201-236 | Passed with a goal or unsigned: Completed, boot Passed, no error, the step by goal, whatever became of the sequence. Passed, signed, no goal: Completed iff the sequence was stored, else NeedsRecovery with its error. Not passed: NeedsRecovery with the error of the check. |
| Records.FailureLeaves | service/src/main.rs:415-432 | The state and the code that each error of a worker leaves. |
| Records.ReconciliationLeaves | verifier/src/pending.rs:128-137 | The state, error and sequence that reconciling each interrupted state leaves. |
| Records.ReconciliationIsSavedExactly | verifier/src/pending.rs:128-137 | A reconciled record passes the gate iff it did not stop in Snapshotting without a number. |
| Traces.AppliedOnceAfterSnapshot | service/src/executor.rs:432-480 | What the effects of an operation may be: one application at most, after its one snapshot, by a record that authorises it. |
| Traces.RollbackFollowsItsIntent | service/src/recovery.rs:48-61 | A rollback directly follows the intent that was saved for it. |
| Traces.CloneFollowsItsRollback | service/src/recovery.rs:70-120 | A clone is confirmed only after its rollback ran, and is distinct from its source. |
| Traces.NoIntentOverAnother | service/src/recovery.rs:25-31 | No intent is saved over one whose clone was never confirmed. |
| ProtocolSteps.RunKeeps | service/src/main.rs:277-432 | Every run of all processes, with crashes and failed saves anywhere, keeps the protocol's invariant. |
| ProtocolInvariant.SavedOp | service/src/executor.rs:197-325 | Each save of a worker keeps record, worker and log in step, whether it succeeds, is lost or is reported as failed; which states are saved is `UpdateRuns`, `SignedRuns` and `SavesAre`. |
| WorkerRuns.UpdateRuns | service/src/executor.rs:380-515 | From the beginning, for every valid update: an uninterrupted worker saves Downloading, Snapshotting, the snapshot number, Applying, in that order, applies the packages once, and ends in AwaitingReboot iff a reboot is needed, else in Completed. |
| WorkerRuns.SignedRuns | service/src/executor.rs:197-325 | For every valid signed operation: Downloading, Snapshotting, the snapshot number, the marker, ReadyToReboot. |
| WorkerRuns.SavesAre | service/src/executor.rs:380-515 | From any state of any run: the state that each save of a worker leaves on disk, by where the worker stands, the kind of its operation and whether a reboot is needed. |
| WorkerRuns.CompletedOnlyInTwoWays | service/src/executor.rs:502-515 | In every run a record becomes Completed only by a worker's last save without a reboot, or by a verification that passed. |
| FailedSteps.FailureStops | service/src/executor.rs:197-515 | A step of a worker that fails leaves it with that error, the lock free if it held it, the record as it was, and no further effect. |
| FailedSteps.LostSaveStops | service/src/executor.rs:546-554 | So does a save that does not succeed. |
| FailedSteps.FailureIsRecorded | service/src/main.rs:415-432 | From any state of any run: what a failed worker leaves on disk is NeedsRecovery once there is a snapshot, else Blocked or Failed by its error, unless a cancellation stands there. |
| FailedSteps.OfflineFailureLeaves | offline/src/main.rs:40-94 | From any state of any run: wherever a step of the offline worker fails, it ends in NeedsRecovery, without the marker and with the lock free, and applies nothing more. |
| FailedSteps.OfflineFailureElsewhere | offline/src/main.rs:363-384 | If the marker has gone elsewhere it only lets go of the lock. |
| FailedSteps.RollbackFailureLeaves | service/src/recovery.rs:58-66 | From any state of any run: a rollback that fails, or makes something else than a clone of its source, is recorded with its error, schedules nothing, and frees the lock. |
| ProcessRuns.VerificationLeaves | verifier/src/main.rs:147-236 | From any state of any run: after check, verdict and save the record on disk is Completed iff the check passed and, for a signed operation without a rollback, its sequence was stored; otherwise NeedsRecovery with its error. |
| ProcessRuns.ReconciliationSaves | verifier/src/main.rs:116-132 | An interrupted record that the verifier comes to is saved as Failed if it was downloading, else as NeedsRecovery. |
| ProcessRuns.OfflineBootApplies | offline/src/main.rs:96-215 | A boot on a ready operation whose manifest is beyond the counter applies its packages once, with ApplyingOffline on disk, and leaves AwaitingReboot without the marker, or NeedsRecovery if applying fails. |
| ProcessRuns.OfflineBootRefusesOld | offline/src/main.rs:127-146 | With a manifest the counter has reached it applies nothing and leaves NeedsRecovery. |
| ProcessRuns.RollbackSchedules | service/src/recovery.rs:14-120 | A rollback that succeeds leaves AwaitingReboot with its clone confirmed, after its intent was saved and the rollback run. |
| ProcessRuns.RollbackFails | service/src/recovery.rs:58-66 | One whose command fails leaves NeedsRecovery with the intent and the error. |
| ProcessRuns.CancellationIsSaved | service/src/main.rs:538-557 | From any state of any run a cancellation leaves Failed with its reason in the eight states before the snapshot, and nothing changed in any other. |
| ProcessRuns.DecliningIsSaved | service/src/main.rs:559-590 | Keeping the current system leaves Failed with its reason iff the operation waits for recovery. |
| ProcessRuns.MarkingIs | service/src/executor.rs:326-350 | A worker sets the marker where there is none, goes on where it is its own, and gives up at another's, which it leaves. |
| ProcessRuns.MarkerChangesOnlyThus | offline/src/request.rs:52-62 | In any step the marker is set only by the worker of a signed operation where there was none, and removed only by the offline worker whose it is, or changed by another updater. |
| ProcessRuns.ForeignMarkerStays | offline/src/request.rs:52-62 | In every run a foreign marker stays until another updater changes it. |
| ProtocolInvariant.RecordedOp | service/src/main.rs:415-432 | Recording a worker's failure is always accepted by the gate and keeps the invariant. |
| ProtocolSteps.OfflineFinishedOp | offline/src/main.rs:201-214 | After an offline application the result passes the gate. |
| ProtocolSteps.RecoveryMarkedOp | offline/src/main.rs:363-384 | Marking for recovery is accepted wherever the marker points. |
| ProtocolSteps.ScanQueues | verifier/src/pending.rs:55-111 | A scan queues exactly the interrupted records, each operation once. |
| ProtocolSteps.ScheduledOp | service/src/recovery.rs:104-119 | A confirmed goal passes the gate iff its clone is distinct from the source. |
| ProtocolWrites.OnlySavesChangeRecords | core/src/persistence.rs:30-58 | A record changes only by a pending save that the gate accepts; effects are only added. |
| ProtocolWrites.GateRefusesExactly | core/src/persistence.rs:77-128 | Every pending save of every writer passes the gate except reconciling Snapshotting without a number and an indistinct rollback clone; none drops a snapshot number or moves the sequence back. |
| ProtocolTheorems.NothingIsForgotten | core/src/persistence.rs:77-128 | Along every run the recorded snapshot number, the contract and the sequence are never taken back. |
| ProtocolTheorems.PackagesAreAppliedOnce | service/src/executor.rs:432-480 | In every run packages are applied at most once, after the one positive snapshot, with Applying or ApplyingOffline and that number persisted. |
| ProtocolTheorems.NeverReadyAgain | offline/src/main.rs:96-215 | Once the transaction started, no steps lead back to a state it could be started from. |
| ProtocolTheorems.RollbackKeepsItsProtocol | service/src/recovery.rs:14-120 | In every run: rollback right after its incomplete intent, clone after its rollback, no second intent or rollback before a clone is confirmed. |
| ProtocolTheorems.PersistedGoalIsConfirmedOrWaiting | core/src/recovery.rs:23-35 | Every persisted goal is the operation's own snapshot with a distinct clone, or an intent waiting in NeedsRecovery or Failed. |
| ProtocolTheorems.IncompleteIntentIsFinal | service/src/recovery.rs:25-31 | Once the rollback of an incomplete intent is no longer under way, no continuation by any process adds another effect to that operation: the intent is never retried. |
| ProtocolTheorems.CounterMovesOnlyOnSuccess | verifier/src/main.rs:201-236 | The replay counter moves only when a signed operation without a recovery goal passed verification, and then to its manifest's sequence, never down. |
| ProtocolTheorems.NoReplayedApplication | core/src/manifest.rs:165-178 | Once the counter has reached s it stays there or beyond, and no later offline application of any operation has a manifest of s or less. |
| ProtocolTheorems.VerifierNeverPanics | verifier/src/main.rs:116-147 | In every run neither `expect` of the verifier can fail. |
| ProtocolTheorems.WedgeIsReachable | service/src/executor.rs:432-454 | A crash right after Snapshotting was saved leaves a record that cannot be reconciled. |
| ProtocolTheorems.WedgedForever | verifier/src/main.rs:116-132 | Such a record is never changed again, and no verification of any operation is reached while it exists. |
| ProtocolTheorems.VerificationFindsNothingInFlight | verifier/src/main.rs:116-147 | In every run, once the verifier gets to verifying, no record of any operation is in Downloading, Snapshotting, Applying or ApplyingOffline. |
| VerifierPass.PassFinishesExactly | verifier/src/main.rs:116-132 | A pass from a quiet boot gets past its queue iff every save is done and no record stopped in Snapshotting without a number; then no record at all is left interrupted. |
| ProtocolTheorems.CancelledIsFinal | service/src/main.rs:538-557 | An operation that failed or was cancelled before its snapshot, without a worker, stays so and never touches a package. |
| ProtocolTheorems.CompletedIsReopenedOnlyByItsMarker | offline/src/main.rs:363-384 | A completed record is changed only by the offline worker run again on a leftover marker. |
| Reopening.CompletedReopensExactly | offline/src/main.rs:363-384 | In every run, a completed record without a worker can still be changed by some continuation iff the marker points at it. |
| Reopening.MarkerReopens | offline/src/main.rs:217-226 | A record the marker points at that is not ReadyToReboot is turned to NeedsRecovery by the next boot's offline worker. |
| Reopening.CompletedIsReopened | offline/src/main.rs:201-214 | A run that gets there: a crash between the last save and the removal of the marker, then a verification that no offline worker precedes, for every signed operation. |
| ProtocolTheorems.OneOperationAtATime | service/src/executor.rs:94-128 | A record enters Snapshotting, Applying or ApplyingOffline only while the lock is held for that operation. |
| OneAtATime.LeavesExactly | service/src/main.rs:415-432 | Step by step, a process leaves a record that says the system is being changed iff it dies there, its failure save is lost, it takes the operation for cancelled, or the offline worker lost its marker or its record. |
| OneAtATime.RecordsAreLeftExactly | service/src/main.rs:415-432 | In every run, a record says so with no process at it iff some step left it so and nothing has settled it since. |
| OneAtATime.NothingIsLeftExactly | service/src/executor.rs:94-128 | All along a run no such record exists iff no step leaves one. |
| OneAtATime.RecordsKeepToOneAtATime | service/src/executor.rs:94-128 | As long as no step leaves one, at most one record says that the system is being changed, but for workers on their way to record a failure. |
| OneAtATime.NextMakesTwoExactly | service/src/executor.rs:94-128 | The next operation to reach Snapshotting makes two such records iff one has been left behind or awaits its worker's failure save. |
| ProtocolTheorems.TwoRecordsInSnapshotting | verifier/src/main.rs:116-132 | Two records can nevertheless be left in Snapshotting. |
| PendingScan.PendingOperation | verifier/src/pending.rs:34-124 | The scan's loop and sort: invalid entries counted, interrupted records in order, and the candidate no other precedes. |
| PendingScan.SortCandidates | verifier/src/pending.rs:115-121 | Sorting yields a permutation in the order of latest update, then id. |
| PendingScan.FirstIs | verifier/src/pending.rs:103-123 | The operation found is in AwaitingReboot or VerifyingBoot, none of these was updated later, and none updated at the same time has a smaller id. |
| PendingScan.InterruptedAre | verifier/src/pending.rs:103-113 | Interrupted are the records in Downloading, Snapshotting, Applying or ApplyingOffline, and those ready to reboot that the marker does not point at. |
| PendingScan.InvalidAre | verifier/src/pending.rs:51-101 | Every unusable entry is counted once. |
| PendingScan.ScanIgnoresOrder | verifier/src/pending.rs:55-124 | The outcome does not depend on the order of the directory. |
| Request.Normalize | offline/src/request.rs:20-29 | The loop that pushes and pops components normalises as specified. |
| Request.NormalizationKeepsSurvivors | offline/src/request.rs:20-29 | Normalising keeps exactly the names that no later step up cancels. |
| Request.Resolve | offline/src/request.rs:6-50 | The marker is foreign iff neither its spelling nor its normal form lies below the root; it is owned by a directory iff it leads there, directly below the root, and the file system agrees; the other errors exactly. |
| Request.DetoursDoNotMatter | offline/src/request.rs:20-36 | A detour back into the root owns what the plain spelling owns; a link that ends up outside owns nothing. |
| Request.MarkerLink.RemoveCurrent | offline/src/request.rs:52-62 | The marker is removed iff it still leads to this operation; any other is left alone. |
| Orders.SortIgnoresOrder | core/src/preflight.rs:318-346 | Sorting by a key that identifies elements forgets the order of its input. |
| Orders.CanonicalSet | core/src/preflight.rs:218-229 | Sorting and removing duplicates depends only on which elements there are. |
| PackageOrder.InstalledOrder | core/src/preflight.rs:10-17 | Packages go by name, version, architecture and vendor. |
| PackageOrder.ChangeOrder | core/src/solver.rs:7-31 | Changes go by name, architecture and then by what is done, in the order of the actions. |
| VendorPolicy.ValidVendorTransitions | core/src/solver.rs:69-92 | The map of pairs accepts the rules iff each is well formed and no pair is granted both as a whole and by lists. |
| VendorPolicy.VendorPolicyBlockers | core/src/solver.rs:94-133 | The loop reports exactly the changes whose vendors are not permitted. |
| VendorPolicy.ScopedPairPermitsItsLists | core/src/solver.rs:112-126 | A scoped pair permits precisely the union of its package lists. |
| VendorPolicy.PermissionIgnoresOrder | core/src/solver.rs:94-133 | Permission does not depend on the order or repetition of rules. |
| Preflight.EvaluatePreflight | core/src/preflight.rs:135-241 | The collected, sorted, deduplicated host report. |
| Preflight.EvaluateSolverPreflight | core/src/solver.rs:135-195 | The report on host and solution together. |
| PreflightIssues.HostNeeds | core/src/preflight.rs:176-184 | The space required is the larger of the minimum and the plain sum of download, transaction, snapshot and margin, as far as 64 bits go. |
| PreflightIssues.SolutionNeeds | core/src/solver.rs:135-160 | After the solver it is its download, its size increase and its snapshot estimate. |
| PreflightIssues.HostIssuesAre | core/src/preflight.rs:135-231 | Which blocker a host is reported with, and exactly when, each on the facts themselves. |
| PreflightIssues.SolutionIssuesAre | core/src/solver.rs:135-195 | The same of host and solution: downgrades, removals, vendor changes and torn lockstep groups, each outright. |
| PreflightIssues.PermittedIs | core/src/solver.rs:94-133 | When the vendors of a change are in order: known on each side it has, and granted from one to the other by rules that hold together if they differ. |
| Preflight.PassesExactly | core/src/solver.rs:135-195 | No blocker iff the host is fit, metadata and keys hold, the solver succeeded, no change is a downgrade, an unlisted removal or an ungranted vendor change, and every lockstep group moves as a whole. |
| PreflightIssues.PassesOnTheFacts | core/src/solver.rs:135-195 | The same on the raw facts, the space compared with the plain sum. |
| Preflight.SolverReportIgnoresOrder | core/src/solver.rs:135-195 | The report forgets the order of every list it reads. |
| Planner.PlanIgnoresOrder | core/src/preflight.rs:281-352 | The plan of a host and a solution forgets the order of all lists, given unique aliases. |
| PlanContents.PlanIsMade | core/src/preflight.rs:281-313 | A plan is made iff nothing blocks it and its operation has the target and digest it needs and no other; else the error says what is missing. |
| PlanContents.PlanStates | core/src/preflight.rs:315-352 | Every field of the plan, from which fact or result it comes. |
| PlanContents.ConfirmedStands | service/src/planner.rs:209-240 | A confirmed plan stands iff operation, source, target, digest and hash are those of the manifest and of the confirmation, it is the migration's transaction, and no vendor change lacks a grant. |
| PlanContents.FreshReportIs | service/src/planner.rs:249-265 | A revalidation is judged with the manifest's rules and minimum, 40 percent of battery, a margin of 1 GiB and a known Secure Boot state. |
| Planner.RevalidatesExactly | service/src/planner.rs:242-284 | A revalidation succeeds iff the confirmed plan stands, no blocker holds and the plan rebuilt from the fresh facts is the confirmed one but for the space estimate. |
| Planner.RevalidationBindsTheTransaction | service/src/planner.rs:209-284 | On success the fresh changes, inventory and repositories are permutations of the confirmed ones, the other fields coincide, and every change is authorised. |
| Planner.RevalidationsAgree | service/src/planner.rs:242-284 | Staging before and after download and the offline run agree on one transaction. |
| Planner.RevalidatedMigrationSettles | offline/src/main.rs:145-199 | A revalidated migration whose result was verified is applied: nothing of it is left to run. |
| Migration.ValidateMigration | core/src/migration.rs:29-83 | The loop with its set of names accepts exactly the valid policies. |
| Migration.PendingMigration | core/src/migration.rs:85-112 | The loop returns the pending packages or the first misfit. |
| Migration.PendingExactly | core/src/migration.rs:85-112 | Pending are exactly the packages at their old identity, and only if nothing installed contradicts the policy. |
| MigrationAnswers.StandingIs | core/src/migration.rs:85-112 | A package is due iff the one package installed of its name is its old identity, settled iff it is the new one, or optional and absent. |
| Migration.ValidateMigrationPlan | core/src/migration.rs:114-145 | The loop with its set of names accepts exactly the one transaction. |
| MigrationAnswers.PlanIs | core/src/migration.rs:114-145 | A plan is accepted iff it has one change for each due package and no other: an upgrade or reinstall from the old to the new version and vendor, from the named repository. |
| Inventory.EveryPendingIsExecuted | core/src/migration.rs:114-145 | By counting: an accepted transaction executes every pending package. |
| Inventory.VerifyResult | service/src/inventory.rs:10-63 | The loop over required and allowed sets accepts as specified, with each error. |
| MigrationAnswers.ExpectationIs | service/src/inventory.rs:20-52 | Distinct changes can be followed one after another iff each names its vendors and replaces something that was installed; else some change shows the error. |
| MigrationAnswers.ResultIs | service/src/inventory.rs:10-63 | A result is accepted iff all that was installed and not replaced, and all proposed, is installed, and nothing else but what was replaced and not removed; after a migration not even that. |
| Inventory.RequiredInTheEnd | service/src/inventory.rs:20-52 | Required are the packages no change replaces and those some change proposes. |
| Inventory.VerifiedMigrationIsFixedPoint | core/src/migration.rs:85-145 | After a verified migration nothing is pending on the reported inventory. |
| Transaction.TransactionArguments | service/src/migration.rs:18-68 | The argument vector, step by step, or the error. |
| MigrationAnswers.CommandIs | service/src/migration.rs:18-68 | The command in each mode, word by word: an upgrade, or an installation from the one repository of the pending packages. |
| MigrationAnswers.ModesAre | service/src/migration.rs:43-49 | A dry run iff planning, a download alone iff downloading; a downgrade is never allowed. |
| Transaction.CommandNamesExactlyThePending | service/src/migration.rs:24-68 | After its only double dash the command of a migration has one argument for each pending package, in order; it names no other package of the policy, and all come from the one repository it names. |
| Transaction.VerifiedMigrationIsApplied | service/src/migration.rs:24-28 | After a verified migration every mode answers AlreadyApplied. |
| Transaction.VerifyPayloads | service/src/migration.rs:72-115 | The files pass iff their digests are a permutation of the distinct, nonempty digests of the pending packages. |
| Xml.WellNestedIsForest | verifier/src/dependencies.rs:59-159 | Every well-nested event stream serialises a forest of elements. |
| HealthyOutput.HealthyOutput | verifier/src/dependencies.rs:52-167 | The event loop takes the steps that `AcceptsExactlyHealthyDocuments` characterises, to the end or to the first refusal. |
| HealthyOutput.AcceptsExactlyHealthyDocuments | verifier/src/dependencies.rs:52-167 | It accepts a stream iff it serialises one `stream` tree with exactly one empty, zero-counting summary as direct child, no action, prompt or error anywhere, and nothing of note around it. |
| HealthyReport.AcceptsExactly | verifier/src/dependencies.rs:52-167 | The same on the tags of the report with every name written out: the root, the summary and its five counters, the tags that act, the depth of 32, what may stand between the tags and around the root. |
| SolverSummary.ParseSolverXml | service/src/solver_xml.rs:21-125 | The loop that merges entries as it reads them accepts iff the collected entries merge, match the announced count and keep versions, whatever comes after a conflict; it lists the merge, sorted, and every field of the result is stated. |
| SolverSummary.AcceptsExactlySoundReports | service/src/solver_xml.rs:21-125 | It accepts a stream iff it serialises a document with every tag sound in its place, within the depth, with exactly one summary, directly in the stream, whose announced count is that of the changes its package solvables come to without conflict, each reinstall keeping its version. |
| SolverDocument.SoundIs | service/src/solver_xml.rs:36-99 | A document is sound iff each tag may stand where it does: a summary directly in the stream with its numbers, no solvable in one of the nine sections that neither describes a package nor is of a kind passed over, nothing below 32 others; and no document type. |
| SolverDocument.SolvableYields | service/src/solver_xml.rs:127-213 | Which change a solvable yields: the action by the name of its section, name and architecture, the versions by action, the repository; and which ones are refused. |
| SolverDocument.ListHoldsExactly | service/src/solver_xml.rs:54-118 | The list of an accepted document holds exactly the changes its solvables describe, a reinstall only where nothing else is described for the same package. |
| SolverDocument.SummaryIsRead | service/src/solver_xml.rs:146-159 | Each amount of the summary from its attribute. |
| SolverDocument.ProblemsAre | service/src/solver_xml.rs:69-88 | A document has problems iff it holds a message of type error, wherever it is. |
| SolverDocument.DowngradeNeverPasses | core/src/solver.rs:135-195 | Across the modules: if a document with a package solvable in a section of downgrades is accepted, the downgrade is on its list and no preflight of it passes. |
| SolverSummary.ForestRuns | service/src/solver_xml.rs:36-99 | On any forest the loop goes through iff it is sound and adds no second summary, and it has then collected exactly its entries, its summary and its problems. |
| SolverSummary.MergeOfEntries | service/src/solver_xml.rs:54-67 | Merging fails iff some key has two different actions that are not reinstalls; otherwise each key comes to its one such action or to a reinstall. |
| SolverSummary.MergeIgnoresOrder | service/src/solver_xml.rs:54-67 | Merging forgets order and repetition. |
| SolverSummary.AcceptedReport | service/src/solver_xml.rs:36-113 | What is returned for an acceptable document is what the document says: its merge, its summary, the texts of its error messages. |
| SolverSummary.ArrangementIsIrrelevant | service/src/solver_xml.rs:100-115 | Arranging the same entries otherwise, under the same summary, changes neither the verdict, refusal included, nor the merge. |
| SolverSummary.SameEntriesSameChanges | service/src/solver_xml.rs:54-115 | Two accepted documents of the same entries list the same changes. |
| MetadataWalk.Walk | service/src/vendor_metadata.rs:444-551 | The loop with its stack of open elements takes the steps that `WalkRefinesVisit` characterises, to the end or to the first failure. |
| MetadataWalk.WalkRefinesVisit | service/src/vendor_metadata.rs:410-551 | It ends with a value iff the stream serialises a document within the limits on whose elements, in post-order and each with exactly its ancestors, the callback folds to that value. |
| VendorCatalog.InsertAllResolves | service/src/vendor_metadata.rs:172-189 | An identity is listed iff recorded, with its vendor iff recorded once. |
| VendorCatalog.InstalledVendors | service/src/vendor_metadata.rs:204-232 | The installed catalog is what the walk leaves. |
| VendorCatalog.InstalledCatalogIsExact | service/src/vendor_metadata.rs:204-232 | For every identity the installed catalog says what the package elements of the document say. |
| VendorRecords.DatabasePackageIs | service/src/vendor_metadata.rs:204-232 | Which of its six header fields is what in the record of an installed package, and when they make none. |
| VendorCatalog.PrimaryVendors | service/src/vendor_metadata.rs:357-408 | The repository catalog is what the walk leaves. |
| VendorCatalog.PrimaryCatalogIsExact | service/src/vendor_metadata.rs:357-408 | A wanted identity maps to a vendor iff exactly one record carries it, to none if several do; unwanted ones are absent. |
| VendorRecords.RepositoryPackageIs | service/src/vendor_metadata.rs:357-408 | Which elements and attributes of a repository's package make its record: its vendor or none, only if it is wanted, and then only of an RPM. |
| VendorEnrichment.SolverResult.Enrich | service/src/vendor_metadata.rs:91-160 | Every change gets both vendors, or the solver result is unchanged; exactly when each is possible. |
| VendorRecords.CompletedIs | service/src/vendor_metadata.rs:129-157 | Which vendor goes where: that of the installed version unless newly installed, that of the proposed version in its repository unless removed; nothing else of the change changes. |
| VendorEnrichment.CollectWanted | service/src/vendor_metadata.rs:97-119 | The identities wanted of each repository, or failure iff some change names no usable alias or version. |
| MaskAssignments.MaskKey | core/src/sanitize.rs:151-164 | One pass of the loop ends and replaces as specified. |
| MaskAssignments.MaskAssignmentValues | core/src/sanitize.rs:141-167 | All passes, in the order of the keys. |
| SanitizedText.ValueIsReplaced | core/src/sanitize.rs:151-164 | Only the value is replaced, up to white space, `&` or `;`; the name keeps its case, and all before and behind it is kept. |
| MaskAssignments.EveryAssignmentIsMasked | core/src/sanitize.rs:141-167 | In the result every occurrence of every key, in any case, is followed by three stars and a delimiter or the end. |
| MaskAssignments.MaskingIsIdempotent | core/src/sanitize.rs:141-167 | Masking twice is masking once. |
| Sanitizer.StripTerminalControls | core/src/sanitize.rs:17-78 | The scanning loop removes control sequences as specified, or panics. |
| SanitizedText.StripsExactly | core/src/sanitize.rs:17-78 | The scan leaves a text iff the line can be written as characters, line breaks, controls and escape sequences of which it is the text: each character and tab kept, a space for each line break, nothing else. |
| Sanitizer.StripPanicsExactly | core/src/sanitize.rs:54-72 | It panics iff it meets an escape followed by a non-ASCII character with a continuation byte above 0x9F. |
| Sanitizer.AccentAfterEscapePanics | core/src/sanitize.rs:54 | An escape followed by a small e with an acute accent panics. |
| Sanitizer.StripLeavesNoControl | core/src/sanitize.rs:17-78 | No control below 0x20 but the tab, and no 0x7F, is left. |
| Sanitizer.StrippingIsIdempotent | core/src/sanitize.rs:17-78 | Stripping what was stripped changes nothing. |
| Sanitizer.UpperControlsSurvive | core/src/sanitize.rs:66 | Each control from U+0080 to U+009F, alone, is not stripped. |
| Sanitizer.UpperControlsLeftExactly | core/src/sanitize.rs:17-78 | On any text, one of them is left iff the scanner meets one where a token starts, outside the sequences it removes. |
| Sanitizer.MaskHomePaths | core/src/sanitize.rs:80-94 | The loop masks as specified. |
| SanitizedText.HomeIsReplaced | core/src/sanitize.rs:80-94 | Of a home path only the user's name is replaced; what stands before it and from the next slash or white space on is kept. |
| Sanitizer.EveryHomeIsMasked | core/src/sanitize.rs:80-94 | Every home path in the result names the placeholder and nothing else. |
| Sanitizer.MaskUrlPaths | core/src/sanitize.rs:96-115 | The loop masks each URL, from its scheme to the next whitespace, and leaves the rest alone. |
| SanitizedText.FirstUrlIsMasked | core/src/sanitize.rs:96-115 | What stands before a URL is kept, the URL up to the next white space is masked, and so on. |
| SanitizedText.UrlIsReplaced | core/src/sanitize.rs:117-139 | Scheme, host and path of a URL are kept; credentials give way to stars, a query or fragment behind the path to a mark. |
| Sanitizer.MaskedUrlHidesExactly | core/src/sanitize.rs:117-139 | Of a masked URL nothing before an `@` of the authority is left but stars, and no query or fragment behind the path's first slash; one in the authority is left iff it was not among the credentials. |
| Sanitizer.UrlsKeepHomesMasked | core/src/sanitize.rs:96-139 | Masking URLs undoes no masked home path. |
| Sanitizer.AssignmentsKeepHomesMasked | core/src/sanitize.rs:141-167 | Masking assignments undoes no masked home path. |
| Sanitizer.MaskingHoldsTogether | core/src/sanitize.rs:9-15 | After all passes every home path and every assignment is masked. |
| Sanitizer.Truncate | core/src/sanitize.rs:169-184 | Stepping back to a character boundary yields the longest prefix that fits. |
| Sanitizer.Sanitize | core/src/sanitize.rs:9-15 | The passes in their order. |
| SanitizedText.PassesAre | core/src/sanitize.rs:9-15 | Homes first, then URLs, then the six keys in their order, then the limit of 4096 bytes. |
| SanitizedText.PlainLineIsKept | core/src/sanitize.rs:9-15 | A line without controls, home paths, URLs and keys that fits is stored as it is. |
| Sanitizer.StoredLineIsBounded | core/src/sanitize.rs:9-15 | A stored line has at most 4096 bytes, is the longest fitting prefix of the masked text and says whether anything was cut off. |

## Left out

- The errors of looking at what a rollback made: one code, ROLLBACK_RESULT_INVALID, stands for all.
- Foreign programs (zypper, snapper, btrfs, gpg, curl, dracut, grub2-mkconfig, systemctl): their outcome is a parameter of a step.
- Signatures, SHA-256, URL parsing and RPM version syntax: abstract, or an injective function.
- Symbolic links, permissions, hard links, fsync and rename: a durable replace is one step.
- JSON and XML tokenizing: the model starts from records and events; text the tokenizer cannot decode is the event `Malformed`.
- The caller checks of the service, and the fields of the status response that copy the record.
- The rest of `validate_manifest_route` (versions, fingerprints, charsets): settled by reading one expression; the replay check is `Protocol.Fresh`.
- `parse_subvolume` and the discovery of the boot subvolume: the rollback step takes a valid identity or a failure.
- The user interface, translations, the desktop bridge, the command line, the probe, the query broker, packaging and the harnesses.
- Verification checks after boot (`verify`): their outcome is a parameter; `verify_release` is part of it.
- Error messages of the XML readers: the model says that they fail, not with which words.
- Sanitizer.MaskUrlPaths: no claim that URLs keep every secret; what stays is characterised by `MaskedUrlHidesExactly`.
- Sanitizer.StripPanicsExactly: works on characters and their UTF-8 width, because the scanner's byte steps differ from character steps only after an escape.
- SolverSummary.ParseSolverXml: an attribute list with a malformed entry fails as a whole, while the source notices only entries before the one it looks for.
- MetadataWalk.WalkRefinesVisit: a callback sees the names of the ancestors, not their attributes or text, because no callback of the source reads those.
- EventFile.HistoryOfEveryRun: counts an append that reached the disk although an error was reported among those written, because the reader returns it.
- ProtocolTheorems.CounterMovesOnlyOnSuccess: the counter may have moved although the record then says the sequence could not be stored, because the error can come after the rename.
- Observer.Observer.Status: of a running worker; without one the report is its persisted part alone.
- StatusTheorems.StatusShowsEveryStateChange: supposes that the worker does not use up the 64-bit sequences, because from there on every event has the same one.
