/** What every run of the protocol guarantees, with a crash or a failure anywhere. */
module ProtocolTheorems {
  import opened Wrappers
  import opened Decimal
  import opened Operation
  import opened Records
  import opened Protocol
  import opened Traces
  import opened ProtocolInvariant
  import opened ProtocolSteps
  import opened ProtocolWrites

  // The world after more steps.
  function Continue(w: World, more: seq<Step>): World {
    if more == [] then w else Do(Continue(w, more[..|more| - 1]), more[|more| - 1])
  }

  lemma {:induction false} ContinueKeeps(w: World, more: seq<Step>)
    requires Inv(w)
    ensures Inv(Continue(w, more))
  {
    hide Inv, Do;
    if more != [] {
      ContinueKeeps(w, more[..|more| - 1]);
      StepKeeps(Continue(w, more[..|more| - 1]), more[|more| - 1]);
    }
  }

  lemma {:induction false} RunContinues(steps: seq<Step>, more: seq<Step>)
    ensures Run(steps + more) == Continue(Run(steps), more)
  {
    hide Do;
    if more == [] {
      assert steps + more == steps;
    } else {
      RunContinues(steps, more[..|more| - 1]);
      assert (steps + more)[..|steps + more| - 1] == steps + more[..|more| - 1];
    }
  }

  // ------------------------------------------------------------ nothing is forgotten

  predicate Remembers(before: Op, after: Op) {
    && after.disk.contract == before.disk.contract
    && before.disk.sequence <= after.disk.sequence
    && (before.disk.snapshotNumber.Some? ==> after.disk.snapshotNumber == before.disk.snapshotNumber)
    && before.log <= after.log
  }

  lemma StepRemembers(w: World, s: Step, id: OperationId)
    requires Inv(w) && id in w.ops
    ensures id in Do(w, s).ops && Remembers(w.ops[id], Do(w, s).ops[id])
  {
    hide Inv, Do, PendingWrite, ValidState;
    OnlySavesChangeRecords(w, s, id);
    if PendingWrite(w, s).Some? {
      GateRefusesExactly(w, s);
    }
  }

  lemma {:induction false} ContinueRemembers(w: World, more: seq<Step>, id: OperationId)
    requires Inv(w) && id in w.ops
    ensures id in Continue(w, more).ops && Remembers(w.ops[id], Continue(w, more).ops[id])
  {
    hide Inv, Do;
    if more != [] {
      ContinueRemembers(w, more[..|more| - 1], id);
      ContinueKeeps(w, more[..|more| - 1]);
      StepRemembers(Continue(w, more[..|more| - 1]), more[|more| - 1], id);
    }
  }

  // Along every run a recorded snapshot number is never changed or cleared, the
  // persisted sequence never moves back, the contract never changes, and no effect is
  // taken back.
  lemma NothingIsForgotten(steps: seq<Step>, more: seq<Step>, id: OperationId)
    requires id in Run(steps).ops
    ensures id in Run(steps + more).ops && Remembers(Run(steps).ops[id], Run(steps + more).ops[id])
  {
    hide Inv;
    RunKeeps(steps);
    RunContinues(steps, more);
    ContinueRemembers(Run(steps), more, id);
  }

  // ------------------------------------------- the package transaction, at most once

  lemma LogOfRun(steps: seq<Step>, id: OperationId)
    requires id in Run(steps).ops
    ensures OpOk(id, Run(steps).ops[id])
    ensures Legal(Run(steps).ops[id].log)
  {
    RunKeeps(steps);
    assert OpOk(id, Run(steps).ops[id]);
  }

  // In every run the packages of an operation are applied at most once, and only
  // after its one snapshot, of positive number, and with a record that carries that
  // number persisted in Applying (for an update) or ApplyingOffline (for a signed
  // operation whose manifest is beyond the replay counter).
  lemma PackagesAreAppliedOnce(steps: seq<Step>, id: OperationId, j: nat)
    requires id in Run(steps).ops && j < |Run(steps).ops[id].log| && Run(steps).ops[id].log[j].PackagesApplied?
    ensures var log := Run(steps).ops[id].log;
            && Authorises(log[j].persisted, log[j].manifest, log[j].counter)
            && (forall k :: 0 <= k < |log| && k != j ==> !log[k].PackagesApplied?)
            && exists i :: 0 <= i < j && log[i].SnapshotTaken? && log[i].number > 0
                           && log[j].persisted.snapshotNumber == Some(log[i].number)
                           && forall k :: 0 <= k < |log| && k != i ==> !log[k].SnapshotTaken?
  {
    hide OpOk;
    LogOfRun(steps, id);
    AppliedOnceAfterSnapshot(Run(steps).ops[id].log, j);
  }

  // Once the transaction has started, no steps lead the operation back to a state
  // from which it could be started again.
  lemma NeverReadyAgain(steps: seq<Step>, more: seq<Step>, id: OperationId, j: nat)
    requires id in Run(steps).ops && j < |Run(steps).ops[id].log| && Run(steps).ops[id].log[j].PackagesApplied?
    ensures id in Run(steps + more).ops && PostApply(Run(steps + more).ops[id].disk.state)
  {
    NothingIsForgotten(steps, more, id);
    var o := Run(steps + more).ops[id];
    LogOfRun(steps + more, id);
    assert o.log[j].PackagesApplied?;
    StepAt(o.log, j);
    Latches(o.log, j + 1, |o.log|);
    assert o.log[..|o.log|] == o.log;
  }

  // ------------------------------------------------------------- the rollback intent

  // A rollback runs only while an intent without a clone is on disk, right after that
  // intent was saved; a clone is confirmed only after its rollback; and an intent is
  // never followed by another one, nor a rollback repeated, before a clone is confirmed.
  lemma RollbackKeepsItsProtocol(steps: seq<Step>, id: OperationId, k: nat)
    requires id in Run(steps).ops && k < |Run(steps).ops[id].log|
    ensures var log := Run(steps).ops[id].log;
            && (log[k].RollbackRun? ==>
                  Incomplete(log[k].persisted) && exists i :: LastPhaseChange(log, i, k) && log[i].IntentSaved?)
            && (log[k].CloneConfirmed? ==>
                  Confirms(log[k].goal) && exists i :: LastPhaseChange(log, i, k) && log[i].RollbackRun?)
            && (log[k].IntentSaved? ==>
                  forall i :: 0 <= i < k && log[i].IntentSaved? ==> exists j :: i < j < k && log[j].CloneConfirmed?)
  {
    hide OpOk;
    LogOfRun(steps, id);
    var log := Run(steps).ops[id].log;
    if log[k].RollbackRun? {
      RollbackFollowsItsIntent(log, k);
    }
    if log[k].CloneConfirmed? {
      CloneFollowsItsRollback(log, k);
    }
    if log[k].IntentSaved? {
      forall i | 0 <= i < k && log[i].IntentSaved?
        ensures exists j :: i < j < k && log[j].CloneConfirmed?
      {
        NoIntentOverAnother(log, i, k);
      }
    }
  }

  // Every persisted goal is either a distinct clone of the recorded source, or an
  // intent waiting in NeedsRecovery or Failed; the goal is always that of the
  // operation's own snapshot, and the record says which of the two the log says.
  lemma PersistedGoalIsConfirmedOrWaiting(steps: seq<Step>, id: OperationId)
    requires id in Run(steps).ops && Run(steps).ops[id].disk.recovery.Some?
    ensures var d := Run(steps).ops[id].disk;
            && d.snapshotNumber == Some(d.recovery.value.sourceNumber)
            && (Confirms(d.recovery.value) || (Incomplete(d) && (d.state.NeedsRecovery? || d.state.Failed?)))
            && Legal(Run(steps).ops[id].log) && (Incomplete(d) <==> !Replay(Run(steps).ops[id].log).value.phase.Rest?)
  {
    hide Replay, IsUuid;
    LogOfRun(steps, id);
  }

  // An intent whose rollback is no longer under way.
  predicate Stalled(w: World, id: OperationId) {
    && id in w.ops && Incomplete(w.ops[id].disk)
    && (w.holder.RollbackHolds? && w.holder.op == id ==> w.holder.rollbackPc.Asked?)
  }

  lemma StalledIsSettled(id: OperationId, o: Op)
    requires OpOk(id, o) && Incomplete(o.disk)
    ensures o.worker.NoWorker? && (o.disk.state.NeedsRecovery? || o.disk.state.Failed?)
  {
    hide Replay, IsUuid, IsSha256;
  }

  lemma StalledRollback(w: World, s: Step, id: OperationId)
    requires Stalled(w, id)
    ensures var w' := RollbackDo(w, s);
            && id in w'.ops && w'.ops[id].log == w.ops[id].log
            && (w'.holder.RollbackHolds? && w'.holder.op == id ==> w'.holder.rollbackPc.Asked?)
  {
    hide ValidState, IsUuid;
  }

  lemma StalledWorker(w: World, s: Step, id: OperationId)
    requires id in w.ops && w.ops[id].worker.NoWorker?
    ensures var w' := WorkerDo(w, s);
            id in w'.ops && w'.ops[id].log == w.ops[id].log && (w'.holder.RollbackHolds? ==> w'.holder == w.holder)
  {
    hide ValidState, TransitionTo, WorkerTarget;
  }

  lemma StalledOffline(w: World, s: Step, id: OperationId)
    requires Inv(w) && id in w.ops && !w.ops[id].disk.state.ApplyingOffline?
    ensures var w' := OfflineDo(w, s);
            id in w'.ops && w'.ops[id].log == w.ops[id].log && (w'.holder.RollbackHolds? ==> w'.holder == w.holder)
  {
    hide OpOk, ValidState, TransitionTo, BootQuiet, Fresh, LockOk, MarkerOk, Replay;
  }

  lemma StalledElsewhere(w: World, s: Step, id: OperationId)
    requires id in w.ops && !IsWorkerStep(s)
    requires !s.OfflineApply? && !s.RollbackBegin? && !s.RollbackLoad? && !s.RollbackSave? && !s.RollbackExecute? && !s.RollbackInspect?
    ensures var w' := Do(w, s);
            id in w'.ops && w'.ops[id].log == w.ops[id].log && (w'.holder.RollbackHolds? ==> w'.holder == w.holder)
  {
    hide ValidState, TransitionTo, BootQuiet, Fresh, InterruptedIn, Lists, Selects, Finalized;
  }

  lemma DoesOtherwise(w: World, s: Step)
    ensures s.OfflineApply? ==> Do(w, s) == OfflineDo(w, s)
    ensures s.RollbackBegin? || s.RollbackLoad? || s.RollbackSave? || s.RollbackExecute? || s.RollbackInspect? ==>
              Do(w, s) == RollbackDo(w, s)
  {
    hide OfflineDo, RollbackDo;
  }

  lemma StalledStays(w: World, s: Step, id: OperationId)
    requires Inv(w) && Stalled(w, id)
    ensures Stalled(Do(w, s), id) && Do(w, s).ops[id].log == w.ops[id].log
  {
    hide Do, OpOk, LockOk, HolderOk, MarkerOk, WorkerDo, OfflineDo, RollbackDo, Incomplete;
    StalledIsSettled(id, w.ops[id]);
    StepKeeps(w, s);
    if s.OfflineApply? {
      DoesOtherwise(w, s);
      StalledOffline(w, s, id);
    } else if s.RollbackBegin? || s.RollbackLoad? || s.RollbackSave? || s.RollbackExecute? || s.RollbackInspect? {
      DoesOtherwise(w, s);
      StalledRollback(w, s, id);
    } else if IsWorkerStep(s) {
      DoesWork(w, s);
      StalledWorker(w, s, id);
    } else {
      StalledElsewhere(w, s, id);
    }
    assert OpOk(id, w.ops[id]) && OpOk(id, Do(w, s).ops[id]);
    SameLogSameIntent(id, w.ops[id], Do(w, s).ops[id]);
  }

  // The record says what the log says: an intent is there until its clone is confirmed.
  lemma SameLogSameIntent(id: OperationId, before: Op, after: Op)
    requires OpOk(id, before) && OpOk(id, after) && before.log == after.log
    ensures Incomplete(before.disk) <==> Incomplete(after.disk)
  {
    hide Replay, ValidState, WorkerOk;
  }

  lemma {:induction false} ContinueStalled(w: World, more: seq<Step>, id: OperationId)
    requires Inv(w) && Stalled(w, id)
    ensures Stalled(Continue(w, more), id) && Continue(w, more).ops[id].log == w.ops[id].log
  {
    hide Inv, Do, Stalled;
    StalledExists(w, id);
    if more != [] {
      var before := more[..|more| - 1];
      ContinueStalled(w, before, id);
      ContinueKeeps(w, before);
      StalledExists(Continue(w, before), id);
      StalledStays(Continue(w, before), more[|more| - 1], id);
      StalledExists(Continue(w, more), id);
    }
  }

  lemma StalledExists(w: World, id: OperationId)
    requires Stalled(w, id)
    ensures id in w.ops
  {}

  // An incomplete intent is never retried: once its rollback is not under way any more,
  // nothing is ever done to the system for that operation again, by any process.
  lemma IncompleteIntentIsFinal(steps: seq<Step>, more: seq<Step>, id: OperationId)
    requires Stalled(Run(steps), id)
    ensures Stalled(Run(steps + more), id) && Run(steps + more).ops[id].log == Run(steps).ops[id].log
  {
    hide Inv, Stalled;
    RunKeeps(steps);
    RunContinues(steps, more);
    StalledExists(Run(steps), id);
    ContinueStalled(Run(steps), more, id);
  }

  // --------------------------------------------------------------- the replay counter

  predicate NotBefore(before: Option<u64>, after: Option<u64>) {
    before.Some? ==> after.Some? && before.value <= after.value
  }

  // The counter moves only when the verifier finalises a signed operation without a
  // recovery goal that passed verification, and then to that manifest's sequence.
  lemma CounterMovesOnlyOnSuccess(w: World, s: Step)
    requires Inv(w) && Do(w, s).counter != w.counter
    ensures s.VerifierFinalize? && w.holder.VerifierHolds? && w.holder.verifierPc.Checked? && w.holder.verifierPc.passed
    ensures w.holder.candidate.Some? && AdvancesCounter(w.holder.candidate.value)
    ensures var id := w.holder.candidate.value.contract.operationId;
            && id in w.ops && w.ops[id].disk == w.holder.candidate.value && w.ops[id].disk.state.VerifyingBoot?
            && Do(w, s).counter == w.ops[id].manifestFile && Do(w, s).counter.Some?
    ensures NotBefore(w.counter, Do(w, s).counter)
  {
    hide ValidState, Replay, OpOk, LockOk, MarkerOk, SaveTo, TransitionTo, BootQuiet, InterruptedIn, Selects, Lists;
    StepFrame(w, s);
  }

  lemma {:induction false} CounterNeverDecreases(w: World, more: seq<Step>)
    requires Inv(w)
    ensures NotBefore(w.counter, Continue(w, more).counter)
  {
    hide Inv, Do;
    if more != [] {
      var before, s := Continue(w, more[..|more| - 1]), more[|more| - 1];
      CounterNeverDecreases(w, more[..|more| - 1]);
      ContinueKeeps(w, more[..|more| - 1]);
      if Do(before, s).counter != before.counter {
        CounterMovesOnlyOnSuccess(before, s);
      }
    }
  }

  // What was not yet applied when the counter stood at s is applied only with a
  // manifest beyond s.
  predicate AppliedBeyond(log: seq<Effect>, from: nat, s: u64) {
    forall k :: from <= k < |log| && log[k].PackagesApplied? && log[k].persisted.state.ApplyingOffline? ==>
      log[k].manifest.Some? && log[k].manifest.value > s
  }

  function LogLength(w: World, id: OperationId): nat {
    if id in w.ops then |w.ops[id].log| else 0
  }

  lemma AddedAppliesBeyond(before: seq<Effect>, log: seq<Effect>, counter: Option<u64>, from: nat, s: u64)
    requires Adds(before, log, counter) && Legal(log) && NotBefore(Some(s), counter)
    requires AppliedBeyond(before, from, s)
    ensures AppliedBeyond(log, from, s)
  {
    hide Legal;
    if |log| == |before| + 1 && log[|log| - 1].PackagesApplied? {
      StepAt(log, |log| - 1);
    }
  }

  lemma StepAppliesBeyond(w: World, step: Step, id: OperationId, from: nat, s: u64)
    requires Inv(w) && NotBefore(Some(s), w.counter)
    requires id in w.ops ==> AppliedBeyond(w.ops[id].log, from, s)
    ensures id in Do(w, step).ops ==> AppliedBeyond(Do(w, step).ops[id].log, from, s)
  {
    hide Do, OpOk, Legal, Adds, LockOk, HolderOk, MarkerOk;
    if id in w.ops {
      hide AppliedBeyond;
      StepKeeps(w, step);
      OnlySavesChangeRecords(w, step, id);
      LegalOp(id, Do(w, step).ops[id]);
      AddedAppliesBeyond(w.ops[id].log, Do(w, step).ops[id].log, w.counter, from, s);
    } else {
      StepFrame(w, step);
    }
  }

  lemma {:induction false} ContinueAppliesBeyond(w: World, more: seq<Step>, id: OperationId, from: nat, s: u64)
    requires Inv(w) && NotBefore(Some(s), w.counter) && from == LogLength(w, id)
    ensures var w' := Continue(w, more); id in w'.ops ==> AppliedBeyond(w'.ops[id].log, from, s)
  {
    hide Inv, Do;
    if more != [] {
      var before := Continue(w, more[..|more| - 1]);
      ContinueAppliesBeyond(w, more[..|more| - 1], id, from, s);
      ContinueKeeps(w, more[..|more| - 1]);
      CounterNeverDecreases(w, more[..|more| - 1]);
      StepAppliesBeyond(before, more[|more| - 1], id, from, s);
    }
  }

  // Once the replay counter has reached s it stays there or beyond, and no later
  // offline application of any operation, old or new, has a manifest of s or less.
  lemma NoReplayedApplication(steps: seq<Step>, more: seq<Step>, id: OperationId, s: u64)
    requires Run(steps).counter.Some? && s <= Run(steps).counter.value
    ensures Run(steps + more).counter.Some? && s <= Run(steps + more).counter.value
    ensures id in Run(steps + more).ops ==>
              AppliedBeyond(Run(steps + more).ops[id].log, LogLength(Run(steps), id), s)
  {
    hide Inv;
    RunKeeps(steps);
    RunContinues(steps, more);
    CounterNeverDecreases(Run(steps), more);
    ContinueAppliesBeyond(Run(steps), more, id, LogLength(Run(steps), id), s);
  }

  // ---------------------------------------------------------- the verifier's `expect`s

  // In every run, what the verifier is about to reconcile has a state to reconcile to,
  // and the candidate it is about to verify may enter verification.
  lemma VerifierNeverPanics(steps: seq<Step>)
    requires Run(steps).holder.VerifierHolds? && Run(steps).holder.verifierPc.Reconciling?
    ensures var h := Run(steps).holder;
            && (forall r :: r in h.queue ==> InterruptedState(r.state).Some?)
            && (h.candidate.Some? && h.candidate.value.state.AwaitingReboot? ==>
                  TransitionTo(h.candidate.value, VerifyingBoot).Ok?)
  {
    hide ValidState, Replay, LockOk, MarkerOk, OpOk;
    RunKeeps(steps);
    var w := Run(steps);
    forall r | r in w.holder.queue
      ensures InterruptedState(r.state).Some?
    {
      assert EntryOk(w.ops, r);
    }
    if w.holder.candidate.Some? {
      VerifyingOp(w.ops, w.holder.candidate.value);
    }
  }

  // ------------------------------------------ the record that cannot be reconciled

  // A record left in Snapshotting without a number, and no worker to continue it.
  predicate Wedged(w: World, id: OperationId) {
    id in w.ops && w.ops[id].worker.NoWorker? && Unnumberable(w.ops[id].disk)
  }

  // States in which the system is being changed.
  predicate Transacting(s: OperationState) {
    s.Snapshotting? || s.Applying? || s.ApplyingOffline?
  }

  predicate InFlight(s: OperationState) {
    Transacting(s) || s.Downloading?
  }

  // No verifier that is past its scan has overlooked the record.
  predicate InQueue(w: World, id: OperationId)
    requires id in w.ops
  {
    w.holder.VerifierHolds? ==>
      w.holder.verifierPc.Scanning? || (w.holder.verifierPc.Reconciling? && w.ops[id].disk in w.holder.queue)
  }

  predicate AllQueued(w: World) {
    forall id :: id in w.ops && InFlight(w.ops[id].disk.state) ==> InQueue(w, id)
  }

  // No step changes a wedged record: the verifier is the only process that would save
  // it, and what it would save is refused.
  lemma WedgedIsNotWritten(w: World, s: Step, id: OperationId)
    requires Inv(w) && Wedged(w, id)
    ensures Written(w, s, id) == w.ops[id].disk
  {
    hide Inv, PendingWrite, IsSha256, IsUuid;
    if Targets(PendingWrite(w, s), id) {
      WhoWrites(w, s, id);
    }
  }

  lemma WedgedExists(w: World, id: OperationId)
    requires Wedged(w, id)
    ensures id in w.ops
  {}

  lemma WedgePersists(w: World, s: Step, id: OperationId)
    requires Inv(w) && Wedged(w, id)
    ensures Wedged(Do(w, s), id) && Do(w, s).ops[id].disk == w.ops[id].disk
  {
    hide Inv, Do;
    WedgedIsNotWritten(w, s, id);
    OnlySavesChangeRecords(w, s, id);
    StepFrame(w, s);
  }

  // While the verifier holds the lock, no save leaves a record in such a state.
  lemma VerifierTimeWrites(w: World, s: Step)
    requires Inv(w) && w.holder.VerifierHolds? && PendingWrite(w, s).Some?
    ensures !InFlight(PendingWrite(w, s).value.state)
  {
    hide OpOk, ValidState, MarkerOk, ValidTransition;
    if VerifierWrite(w, s).Some? && !(w.holder.verifierPc.Reconciling? && w.holder.queue != []) {
      assert IsCandidate(w.holder.candidate.value) || VerdictOk(w.ops[w.holder.candidate.value.contract.operationId].disk, w.holder.candidate.value);
    }
  }

  // While the verifier holds the lock, what is in flight was so before.
  lemma NothingTakesOff(w: World, s: Step, id: OperationId)
    requires Inv(w) && w.holder.VerifierHolds? && id in Do(w, s).ops && InFlight(Do(w, s).ops[id].disk.state)
    ensures id in w.ops && Do(w, s).ops[id].disk == w.ops[id].disk
  {
    hide Inv, Do, ValidState, PendingWrite;
    StepFrame(w, s);
    if id in w.ops {
      OnlySavesChangeRecords(w, s, id);
      if PendingWrite(w, s).Some? {
        VerifierTimeWrites(w, s);
      }
    }
  }

  lemma ScanQueuesIt(w: World, s: Step, id: OperationId)
    requires Inv(w) && id in w.ops && InFlight(w.ops[id].disk.state) && InQueue(w, id)
    requires w.holder.VerifierHolds? && s.VerifierScan?
    ensures id in VerifierDo(w, s).ops && InQueue(VerifierDo(w, s), id)
  {
    hide OpOk, ValidState, LockOk, MarkerOk, InterruptedIn, QueueOk, SaveTo;
    if w.holder.verifierPc.Scanning? && Lists(w, s.entries) && Selects(w, s.first) {
      ScanQueues(w, s.entries);
      assert id in s.entries && IsInterrupted(w.ops[id].disk, w.marker);
    }
  }

  // The head of the queue leaves it only once it was saved in a settled state.
  lemma SaveKeepsQueue(w: World, s: Step, id: OperationId)
    requires Inv(w) && id in w.ops && InFlight(w.ops[id].disk.state) && InQueue(w, id)
    requires w.holder.VerifierHolds? && s.VerifierSave?
    requires id in VerifierDo(w, s).ops && VerifierDo(w, s).ops[id].disk == w.ops[id].disk
    ensures InQueue(VerifierDo(w, s), id)
  {
    hide Inv, ValidState, TransitionTo;
    DisksRecord(w, id);
  }

  lemma CheckKeepsQueue(w: World, s: Step, id: OperationId)
    requires w.holder.VerifierHolds? && id in w.ops && InQueue(w, id) && (s.VerifierCheck? || s.VerifierFinalize?)
    requires id in VerifierDo(w, s).ops && VerifierDo(w, s).ops[id].disk == w.ops[id].disk
    ensures InQueue(VerifierDo(w, s), id)
  {
    hide Finalized;
  }

  lemma StaysQueued(w: World, s: Step, id: OperationId)
    requires Inv(w) && id in w.ops && InFlight(w.ops[id].disk.state) && InQueue(w, id)
    requires w.holder.VerifierHolds? && id in Do(w, s).ops && Do(w, s).ops[id].disk == w.ops[id].disk
    ensures InQueue(Do(w, s), id)
  {
    hide Inv, Do, VerifierDo, InFlight;
    if VerifierWorks(s) {
      DoesVerify(w, s);
      if s.VerifierScan? {
        ScanQueuesIt(w, s, id);
      } else if s.VerifierSave? {
        SaveKeepsQueue(w, s, id);
      } else {
        CheckKeepsQueue(w, s, id);
      }
    } else {
      StepFrame(w, s);
    }
  }

  lemma DoesVerify(w: World, s: Step)
    requires VerifierWorks(s)
    ensures Do(w, s) == VerifierDo(w, s)
  {
    hide VerifierDo;
  }

  lemma AllStayQueued(w: World, s: Step)
    requires Inv(w) && AllQueued(w)
    ensures AllQueued(Do(w, s))
  {
    hide Inv, Do, InFlight;
    StepFrame(w, s);
    forall id | id in Do(w, s).ops && InFlight(Do(w, s).ops[id].disk.state)
      ensures InQueue(Do(w, s), id)
    {
      if Do(w, s).holder.VerifierHolds? && w.holder.VerifierHolds? {
        NothingTakesOff(w, s, id);
        StaysQueued(w, s, id);
      }
    }
  }

  lemma {:induction false} ContinueQueues(w: World, more: seq<Step>)
    requires Inv(w) && AllQueued(w)
    ensures AllQueued(Continue(w, more))
  {
    hide Inv, Do, AllQueued;
    if more != [] {
      ContinueQueues(w, more[..|more| - 1]);
      ContinueKeeps(w, more[..|more| - 1]);
      AllStayQueued(Continue(w, more[..|more| - 1]), more[|more| - 1]);
    }
  }

  lemma {:induction false} ContinueWedged(w: World, more: seq<Step>, id: OperationId)
    requires Inv(w) && Wedged(w, id)
    ensures Wedged(Continue(w, more), id) && Continue(w, more).ops[id].disk == w.ops[id].disk
  {
    hide Inv, Do, Wedged;
    WedgedExists(w, id);
    if more != [] {
      ContinueWedged(w, more[..|more| - 1], id);
      ContinueKeeps(w, more[..|more| - 1]);
      WedgedExists(Continue(w, more[..|more| - 1]), id);
      WedgePersists(Continue(w, more[..|more| - 1]), more[|more| - 1], id);
    }
  }

  predicate Verifying(w: World) {
    w.holder.VerifierHolds? && !w.holder.verifierPc.Scanning? && !w.holder.verifierPc.Reconciling?
  }

  // Once the verifier gets to verifying, its pass has settled every record in flight.
  lemma VerificationFindsNothingInFlight(steps: seq<Step>, id: OperationId)
    requires Verifying(Run(steps)) && id in Run(steps).ops
    ensures !InFlight(Run(steps).ops[id].disk.state)
  {
    hide Inv, Do, InFlight;
    RunFromInitial(steps);
    InitialQueues();
    ContinueQueues(Initial, steps);
  }

  // A record that stopped in Snapshotting before its number was stored, with no worker
  // left, is never changed again by anything; and as long as it exists no boot
  // verification of any operation is ever reached.
  lemma WedgedForever(steps: seq<Step>, more: seq<Step>, id: OperationId)
    requires Wedged(Run(steps), id)
    ensures Wedged(Run(steps + more), id) && Run(steps + more).ops[id].disk == Run(steps).ops[id].disk
    ensures !Verifying(Run(steps + more))
  {
    hide Inv, Do, Wedged;
    RunKeeps(steps);
    RunContinues(steps, more);
    WedgedExists(Run(steps), id);
    ContinueWedged(Run(steps), more, id);
    WedgedInFlight(Run(steps + more), id);
    if Verifying(Run(steps + more)) {
      VerificationFindsNothingInFlight(steps + more, id);
    }
  }

  lemma WedgedInFlight(w: World, id: OperationId)
    requires Wedged(w, id)
    ensures id in w.ops && InFlight(w.ops[id].disk.state)
  {}

  lemma InitialQueues()
    ensures Inv(Initial) && AllQueued(Initial)
  {}

  lemma ContinueStep(w: World, steps: seq<Step>, s: Step)
    ensures Continue(w, steps + [s]) == Do(Continue(w, steps), s)
  {
    hide Do;
    assert (steps + [s])[..|steps|] == steps;
  }

  lemma {:induction false} ContinueSplit(w: World, a: seq<Step>, b: seq<Step>)
    ensures Continue(w, a + b) == Continue(Continue(w, a), b)
  {
    hide Do;
    if b == [] {
      assert a + b == a;
    } else {
      var front := b[..|b| - 1];
      ContinueSplit(w, a, front);
      assert (a + b)[..|a + b| - 1] == a + front;
    }
  }

  // The same, from the first step on.
  function Play(w: World, steps: seq<Step>): World
    decreases |steps|
  {
    if steps == [] then w else Play(Do(w, steps[0]), steps[1..])
  }

  lemma {:induction false} PlayIsContinue(w: World, steps: seq<Step>)
    ensures Continue(w, steps) == Play(w, steps)
    decreases |steps|
  {
    hide Do;
    if steps != [] {
      var s, rest := steps[0], steps[1..];
      assert steps == [s] + rest;
      ContinueSplit(w, [s], rest);
      ContinueStep(w, [], s);
      assert [] + [s] == [s];
      PlayIsContinue(Do(w, s), rest);
    }
  }

  // One step of a play.
  lemma Plays(w: World, steps: seq<Step>, s: Step, rest: seq<Step>)
    requires steps == [s] + rest
    ensures Play(w, steps) == Play(Do(w, s), rest)
  {
    assert steps[1..] == rest;
  }

  lemma PlaysOut(w: World)
    ensures Play(w, []) == w
  {}

  lemma {:induction false} PlaySplit(w: World, a: seq<Step>, b: seq<Step>)
    ensures Play(w, a + b) == Play(Play(w, a), b)
  {
    PlayIsContinue(w, a + b);
    ContinueSplit(w, a, b);
    PlayIsContinue(w, a);
    PlayIsContinue(Play(w, a), b);
  }

  // An operation under way: its worker is about to save Downloading.
  function Stages(contract: Contract, offered: u64): seq<Step> {
    var id := contract.operationId;
    [Create(id, contract, offered), Start(id), WorkerLock(id), WorkerStage(id, true, true)]
  }

  // Then Snapshotting is saved, and the snapshot is not yet taken.
  function Snapshots(contract: Contract, offered: u64): seq<Step> {
    var id := contract.operationId;
    Stages(contract, offered) + [WorkerSave(id, Done, false), WorkerPoll(id, true), WorkerSave(id, Done, false)]
  }

  // A step of one operation alone.
  predicate Spares(w: World, w': World, id: OperationId) {
    forall other :: other in w.ops && other != id ==> other in w'.ops && w'.ops[other] == w.ops[other]
  }

  lemma SparesAll(a: World, b: World, c: World, id: OperationId)
    requires Spares(a, b, id) && Spares(b, c, id)
    ensures Spares(a, c, id)
  {}

  lemma DoesWork(w: World, s: Step)
    requires IsWorkerStep(s)
    ensures Do(w, s) == WorkerDo(w, s)
  {
    hide WorkerDo;
  }

  lemma StagesRun(w: World, contract: Contract, offered: u64)
    requires contract.Valid() && w.holder.Free? && contract.operationId !in w.ops
    ensures var id, w' := contract.operationId, Continue(w, Stages(contract, offered));
            && WorkerAt(w', id, Staged) && w'.ops[id].disk == w'.ops[id].worker.rec == InitialRecord(contract)
            && Spares(w, w', id)
  {
    hide IsSha256, ServiceDo, WorkerDo, Do, InitialRecord, Continue;
    var id := contract.operationId;
    ContinueFour(w, Create(id, contract, offered), Start(id), WorkerLock(id), WorkerStage(id, true, true));
    CreatesAndStarts(w, contract, offered);
    var started := Do(Do(w, Create(id, contract, offered)), Start(id));
    DoesWork(started, WorkerLock(id));
    DoesWork(Do(started, WorkerLock(id)), WorkerStage(id, true, true));
    LocksAndStages(started, id);
  }

  lemma ContinueFour(w: World, a: Step, b: Step, c: Step, d: Step)
    ensures Continue(w, [a, b, c, d]) == Do(Do(Do(Do(w, a), b), c), d)
  {
    hide Do;
    ContinueStep(w, [], a);
    ContinueStep(w, [a], b);
    ContinueStep(w, [a, b], c);
    ContinueStep(w, [a, b, c], d);
    assert [] + [a] == [a] && [a] + [b] == [a, b] && [a, b] + [c] == [a, b, c] && [a, b, c] + [d] == [a, b, c, d];
  }

  lemma CreatesAndStarts(w: World, contract: Contract, offered: u64)
    requires contract.Valid() && contract.operationId !in w.ops
    ensures var id, r := contract.operationId, InitialRecord(contract);
            Do(Do(w, Create(id, contract, offered)), Start(id))
            == w.(ops := w.ops[id := Op(r, Worker(r, Starting), offered, None, [])])
  {
    hide IsSha256;
  }

  lemma LocksAndStages(w: World, id: OperationId)
    requires WorkerAt(w, id, Starting) && w.holder.Free?
    ensures var w' := WorkerDo(WorkerDo(w, WorkerLock(id)), WorkerStage(id, true, true));
            && WorkerAt(w', id, Staged) && w'.ops[id].worker.rec == w.ops[id].worker.rec
            && w'.ops[id].disk == w.ops[id].disk && Spares(w, w', id)
  {
    hide TransitionTo, WriteAndGo;
  }

  // A worker without a snapshot saves its next state.
  lemma WorkerSavesNext(w: World, id: OperationId, next: OperationState, pc: WorkerPc)
    requires id in w.ops && w.ops[id].worker.Worker? && !w.ops[id].worker.pc.Numbered? && !EndsWorker(pc)
    requires WorkerTarget(w.ops[id].worker.rec, w.ops[id].worker.pc, false) == Some((next, pc))
    requires TransitionTo(w.ops[id].worker.rec, next).Ok? && ValidState(TransitionTo(w.ops[id].worker.rec, next).value)
    ensures var w' := WorkerDo(w, WorkerSave(id, Done, false));
            && WorkerAt(w', id, pc) && w'.ops[id].worker.rec == TransitionTo(w.ops[id].worker.rec, next).value
            && w'.ops[id].disk == w'.ops[id].worker.rec && Spares(w, w', id)
  {
    hide ValidState, TransitionTo, WorkerTarget;
  }

  lemma PollsOnce(w: World, id: OperationId)
    requires WorkerAt(w, id, Fetching) && w.ops[id].disk.error != Some(Cancelled)
    ensures WorkerDo(w, WorkerPoll(id, true)) == Go(w, id, w.ops[id], w.ops[id].worker.rec, Polled)
    ensures Spares(w, WorkerDo(w, WorkerPoll(id, true)), id)
  {}

  lemma Transitions(contract: Contract)
    requires contract.Valid()
    ensures var d := TransitionTo(InitialRecord(contract), Downloading);
            && d.Ok? && ValidState(d.value) && d.value.error != Some(Cancelled)
            && TransitionTo(d.value, Snapshotting).Ok? && ValidState(TransitionTo(d.value, Snapshotting).value)
            && Unnumberable(TransitionTo(d.value, Snapshotting).value)
  {
    hide IsSha256;
  }

  lemma SnapshotsRun(w: World, contract: Contract, offered: u64)
    requires contract.Valid() && w.holder.Free? && contract.operationId !in w.ops
    ensures var id, w' := contract.operationId, Continue(w, Snapshots(contract, offered));
            id in w'.ops && Unnumberable(w'.ops[id].disk) && Spares(w, w', id)
  {
    hide Stages, WorkerDo, Do, TransitionTo, ValidState, InitialRecord, Spares, Unnumberable;
    var id := contract.operationId;
    var s4 := Stages(contract, offered);
    StagesRun(w, contract, offered);
    Transitions(contract);
    var s5 := s4 + [WorkerSave(id, Done, false)];
    ContinueStep(w, s4, WorkerSave(id, Done, false));
    DoesWork(Continue(w, s4), WorkerSave(id, Done, false));
    WorkerSavesNext(Continue(w, s4), id, Downloading, Fetching);
    var s6 := s5 + [WorkerPoll(id, true)];
    ContinueStep(w, s5, WorkerPoll(id, true));
    DoesWork(Continue(w, s5), WorkerPoll(id, true));
    PollsOnce(Continue(w, s5), id);
    ContinueStep(w, s6, WorkerSave(id, Done, false));
    DoesWork(Continue(w, s6), WorkerSave(id, Done, false));
    WorkerSavesNext(Continue(w, s6), id, Snapshotting, Unnumbered);
    var w' := Continue(w, s6 + [WorkerSave(id, Done, false)]);
    SparesAll(w, Continue(w, s4), Continue(w, s5), id);
    SparesAll(w, Continue(w, s5), Continue(w, s6), id);
    SparesAll(w, Continue(w, s6), w', id);
    assert s6 + [WorkerSave(id, Done, false)] == Snapshots(contract, offered);
  }

  lemma RunFromInitial(steps: seq<Step>)
    ensures Run(steps) == Continue(Initial, steps)
  {
    RunContinues([], steps);
    assert [] + steps == steps;
  }

  // The wedge is reached: a crash after Snapshotting was saved is enough.
  lemma WedgeIsReachable(contract: Contract, offered: u64)
    requires contract.Valid()
    ensures Wedged(Run(Snapshots(contract, offered) + [Crash]), contract.operationId)
  {
    hide Snapshots;
    SnapshotsRun(Initial, contract, offered);
    ContinueStep(Initial, Snapshots(contract, offered), Crash);
    RunFromInitial(Snapshots(contract, offered) + [Crash]);
  }

  // ----------------------------------------------------------- one operation at a time

  predicate HeldFor(w: World, id: OperationId) {
    w.holder == WorkerHolds(id) || (w.holder.OfflineHolds? && w.holder.op == id)
  }

  lemma TransactingWrite(w: World, s: Step)
    requires Inv(w) && PendingWrite(w, s).Some? && Transacting(PendingWrite(w, s).value.state)
    ensures HeldFor(w, PendingWrite(w, s).value.contract.operationId)
  {
    hide OpOk, ValidState, MarkerOk, Replay, IsUuid, ValidTransition;
    if s.WorkerSave? || s.WorkerFail? {
      WorkersRecord(s.op, w.ops[s.op]);
    } else if s.OfflineSave? {
      HeldByOffline(w);
      DisksRecord(w, w.holder.op);
      if !w.holder.offlinePc.MarkingRecovery? {
        OfflinesRecord(w);
      }
    } else if s.RollbackSave? {
      HeldByRollback(w);
    } else if s.VerifierSave? {
      VerifierTimeWrites(w, s);
    }
  }

  // Work goes on for one operation at a time: a record enters Snapshotting, Applying or
  // ApplyingOffline only while the lock is held for that very operation.
  lemma OneOperationAtATime(w: World, s: Step, id: OperationId)
    requires Inv(w) && id in w.ops && id in Do(w, s).ops
    requires Do(w, s).ops[id].disk != w.ops[id].disk && Transacting(Do(w, s).ops[id].disk.state)
    ensures HeldFor(w, id)
  {
    hide Inv, Do, PendingWrite, ValidState;
    OnlySavesChangeRecords(w, s, id);
    TransactingWrite(w, s);
  }

  // The records themselves do not keep to that: after a crash two of them are left in
  // Snapshotting.
  lemma TwoRecordsInSnapshotting(first: Contract, second: Contract, offered: u64)
    requires first.Valid() && second.Valid() && first.operationId != second.operationId
    ensures var w := Run(Snapshots(first, offered) + [Crash] + Snapshots(second, offered));
            && first.operationId in w.ops && w.ops[first.operationId].disk.state.Snapshotting?
            && second.operationId in w.ops && w.ops[second.operationId].disk.state.Snapshotting?
  {
    hide Snapshots, Do;
    var before := Snapshots(first, offered) + [Crash];
    WedgeIsReachable(first, offered);
    CrashFrees(first, offered);
    SnapshotsRun(Run(before), second, offered);
    RunContinues(before, Snapshots(second, offered));
  }

  lemma CrashFrees(contract: Contract, offered: u64)
    requires contract.Valid()
    ensures var w := Run(Snapshots(contract, offered) + [Crash]);
            w.holder.Free? && forall id :: id in w.ops ==> id == contract.operationId
  {
    hide Snapshots, ValidState, IsSha256;
    ContinueStep(Initial, Snapshots(contract, offered), Crash);
    RunFromInitial(Snapshots(contract, offered) + [Crash]);
    OnlyItsOperation(contract, offered);
  }

  lemma OnlyItsOperation(contract: Contract, offered: u64)
    ensures forall id :: id in Continue(Initial, Snapshots(contract, offered)).ops ==> id == contract.operationId
  {
    hide Do;
    var steps := Snapshots(contract, offered);
    OnlyCreatedOperations(steps, contract.operationId);
  }

  lemma {:induction false} OnlyCreatedOperations(steps: seq<Step>, id: OperationId)
    requires forall s :: s in steps && s.Create? ==> s.op == id
    ensures forall other :: other in Continue(Initial, steps).ops ==> other == id
  {
    hide Do;
    if steps != [] {
      var before, last := steps[..|steps| - 1], steps[|steps| - 1];
      OnlyCreatedOperations(before, id);
      forall other | other in Continue(Initial, steps).ops
        ensures other == id
      {
        StepFrame(Continue(Initial, before), last);
      }
    }
  }

  // ------------------------------------------------------------------ final records

  // Failed before a snapshot was recorded, and no worker left.
  predicate FailedEarly(w: World, id: OperationId) {
    id in w.ops && w.ops[id].worker.NoWorker? && w.ops[id].disk.state.Failed? && w.ops[id].disk.snapshotNumber.None?
  }

  lemma FailedEarlyStays(w: World, s: Step, id: OperationId)
    requires Inv(w) && FailedEarly(w, id)
    ensures FailedEarly(Do(w, s), id)
  {
    hide Inv, Do, PendingWrite, ValidState;
    OnlySavesChangeRecords(w, s, id);
    StepFrame(w, s);
    if Targets(PendingWrite(w, s), id) {
      WhoWrites(w, s, id);
    }
  }

  lemma {:induction false} ContinueFailed(w: World, more: seq<Step>, id: OperationId)
    requires Inv(w) && FailedEarly(w, id)
    ensures FailedEarly(Continue(w, more), id)
  {
    hide Inv, Do, FailedEarly;
    if more != [] {
      ContinueFailed(w, more[..|more| - 1], id);
      ContinueKeeps(w, more[..|more| - 1]);
      FailedEarlyStays(Continue(w, more[..|more| - 1]), more[|more| - 1], id);
    }
  }

  // An operation that was cancelled or failed before its snapshot, and whose worker is
  // gone, stays so and never touches a package.
  lemma CancelledIsFinal(steps: seq<Step>, more: seq<Step>, id: OperationId)
    requires FailedEarly(Run(steps), id)
    ensures FailedEarly(Run(steps + more), id)
    ensures forall j :: 0 <= j < |Run(steps + more).ops[id].log| ==> !Run(steps + more).ops[id].log[j].PackagesApplied?
  {
    hide Inv, Do;
    RunKeeps(steps);
    RunContinues(steps, more);
    ContinueFailed(Run(steps), more, id);
    LogOfRun(steps + more, id);
    var log := Run(steps + more).ops[id].log;
    assert log[..|log|] == log;
    forall j | 0 <= j < |log|
      ensures !log[j].PackagesApplied?
    {
      StepAt(log, j);
      Latches(log, j + 1, |log|);
    }
  }

  // A completed operation without a worker is reopened by one thing only: the offline
  // worker, run again on the marker that was left at it.
  lemma CompletedIsReopenedOnlyByItsMarker(w: World, s: Step, id: OperationId)
    requires Inv(w) && id in w.ops && w.ops[id].worker.NoWorker? && w.ops[id].disk.state.Completed?
    requires id in Do(w, s).ops && Do(w, s).ops[id].disk != w.ops[id].disk
    ensures s.OfflineSave? && w.holder.OfflineHolds? && w.holder.op == id && w.holder.offlinePc.MarkingRecovery?
    ensures w.marker == Lyra(id) && Do(w, s).ops[id].disk == RecoveryMark(w.ops[id].disk)
  {
    hide Inv, Do, PendingWrite, ValidState;
    OnlySavesChangeRecords(w, s, id);
    WhoWrites(w, s, id);
  }
}
