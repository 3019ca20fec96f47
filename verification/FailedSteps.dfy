/** What a command that fails leads to, process by process: the error the process gives up
    with, nothing further of what it was about to do, and a record that says so. */
module FailedSteps {
  import opened Wrappers
  import opened Decimal
  import opened Operation
  import opened Records
  import opened Protocol
  import opened Traces
  import opened ProtocolInvariant
  import opened ProtocolSteps
  import opened ProtocolWrites
  import opened ProtocolTheorems
  import opened ProcessRuns

  // ----------------------------------------------------------------------- the worker

  predicate Works(w: World, id: OperationId) {
    id in w.ops && w.ops[id].worker.Worker?
  }

  // A step of a worker that fails, and the error.
  predicate FailsWith(w: World, s: Step, e: ExecutionError) {
    match s
    case WorkerLock(id) => WorkerAt(w, id, Starting) && w.holder != Free && e == Busy
    case WorkerStage(id, _, ok) => WorkerAt(w, id, Locked) && !ok && e == Stage
    case WorkerPoll(id, _) => WorkerAt(w, id, Fetching) && w.ops[id].disk.error == Some(Cancelled) && e == CancelRequested
    case WorkerMark(id, ok) =>
      && WorkerAt(w, id, NumberSaved) && w.ops[id].disk.contract.kind != UpdateWithinRelease
      && (if w.marker == Absent || w.marker == Lyra(id) then !ok && e == Stage else e == SystemUpdateExists)
    case WorkerApply(id, ok) => WorkerAt(w, id, ApplyingSaved) && !ok && e == ExecutionError.Apply
    case WorkerError(id, other) =>
      Works(w, id) && !w.ops[id].worker.pc.Failing? && other != CancelRequested && other != Busy && e == other
    case _ => false
  }

  // What the failure of a worker leaves: the error in its hand, the lock free if it held
  // it, its record as it was, and nothing on disk; an application that failed is logged.
  lemma FailureStops(w: World, s: Step, e: ExecutionError)
    requires FailsWith(w, s, e)
    ensures var id, w' := s.op, Do(w, s);
            && Works(w', id) && w'.ops[id].worker == Worker(w.ops[id].worker.rec, Failing(e))
            && w'.holder == (if w.holder == WorkerHolds(id) then Free else w.holder)
            && w'.ops[id].disk == w.ops[id].disk
            && w'.ops[id].log == w.ops[id].log + (if s.WorkerApply? then [PackagesApplied(w.ops[id].disk, None, w.counter)] else [])
            && Spares(w, w', id)
  {
    hide FailsWith, WorkerDo, Do;
    FailsById(w, s, e);
    DoesWork(w, s);
    GivesUp(w, s, e);
    assert w.ops[s.op].log + [] == w.ops[s.op].log;
  }

  lemma GivesUp(w: World, s: Step, e: ExecutionError)
    requires FailsWith(w, s, e)
    ensures s.op in w.ops && w.ops[s.op].worker.Worker?
    ensures var o := w.ops[s.op];
            var ran :=
              if s.WorkerApply? then o.(log := o.log + [PackagesApplied(o.disk, None, w.counter)])
              else if s.WorkerStage? && s.written && o.disk.contract.kind.IsSignedOffline() then o.(manifestFile := Some(o.offered))
              else o;
            var marker := if s.WorkerMark? && w.marker == Absent then Lyra(s.op) else w.marker;
            WorkerDo(w, s) == Fail(w.(marker := marker), s.op, ran, o.worker.rec, e)
  {
    hide TransitionTo, SaveTo, FailureRecord, Fail;
    assert w.(marker := w.marker) == w;
  }

  // A save that does not succeed stops the worker as well, wherever it is.
  lemma LostSaveStops(w: World, id: OperationId, io: Io, reboot: bool)
    requires Inv(w) && Works(w, id) && io != Done && WorkerWrite(w, WorkerSave(id, io, reboot)).Some?
    ensures var w' := Do(w, WorkerSave(id, io, reboot));
            && Works(w', id) && w'.ops[id].worker.pc == Failing(ExecutionError.Persist)
            && w'.ops[id].worker.rec.snapshotNumber == w.ops[id].worker.rec.snapshotNumber
            && w'.holder == (if w.holder == WorkerHolds(id) then Free else w.holder)
            && w'.ops[id].log == w.ops[id].log && Spares(w, w', id)
  {
    hide ValidState, Inv, WorkerTarget;
    DoesWork(w, WorkerSave(id, io, reboot));
  }

  // From any state of a run: a worker that failed records it, unless a cancellation stands
  // on disk: NeedsRecovery once there is a snapshot, else Blocked or Failed by its error.
  lemma FailureIsRecorded(w: World, s: Step, e: ExecutionError, readable: bool)
    requires Inv(w) && FailsWith(w, s, e)
    ensures var id := s.op;
            var d, r, w' := w.ops[id].disk, w.ops[id].worker.rec, Do(Do(w, s), WorkerFail(id, readable, Done));
            && id in w'.ops && w'.ops[id].worker.NoWorker? && w'.holder != WorkerHolds(id)
            && (if readable && d.error == Some(Cancelled) then w'.ops[id].disk == d
                else w'.ops[id].disk.state ==
                       (if r.snapshotNumber.Some? then NeedsRecovery
                        else if e in {PlanChanged, Refresh, Replan, Download, Busy, RepositoryKey} then Blocked
                        else OperationState.Failed))
  {
    hide Inv, Do, FailsWith, IsSha256;
    StepKeeps(w, s);
    FailsById(w, s, e);
    FailureStops(w, s, e);
    FailuresAreSaved(Do(w, s), s.op, readable);
    FailKeepsLock(Do(w, s), s.op, readable);
  }

  lemma FailsById(w: World, s: Step, e: ExecutionError)
    requires FailsWith(w, s, e)
    ensures IsWorkerStep(s) && Works(w, s.op)
  {}

  lemma FailKeepsLock(w: World, id: OperationId, readable: bool)
    ensures Do(w, WorkerFail(id, readable, Done)).holder == w.holder
  {
    hide ValidState, FailureRecord;
  }

  // --------------------------------------------------------------- the offline worker

  // A step of the offline worker that fails.
  predicate OfflineFails(w: World, s: Step)
    requires w.holder.OfflineHolds?
  {
    var id, pc := w.holder.op, w.holder.offlinePc;
    match s
    case OfflineAdvance(ok) =>
      || (pc == Begun && (!ok || w.marker != Lyra(id)))
      || (!ok && (pc == Prepared || pc == Saved || pc == Applied))
    case OfflineApply(ok) => pc == Revalidated && !ok
    case OfflineSave(io) => io != Done && (pc == Authenticated || pc == Applied)
    case OfflineUnmark(ok) => pc == Finished && (!ok || w.marker != Lyra(id))
    case _ => false
  }

  // After it nothing is left to do but to mark the operation for recovery.
  lemma OfflineFailureStops(w: World, s: Step)
    requires Inv(w) && w.holder.OfflineHolds? && OfflineFails(w, s)
    ensures var id, w' := w.holder.op, Do(w, s);
            && id in w.ops && id in w'.ops && w'.marker == w.marker
            && w'.holder.OfflineHolds? && w'.holder.op == id && w'.holder.offlinePc == MarkingRecovery
            && w'.ops[id].log == w.ops[id].log
                                 + (if s.OfflineApply? then [PackagesApplied(w.ops[id].disk, w.ops[id].manifestFile, w.counter)] else [])
  {
    hide Inv, TransitionTo, ValidState, Fresh, ServiceDo, WorkerDo, RollbackDo, VerifierDo, OpOk;
    HeldByOffline(w);
    assert w.ops[w.holder.op].log + [] == w.ops[w.holder.op].log;
  }

  // From any state of a run in which the marker is this operation's: a step that fails
  // ends in NeedsRecovery, the marker gone and the lock free, and nothing more is applied.
  lemma OfflineFailureLeaves(w: World, s: Step)
    requires Inv(w) && w.holder.OfflineHolds? && OfflineFails(w, s) && w.marker == Lyra(w.holder.op)
    ensures var id, w' := w.holder.op, Do(Do(Do(w, s), OfflineSave(Done)), OfflineUnmark(true));
            && id in w.ops && id in w'.ops && w'.marker == Absent && w'.holder.Free?
            && w'.ops[id].disk.state == NeedsRecovery && w'.ops[id].disk.error == Some(OfflineApplyFailed)
            && w'.ops[id].log == w.ops[id].log
                                 + (if s.OfflineApply? then [PackagesApplied(w.ops[id].disk, w.ops[id].manifestFile, w.counter)] else [])
  {
    hide Inv, Do, ValidState, OfflineFails;
    OfflineFailureStops(w, s);
    StepKeeps(w, s);
    var failed := Do(w, s);
    OfflineWriteOk(failed, OfflineSave(Done));
    OfflineGivesUp(failed, w.holder.op, failed.holder.rec);
  }

  // If the marker has gone elsewhere, the worker only lets go of the lock.
  lemma OfflineFailureElsewhere(w: World, s: Step, io: Io)
    requires Inv(w) && w.holder.OfflineHolds? && OfflineFails(w, s) && w.marker != Lyra(w.holder.op)
    ensures Do(Do(w, s), OfflineSave(io)) == Do(w, s).(holder := Free)
  {
    hide Inv, Do, ValidState, OfflineFails;
    OfflineFailureStops(w, s);
    LetsGo(Do(w, s), io);
  }

  lemma LetsGo(w: World, io: Io)
    requires w.holder.OfflineHolds? && w.holder.op in w.ops && w.holder.offlinePc == MarkingRecovery && w.marker != Lyra(w.holder.op)
    ensures Do(w, OfflineSave(io)) == w.(holder := Free)
  {
    hide ServiceDo, WorkerDo, RollbackDo, VerifierDo, ValidState;
  }

  // ---------------------------------------------------------- the rollback scheduler

  // The rollback fails, or what it made is not a clone of the snapshot it was to come from.
  predicate RollbackStepFails(w: World, s: Step)
    requires w.holder.RollbackHolds?
  {
    match s
    case RollbackExecute(ok) => w.holder.rollbackPc == RollbackPc.Intended && !ok
    case RollbackInspect(clone, ok) =>
      && w.holder.rollbackPc == RollbackPc.Ran && w.holder.rec.recovery.Some?
      && !(ok && clone.Valid() && clone.parentUuid == Some(w.holder.rec.recovery.value.source.uuid))
    case _ => false
  }

  function RollbackCode(s: Step): string {
    if s.RollbackExecute? then "ROLLBACK_FAILED" else "ROLLBACK_RESULT_INVALID"
  }

  // From any state of a run: it is recorded as failed, nothing is scheduled for the next
  // boot, and the lock is free.
  lemma RollbackFailureLeaves(w: World, s: Step)
    requires Inv(w) && w.holder.RollbackHolds? && RollbackStepFails(w, s)
    ensures var id, w' := w.holder.op, Do(Do(w, s), RollbackSave(Done));
            && id in w.ops && id in w'.ops && w'.holder.Free?
            && w'.ops[id].disk.state == NeedsRecovery && w'.ops[id].disk.error == Some(Execution(RollbackCode(s)))
            && w'.ops[id].disk.recovery == w.ops[id].disk.recovery
            && w'.ops[id].log == w.ops[id].log + (if s.RollbackExecute? then [RollbackRun(w.ops[id].disk)] else [])
  {
    hide Inv, Do, ValidState, OpOk, SubvolumeIdentity.Valid, Replay, RollbackStepFails;
    RollbackFailureStops(w, s);
    StepKeeps(w, s);
    var failed := Do(w, s);
    var id, r := failed.holder.op, failed.holder.rec;
    HeldByRollback(failed);
    UndoneOp(id, failed.ops[id], r, failed.holder.rollbackPc.code);
    RollbackUndoes(failed, id, r, failed.holder.rollbackPc.code);
  }

  lemma RollbackFailureStops(w: World, s: Step)
    requires Inv(w) && w.holder.RollbackHolds? && RollbackStepFails(w, s)
    ensures var id, w' := w.holder.op, Do(w, s);
            && id in w.ops && id in w'.ops && w'.holder == RollbackHolds(id, Undoing(RollbackCode(s)), w.holder.rec)
            && w'.ops[id].disk == w.ops[id].disk && w.holder.rec.recovery == w.ops[id].disk.recovery
            && w'.ops[id].log == w.ops[id].log + (if s.RollbackExecute? then [RollbackRun(w.ops[id].disk)] else [])
  {
    hide Inv, ValidState, OpOk, SubvolumeIdentity.Valid, Replay, ServiceDo, WorkerDo, OfflineDo, VerifierDo;
    HeldByRollback(w);
    var id := w.holder.op;
    assert w.ops[id].log + [] == w.ops[id].log;
  }
}
