/** The system is changed for one operation at a time, and when the records say so too:
    until a process that changes it dies, or fails to record its failure. */
module OneAtATime {
  import opened Wrappers
  import opened Decimal
  import opened Operation
  import opened Records
  import opened Protocol
  import opened Traces
  import opened ProtocolInvariant
  import opened ProtocolSteps
  import opened ProtocolWrites
  import opened ProtocolTheorems

  // The worker has given the lock back and is on its way to record its failure.
  predicate OnItsWayToFail(w: World, id: OperationId) {
    id in w.ops && w.ops[id].worker.Worker? && w.ops[id].worker.pc.Failing?
  }

  predicate Attended(w: World, id: OperationId) {
    HeldFor(w, id) || OnItsWayToFail(w, id)
  }

  predicate IsTransacting(w: World, id: OperationId) {
    id in w.ops && Transacting(w.ops[id].disk.state)
  }

  // The record says that the system is being changed, and no process is at it.
  predicate LeftBehind(w: World, id: OperationId) {
    IsTransacting(w, id) && !Attended(w, id)
  }

  // The step takes away the process at a record, or that process gives up without
  // recording why: its save is lost, it takes the operation for cancelled, or the marker
  // or the record is no longer there for the offline worker.
  predicate Abandons(w: World, s: Step, id: OperationId)
    requires id in w.ops
  {
    match s
    case Crash => true
    case KillHolder => HeldFor(w, id)
    case KillWorker(op) => op == id && w.ops[id].worker.Worker?
    case WorkerFail(op, readable, io) =>
      op == id && OnItsWayToFail(w, id) && ((readable && w.ops[id].disk.error == Some(Cancelled)) || io.Lost?)
    case OfflineSave(io) =>
      && w.holder.OfflineHolds? && w.holder.op == id && w.holder.offlinePc.MarkingRecovery?
      && (w.marker != Lyra(id) || io.Lost?)
    case OfflineUnmark(_) => w.holder.OfflineHolds? && w.holder.op == id && w.holder.offlinePc.Unmarking?
    case _ => false
  }

  // -------------------------------------------------------------------- one step

  lemma TransactingWorker(w: World, id: OperationId)
    requires Inv(w) && IsTransacting(w, id)
    ensures w.holder.OfflineHolds? || w.holder.VerifierHolds? ==> w.ops[id].worker.NoWorker?
    ensures w.ops[id].worker.Worker? ==> w.holder == WorkerHolds(id) || OnItsWayToFail(w, id)
    ensures w.holder == WorkerHolds(id) ==> w.ops[id].worker.Worker? && !w.ops[id].worker.pc.Failing?
    ensures OpOk(id, w.ops[id])
  {
    hide Replay, ValidState, VerifierOk, OfflineOk, RollbackOk, MarkerOk;
    assert OpOk(id, w.ops[id]);
  }

  lemma OtherWorkers(w: World, s: Step, id: OperationId)
    requires id in w.ops && IsWorkerStep(s) && s.op != id
    ensures var w' := WorkerDo(w, s);
            && id in w'.ops && w'.ops[id] == w.ops[id]
            && (HeldFor(w, id) ==> w'.holder == w.holder) && (w'.holder != w.holder ==> !HeldFor(w', id))
  {
    hide ValidState, TransitionTo, WorkerTarget;
  }

  lemma IdleWorker(w: World, s: Step, id: OperationId)
    requires id in w.ops && IsWorkerStep(s) && s.op == id && w.ops[id].worker.NoWorker?
    ensures WorkerDo(w, s) == w
  {
    hide ValidState, TransitionTo, WorkerTarget;
  }

  // A worker that is at its record keeps the lock, goes on to fail, or ends in a state
  // in which nothing is being changed.
  lemma OwnWorker(w: World, s: Step, id: OperationId)
    requires id in w.ops && IsWorkerStep(s) && s.op == id && !s.WorkerFail? && !s.WorkerSave?
    requires w.holder == WorkerHolds(id) || OnItsWayToFail(w, id)
    ensures Attended(WorkerDo(w, s), id)
  {
    hide ValidState, TransitionTo, WorkerTarget, WriteAndGo;
  }

  lemma OwnSave(w: World, s: Step, id: OperationId)
    requires id in w.ops && s.WorkerSave? && s.op == id
    requires w.holder == WorkerHolds(id) || OnItsWayToFail(w, id)
    ensures Attended(WorkerDo(w, s), id) || !IsTransacting(WorkerDo(w, s), id)
  {
    hide ValidState, ValidTransition;
  }

  lemma OwnFailure(w: World, s: Step, id: OperationId)
    requires Inv(w) && IsTransacting(w, id) && Attended(w, id) && s.WorkerFail? && s.op == id
    ensures LeftBehind(WorkerDo(w, s), id) <==> Abandons(w, s, id)
  {
    hide Inv, ValidState, WorkerDo;
    TransactingWorker(w, id);
    if OnItsWayToFail(w, id) {
      FailureIsSaved(w, s, id);
    } else {
      NotFailing(w, s, id);
    }
  }

  lemma FailureIsSaved(w: World, s: Step, id: OperationId)
    requires IsTransacting(w, id) && OpOk(id, w.ops[id]) && OnItsWayToFail(w, id) && s.WorkerFail? && s.op == id
    requires w.holder != WorkerHolds(id) && !w.holder.OfflineHolds?
    ensures LeftBehind(WorkerDo(w, s), id) <==> Abandons(w, s, id)
  {
    hide Replay, IsSha256, IsUuid;
  }

  lemma NotFailing(w: World, s: Step, id: OperationId)
    requires id in w.ops && !OnItsWayToFail(w, id) && s.WorkerFail? && s.op == id
    ensures WorkerDo(w, s) == w
  {}

  predicate IsOfflineStep(s: Step) {
    s.OfflineBegin? || s.OfflineAdvance? || s.OfflineSave? || s.OfflineApply? || s.OfflineUnmark?
  }

  predicate IsMachineStep(s: Step) {
    s.Crash? || s.KillHolder? || s.KillWorker? || s.ForeignMarker?
  }

  lemma NotQuiet(w: World, id: OperationId)
    requires Inv(w) && IsTransacting(w, id) && OnItsWayToFail(w, id)
    ensures !BootQuiet(w) && !w.holder.OfflineHolds?
  {
    hide Replay, ValidState, VerifierOk, OfflineOk, RollbackOk, MarkerOk;
    assert OpOk(id, w.ops[id]);
  }

  lemma OfflineMarkIsSaved(w: World, s: Step)
    requires Inv(w) && s.OfflineSave? && w.holder.OfflineHolds? && w.holder.offlinePc.MarkingRecovery? && w.marker == Lyra(w.holder.op)
    ensures w.holder.op in w.ops && ValidState(RecoveryMark(w.ops[w.holder.op].disk))
  {
    hide ValidState;
    HeldByOffline(w);
    OfflineWriteOk(w, s);
  }

  lemma OfflineAtWork(w: World, id: OperationId)
    requires Inv(w) && IsTransacting(w, id) && w.holder.OfflineHolds? && w.holder.op == id
    ensures !w.holder.offlinePc.Authenticated? && !w.holder.offlinePc.Finished?
    ensures w.ops[id].worker.NoWorker?
  {
    hide Replay, ValidState;
    TransactingWorker(w, id);
  }

  lemma OfflineGoes(w: World, s: Step, id: OperationId)
    requires IsTransacting(w, id) && w.holder.OfflineHolds? && w.holder.op == id && IsOfflineStep(s)
    requires !w.holder.offlinePc.Authenticated? && !w.holder.offlinePc.Finished? && w.ops[id].worker.NoWorker?
    requires s.OfflineSave? && w.holder.offlinePc.MarkingRecovery? && w.marker == Lyra(id) ==> ValidState(RecoveryMark(w.ops[id].disk))
    ensures LeftBehind(OfflineDo(w, s), id) <==> Abandons(w, s, id)
  {
    hide ValidState, TransitionTo, Fresh, Quiet;
  }

  lemma OfflineLeaves(w: World, s: Step, id: OperationId)
    requires Inv(w) && IsTransacting(w, id) && Attended(w, id) && IsOfflineStep(s)
    ensures LeftBehind(OfflineDo(w, s), id) <==> Abandons(w, s, id)
  {
    hide Inv, ValidState, BootQuiet;
    if OnItsWayToFail(w, id) {
      NotQuiet(w, id);
      assert OfflineDo(w, s) == w;
    } else if w.holder.OfflineHolds? {
      hide OfflineDo;
      OfflineAtWork(w, id);
      if s.OfflineSave? && w.holder.offlinePc.MarkingRecovery? && w.marker == Lyra(id) {
        OfflineMarkIsSaved(w, s);
      }
      OfflineGoes(w, s, id);
    } else {
      assert OfflineDo(w, s) == w by {
        hide *;
        HeldByWorkerOnly(w, s, id);
      }
    }
  }

  lemma HeldByWorkerOnly(w: World, s: Step, id: OperationId)
    requires w.holder == WorkerHolds(id) && IsOfflineStep(s)
    ensures OfflineDo(w, s) == w
  {}

  lemma CrashLeaves(w: World, id: OperationId)
    requires IsTransacting(w, id)
    ensures LeftBehind(CrashDo(w), id)
  {
    hide Transacting;
  }

  // Killing the worker of an operation leaves that operation and no other.
  lemma KillLeaves(w: World, op: OperationId, id: OperationId)
    requires IsTransacting(w, id) && Attended(w, id) && (w.holder.OfflineHolds? ==> w.ops[id].worker.NoWorker?)
    requires w.holder == WorkerHolds(id) ==> w.ops[id].worker.Worker?
    ensures LeftBehind(KillWorkerDo(w, op), id) <==> op == id && w.ops[id].worker.Worker?
  {
    hide Transacting;
  }

  lemma MachineLeaves(w: World, s: Step, id: OperationId)
    requires Inv(w) && IsTransacting(w, id) && Attended(w, id) && IsMachineStep(s)
    ensures LeftBehind(Do(w, s), id) <==> Abandons(w, s, id)
  {
    hide Inv, ValidState, OpOk, Transacting, CrashDo, KillWorkerDo, ServiceDo, WorkerDo, OfflineDo, RollbackDo, VerifierDo;
    TransactingWorker(w, id);
    if s.Crash? {
      CrashLeaves(w, id);
    } else if s.KillWorker? {
      KillLeaves(w, s.op, id);
    } else if s.KillHolder? && w.holder.WorkerHolds? {
      KillLeaves(w, w.holder.op, id);
    }
  }

  // The remaining processes touch neither the lock while it is held for the operation nor
  // its worker.
  lemma OthersLeave(w: World, s: Step, id: OperationId)
    requires IsTransacting(w, id) && Attended(w, id)
    requires !IsWorkerStep(s) && !IsOfflineStep(s) && !IsMachineStep(s)
    ensures Attended(Do(w, s), id)
  {
    hide ValidState, TransitionTo, Quiet, InterruptedIn, Lists, Selects, Finalized, IntentRecord, ScheduledRecord, RollbackFailedRecord, OfflineDo, WorkerDo;
  }

  // When a process leaves the record it is at, exactly.
  lemma LeavesExactly(w: World, s: Step, id: OperationId)
    requires Inv(w) && IsTransacting(w, id) && Attended(w, id)
    ensures LeftBehind(Do(w, s), id) <==> Abandons(w, s, id)
  {
    hide Inv, WorkerDo, OfflineDo;
    if IsWorkerStep(s) {
      DoesWork(w, s);
      WorkerLeaves(w, s, id);
    } else if IsOfflineStep(s) {
      OfflineLeaves(w, s, id);
    } else if IsMachineStep(s) {
      hide Do;
      MachineLeaves(w, s, id);
    } else {
      hide Do;
      OthersLeave(w, s, id);
    }
  }

  lemma WorkerLeaves(w: World, s: Step, id: OperationId)
    requires Inv(w) && IsTransacting(w, id) && Attended(w, id) && IsWorkerStep(s)
    ensures LeftBehind(WorkerDo(w, s), id) <==> Abandons(w, s, id)
  {
    hide Inv, WorkerDo, OpOk, Transacting;
    TransactingWorker(w, id);
    if s.op != id {
      OtherWorkers(w, s, id);
    } else if w.ops[id].worker.NoWorker? {
      IdleWorker(w, s, id);
    } else if s.WorkerFail? {
      OwnFailure(w, s, id);
    } else if s.WorkerSave? {
      OwnSave(w, s, id);
    } else {
      OwnWorker(w, s, id);
    }
  }

  lemma OfflineTakesUp(w: World, s: Step, id: OperationId)
    requires s.OfflineSave? && w.holder.OfflineHolds? && w.holder.op == id && id in w.ops
    ensures Attended(OfflineDo(w, s), id) || !IsTransacting(OfflineDo(w, s), id) || OfflineDo(w, s).ops[id].disk == w.ops[id].disk
  {
    hide ValidState, TransitionTo;
  }

  // Whoever writes that the system is being changed is still there afterwards.
  lemma TakesUp(w: World, s: Step, id: OperationId)
    requires Inv(w) && IsTransacting(Do(w, s), id) && !IsTransacting(w, id)
    ensures Attended(Do(w, s), id)
  {
    hide Inv, Do, ValidState, PendingWrite, WorkerDo, OfflineDo, Attended;
    StepFrame(w, s);
    OnlySavesChangeRecords(w, s, id);
    TransactingWrite(w, s);
    FailureSettles(w, s);
    if s.WorkerSave? {
      WorkerTakesUp(w, s, id);
    } else {
      OfflineIsIt(w, s);
      OfflineTakesUp(w, s, id);
    }
  }

  lemma OfflineIsIt(w: World, s: Step)
    requires Inv(w) && PendingWrite(w, s).Some? && Transacting(PendingWrite(w, s).value.state)
    requires !s.WorkerSave? && !s.WorkerFail?
    ensures s.OfflineSave? && w.holder.OfflineHolds? && w.holder.op == PendingWrite(w, s).value.contract.operationId
    ensures Do(w, s) == OfflineDo(w, s)
  {
    hide Inv, ValidState, OfflineDo, ServiceWrite, RollbackWrite, VerifierWrite, OfflineWrite;
    TransactingWrite(w, s);
    if s.RollbackSave? || s.VerifierSave? || s.Cancel? || s.KeepCurrent? {
      NotOthers(w, s);
    } else {
      OfflineOnly(w, s);
    }
  }

  lemma OfflineOnly(w: World, s: Step)
    requires OfflineWrite(w, s).Some?
    ensures w.holder.OfflineHolds?
  {}

  lemma NotOthers(w: World, s: Step)
    requires Inv(w) && PendingWrite(w, s).Some? && (s.RollbackSave? || s.VerifierSave? || s.Cancel? || s.KeepCurrent?)
    ensures !Transacting(PendingWrite(w, s).value.state)
  {
    hide Replay, ValidState, IsUuid, OfflineOk, MarkerOk, LockOk, ValidTransition;
    if s.VerifierSave? {
      VerifierTimeWrites(w, s);
    }
  }

  lemma FailureSettles(w: World, s: Step)
    requires PendingWrite(w, s).Some?
    ensures s.WorkerFail? ==> !Transacting(PendingWrite(w, s).value.state)
  {}

  lemma WorkerTakesUp(w: World, s: Step, id: OperationId)
    requires Inv(w) && s.WorkerSave? && HeldFor(w, id) && id in w.ops
    requires PendingWrite(w, s).Some? && PendingWrite(w, s).value.contract.operationId == id
    requires Transacting(PendingWrite(w, s).value.state) && IsTransacting(Do(w, s), id)
    ensures Attended(Do(w, s), id)
  {
    hide OpOk, HolderOk, LockOk, MarkerOk, WorkerDo, ValidState, WriteAndGo, Do, TransitionTo;
    DoesWork(w, s);
    WorkersRecord(s.op, w.ops[s.op]);
    WorkerHoldsIt(w, s);
    OwnSave(w, s, id);
  }

  // A worker that has something to save holds the lock.
  lemma WorkerHoldsIt(w: World, s: Step)
    requires Inv(w) && s.WorkerSave? && PendingWrite(w, s).Some?
    ensures s.op in w.ops && w.holder == WorkerHolds(s.op)
  {
    hide OpOk, ValidState, HolderOk, MarkerOk, TransitionTo;
  }

  // What is left behind was so before, or is being abandoned.
  lemma ComesFrom(w: World, s: Step, id: OperationId)
    requires Inv(w) && LeftBehind(Do(w, s), id)
    ensures IsTransacting(w, id) && (LeftBehind(w, id) || Abandons(w, s, id))
  {
    hide Inv, Do, Attended, Abandons;
    if !IsTransacting(w, id) {
      TakesUp(w, s, id);
    } else if Attended(w, id) {
      LeavesExactly(w, s, id);
    }
  }

  // ------------------------------------------------------------------- whole runs

  // At step k of the run, the process at the record of `id` leaves it as it is.
  predicate LeavesAt(steps: seq<Step>, k: nat, id: OperationId) {
    && k < |steps|
    && IsTransacting(Run(steps[..k]), id) && Attended(Run(steps[..k]), id)
    && Abandons(Run(steps[..k]), steps[k], id)
  }

  predicate LeftSince(steps: seq<Step>, k: nat, id: OperationId) {
    forall j :: k < j <= |steps| ==> LeftBehind(Run(steps[..j]), id)
  }

  lemma RunNext(steps: seq<Step>, k: nat)
    requires k < |steps|
    ensures Run(steps[..k + 1]) == Do(Run(steps[..k]), steps[k])
  {
    assert steps[..k + 1][..k] == steps[..k];
  }

  lemma {:induction false} LeftBehindWasLeft(steps: seq<Step>, id: OperationId) returns (k: nat)
    requires LeftBehind(Run(steps), id)
    ensures LeavesAt(steps, k, id) && LeftSince(steps, k, id)
  {
    hide Inv, Do, LeftBehind, Abandons;
    if steps == [] {
      NothingAtFirst(id);
    } else {
      var n := |steps| - 1;
      var before := steps[..n];
      assert steps[..n + 1] == steps;
      RunNext(steps, n);
      RunKeeps(before);
      ComesFrom(Run(before), steps[n], id);
      if LeftBehind(Run(before), id) {
        k := LeftBehindWasLeft(before, id);
        assert steps[..k] == before[..k];
        forall j | k < j <= |steps|
          ensures LeftBehind(Run(steps[..j]), id)
        {
          assert j <= n ==> steps[..j] == before[..j];
        }
      } else {
        k := n;
        StillAttended(Run(before), id);
      }
    }
  }

  lemma NothingAtFirst(id: OperationId)
    ensures !LeftBehind(Run([]), id)
  {}

  lemma StillAttended(w: World, id: OperationId)
    requires IsTransacting(w, id) && !LeftBehind(w, id)
    ensures Attended(w, id)
  {}

  // A record says that the system is being changed with no process at it, exactly when
  // some process left it so and nothing has settled it since.
  lemma RecordsAreLeftExactly(steps: seq<Step>, id: OperationId)
    ensures LeftBehind(Run(steps), id) <==> exists k :: LeavesAt(steps, k, id) && LeftSince(steps, k, id)
  {
    hide LeftBehind, LeavesAt;
    if LeftBehind(Run(steps), id) {
      var k := LeftBehindWasLeft(steps, id);
    }
    if k: nat :| LeavesAt(steps, k, id) && LeftSince(steps, k, id) {
      LeavesWithin(steps, k, id);
      assert steps[..|steps|] == steps;
    }
  }

  lemma LeavesWithin(steps: seq<Step>, k: nat, id: OperationId)
    requires LeavesAt(steps, k, id)
    ensures k < |steps|
  {}

  // All along a run no record is left behind, exactly if no step leaves one.
  lemma NothingIsLeftExactly(steps: seq<Step>)
    ensures (forall j: nat, id :: j <= |steps| ==> !LeftBehind(Run(steps[..j]), id))
            <==> (forall k: nat, id :: !LeavesAt(steps, k, id))
  {
    hide LeftBehind, Abandons, Inv, Do;
    if k: nat, id :| LeavesAt(steps, k, id) {
      RunKeeps(steps[..k]);
      LeavesExactly(Run(steps[..k]), steps[k], id);
      RunNext(steps, k);
    }
    if j: nat, id :| j <= |steps| && LeftBehind(Run(steps[..j]), id) {
      var k := LeftBehindWasLeft(steps[..j], id);
      assert steps[..j][..k] == steps[..k];
      assert LeavesAt(steps, k, id);
    }
  }

  // As long as no step leaves one, at most one record says that the system is being
  // changed, but for those whose workers are on their way to record a failure.
  lemma RecordsKeepToOneAtATime(steps: seq<Step>, a: OperationId, b: OperationId)
    requires forall k: nat, id :: !LeavesAt(steps, k, id)
    requires IsTransacting(Run(steps), a) && IsTransacting(Run(steps), b)
    ensures a == b || OnItsWayToFail(Run(steps), a) || OnItsWayToFail(Run(steps), b)
  {
    hide LeavesAt, Run;
    RecordsAreLeftExactly(steps, a);
    RecordsAreLeftExactly(steps, b);
  }

  // The next operation that gets to Snapshotting makes two of them exactly if a record
  // has been left so, or is about to be settled by a failing worker.
  lemma NextMakesTwoExactly(steps: seq<Step>, contract: Contract, offered: u64)
    requires contract.Valid() && Run(steps).holder.Free? && contract.operationId !in Run(steps).ops
    ensures var w' := Run(steps + Snapshots(contract, offered));
            && IsTransacting(w', contract.operationId)
            && ((exists a :: a != contract.operationId && IsTransacting(w', a)) <==>
                  exists a :: IsTransacting(Run(steps), a) && (LeftBehind(Run(steps), a) || OnItsWayToFail(Run(steps), a)))
  {
    hide Snapshots, Do, ValidState;
    var w, id := Run(steps), contract.operationId;
    RunContinues(steps, Snapshots(contract, offered));
    SnapshotsRun(w, contract, offered);
    var w' := Continue(w, Snapshots(contract, offered));
    if a :| IsTransacting(w, a) && (LeftBehind(w, a) || OnItsWayToFail(w, a)) {
      assert a != id && IsTransacting(w', a);
    }
    if a :| a != id && IsTransacting(w', a) {
      SnapshotsCreates(contract, offered);
      OnlyItsOwn(w, Snapshots(contract, offered), id);
      assert IsTransacting(w, a);
    }
  }

  lemma SnapshotsCreates(contract: Contract, offered: u64)
    ensures forall s :: s in Snapshots(contract, offered) && s.Create? ==> s.op == contract.operationId
  {}

  lemma {:induction false} OnlyItsOwn(w: World, more: seq<Step>, id: OperationId)
    requires forall s :: s in more && s.Create? ==> s.op == id
    ensures forall other :: other in Continue(w, more).ops ==> other == id || other in w.ops
  {
    hide Do;
    if more != [] {
      var before, last := more[..|more| - 1], more[|more| - 1];
      OnlyItsOwn(w, before, id);
      forall other | other in Continue(w, more).ops
        ensures other == id || other in w.ops
      {
        StepFrame(Continue(w, before), last);
      }
    }
  }
}
