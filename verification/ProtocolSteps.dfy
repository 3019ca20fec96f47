/** The boot programs, the rollback scheduler and crashes keep the protocol's invariant;
    with the worker's steps, every step does. */
module ProtocolSteps {
  import opened Wrappers
  import opened Decimal
  import opened Operation
  import opened Records
  import opened Protocol
  import opened Traces
  import opened ProtocolInvariant

  // ------------------------------------------------------------- the offline worker

  // The offline worker changes its own operation and stays, or leaves the lock.
  lemma OfflineMoves(w: World, w': World, o: Op)
    requires Inv(w) && w.holder.OfflineHolds? && OpOk(w.holder.op, o) && o.worker == w.ops[w.holder.op].worker
    requires w.ops[w.holder.op].disk.snapshotNumber.Some? ==> o.disk.snapshotNumber.Some?
    requires w'.ops == w.ops[w.holder.op := o] && w'.counter == w.counter
    requires w'.marker == w.marker || w'.marker == Absent
    requires w'.holder.Free?
             || (&& w'.holder.OfflineHolds? && w'.holder.op == w.holder.op && Legal(o.log)
                 && OfflineOk(o, w'.holder.offlinePc, w'.holder.rec, w'.counter))
    ensures Inv(w')
  {
    hide OpOk, OfflineOk, Replay, ValidState;
  }

  lemma OfflineBeginKeeps(w: World, id: OperationId)
    requires Inv(w)
    ensures Inv(OfflineDo(w, OfflineBegin(id)))
  {
    hide OpOk, ValidState, Replay;
    if id in w.ops && BootQuiet(w) {
      LegalOp(id, w.ops[id]);
    }
  }

  lemma OfflineAdvanceKeeps(w: World, ok: bool)
    requires Inv(w)
    ensures Inv(OfflineDo(w, OfflineAdvance(ok)))
  {
    hide OpOk, ValidState, Replay, TransitionTo, RollbackOk, VerifierOk, Fresh;
    if w.holder.OfflineHolds? {
      var o := w.ops[w.holder.op];
      LegalOp(w.holder.op, o);
      OfflineMoves(w, OfflineDo(w, OfflineAdvance(ok)), o);
    }
  }

  lemma OfflineAppliedOp(id: OperationId, o: Op, r: Record, counter: Option<u64>)
    requires OpOk(id, o) && Legal(o.log) && OfflineOk(o, Revalidated, r, counter) && o.worker.NoWorker?
    ensures var applied := o.(log := o.log + [PackagesApplied(o.disk, o.manifestFile, counter)]);
            OpOk(id, applied) && Legal(applied.log) && OfflineOk(applied, Applied, r, counter)
  {
    hide Replay, Fresh;
    ReplayAppend(o.log, PackagesApplied(o.disk, o.manifestFile, counter));
  }

  lemma HeldByOffline(w: World)
    requires Inv(w) && w.holder.OfflineHolds?
    ensures w.holder.op in w.ops && OpOk(w.holder.op, w.ops[w.holder.op])
    ensures Legal(w.ops[w.holder.op].log)
    ensures OfflineOk(w.ops[w.holder.op], w.holder.offlinePc, w.holder.rec, w.counter)
    ensures Quiet(w.ops[w.holder.op])
  {
    hide OpOk, OfflineOk;
    LegalOp(w.holder.op, w.ops[w.holder.op]);
  }

  lemma OfflineApplyKeeps(w: World, ok: bool)
    requires Inv(w)
    ensures Inv(OfflineDo(w, OfflineApply(ok)))
  {
    hide OpOk, ValidState, Replay, OfflineOk, HolderOk, Fresh;
    if w.holder.OfflineHolds? && w.holder.offlinePc.Revalidated? {
      var id := w.holder.op;
      HeldByOffline(w);
      IdleOffline(id, w.ops[id], w.holder.offlinePc, w.holder.rec, w.counter);
      OfflineAppliedOp(id, w.ops[id], w.holder.rec, w.counter);
      var w' := OfflineDo(w, OfflineApply(ok));
      MarkingOk(w'.ops[id], w.holder.rec, w.counter);
      OfflineMoves(w, w', w'.ops[id]);
    }
  }

  lemma IdleOffline(id: OperationId, o: Op, pc: OfflinePc, r: Record, counter: Option<u64>)
    requires OpOk(id, o) && Legal(o.log) && OfflineOk(o, pc, r, counter) && Quiet(o)
    requires !pc.Begun? && !pc.MarkingRecovery? && !pc.Unmarking?
    ensures o.worker.NoWorker?
  {
    hide Replay, ValidState, Fresh;
    if o.worker.Worker? {
      QuietWorker(id, o);
    }
  }

  lemma MarkingOk(o: Op, r: Record, counter: Option<u64>)
    requires Legal(o.log)
    ensures OfflineOk(o, MarkingRecovery, r, counter) && OfflineOk(o, Unmarking, r, counter)
  {}

  // The records the offline worker saves.
  lemma OfflineSavedOp(id: OperationId, o: Op, r: Record, counter: Option<u64>)
    requires OpOk(id, o) && Legal(o.log) && OfflineOk(o, Authenticated, r, counter) && o.worker.NoWorker?
    ensures ValidState(r) && OpOk(id, o.(disk := r)) && r.snapshotNumber.Some?
    ensures OfflineOk(o.(disk := r), Saved, r, counter)
  {
    hide Replay, Fresh;
  }

  lemma OfflineFinishedOp(id: OperationId, o: Op, r: Record, counter: Option<u64>)
    requires OpOk(id, o) && Legal(o.log) && OfflineOk(o, Applied, r, counter) && o.worker.NoWorker?
    ensures TransitionTo(r, AwaitingReboot).Ok?
    ensures var result := TransitionTo(r, AwaitingReboot).value.(lastStep := Some(OfflineApplied));
            && ValidState(result) && OpOk(id, o.(disk := result)) && result.snapshotNumber.Some?
            && OfflineOk(o.(disk := result), Finished, result, counter)
  {
    hide Replay, Fresh;
  }

  lemma RecoveryMarkedOp(id: OperationId, o: Op)
    requires OpOk(id, o) && o.disk.snapshotNumber.Some? && Quiet(o)
    ensures ValidState(RecoveryMark(o.disk)) && OpOk(id, o.(disk := RecoveryMark(o.disk)))
  {
    hide Replay;
    if o.worker.Worker? {
      QuietWorker(id, o);
    }
  }

  lemma OfflineSaveKeeps(w: World, io: Io)
    requires Inv(w)
    ensures Inv(OfflineDo(w, OfflineSave(io)))
  {
    hide OpOk, ValidState, Replay, OfflineOk, HolderOk, Fresh, TransitionTo, LockOk, AllQuiet;
    if w.holder.OfflineHolds? {
      var id, pc, r := w.holder.op, w.holder.offlinePc, w.holder.rec;
      HeldByOffline(w);
      var o, w' := w.ops[id], OfflineDo(w, OfflineSave(io));
      MarkingOk(o, r, w.counter);
      if pc.Authenticated? {
        IdleOffline(id, o, pc, r, w.counter);
        OfflineSavedOp(id, o, r, w.counter);
        MarkingOk(w'.ops[id], r, w.counter);
        OfflineMoves(w, w', w'.ops[id]);
      } else if pc.Applied? {
        IdleOffline(id, o, pc, r, w.counter);
        OfflineFinishedOp(id, o, r, w.counter);
        MarkingOk(w'.ops[id], w'.holder.rec, w.counter);
        OfflineMoves(w, w', w'.ops[id]);
      } else if pc.MarkingRecovery? && w.marker == Lyra(id) {
        RecoveryMarkedOp(id, o);
        MarkingOk(w'.ops[id], r, w.counter);
        OfflineMoves(w, w', w'.ops[id]);
      } else if pc.MarkingRecovery? {
        OfflineMoves(w, w', o);
      }
    }
  }

  lemma OfflineUnmarkKeeps(w: World, ok: bool)
    requires Inv(w)
    ensures Inv(OfflineDo(w, OfflineUnmark(ok)))
  {
    hide OpOk, ValidState, Replay, OfflineOk, HolderOk, Fresh, TransitionTo, LockOk, AllQuiet;
    if w.holder.OfflineHolds? {
      var id := w.holder.op;
      HeldByOffline(w);
      MarkingOk(w.ops[id], w.holder.rec, w.counter);
      OfflineMoves(w, OfflineDo(w, OfflineUnmark(ok)), w.ops[id]);
    }
  }

  // --------------------------------------------------------- the rollback scheduler

  lemma RollbackMoves(w: World, w': World, o: Op)
    requires Inv(w) && w.holder.RollbackHolds? && OpOk(w.holder.op, o) && o.worker == w.ops[w.holder.op].worker
    requires w.ops[w.holder.op].disk.snapshotNumber.Some? ==> o.disk.snapshotNumber.Some?
    requires w'.ops == w.ops[w.holder.op := o] && w'.marker == w.marker
    requires w'.holder.Free?
             || (&& w'.holder.RollbackHolds? && w'.holder.op == w.holder.op && Legal(o.log)
                 && RollbackOk(o, w'.holder.rollbackPc, w'.holder.rec))
    ensures Inv(w')
  {
    hide OpOk, RollbackOk, Replay, ValidState;
  }

  lemma HeldByRollback(w: World)
    requires Inv(w) && w.holder.RollbackHolds?
    ensures w.holder.op in w.ops && OpOk(w.holder.op, w.ops[w.holder.op])
    ensures Legal(w.ops[w.holder.op].log)
    ensures RollbackOk(w.ops[w.holder.op], w.holder.rollbackPc, w.holder.rec)
  {
    hide OpOk, RollbackOk;
    LegalOp(w.holder.op, w.ops[w.holder.op]);
  }

  lemma RollbackBeginKeeps(w: World, id: OperationId)
    requires Inv(w)
    ensures Inv(RollbackDo(w, RollbackBegin(id)))
  {
    hide OpOk, ValidState, Replay;
    if id in w.ops {
      LegalOp(id, w.ops[id]);
    }
  }

  // No worker is left for an operation that needs recovery.
  lemma NoWorkerInRecovery(id: OperationId, o: Op)
    requires OpOk(id, o) && o.disk.state.NeedsRecovery?
    ensures o.worker.NoWorker?
  {
    hide Replay, ValidState;
  }

  lemma LoadedOk(id: OperationId, o: Op, source: SubvolumeIdentity)
    requires OpOk(id, o) && Legal(o.log) && o.disk.state.NeedsRecovery? && o.disk.snapshotNumber.Some?
    requires source.Valid() && !Incomplete(o.disk)
    ensures RollbackOk(o, Loaded(RollbackGoal(o.disk.snapshotNumber.value, source, None)), o.disk)
  {
    hide Replay, ValidState;
    NoWorkerInRecovery(id, o);
  }

  lemma RollbackLoadKeeps(w: World, source: SubvolumeIdentity, ok: bool)
    requires Inv(w)
    ensures Inv(RollbackDo(w, RollbackLoad(source, ok)))
  {
    hide OpOk, ValidState, Replay, RollbackOk, HolderOk, LockOk, IsUuid;
    if w.holder.RollbackHolds? {
      HeldByRollback(w);
      var o, w' := w.ops[w.holder.op], RollbackDo(w, RollbackLoad(source, ok));
      if w.holder.rollbackPc.Asked? {
        if w'.holder.RollbackHolds? {
          LoadedOk(w.holder.op, o, source);
        }
        RollbackMoves(w, w', o);
      }
    }
  }

  // Saving the intent: from now on the goal is incomplete.
  lemma IntentOp(id: OperationId, o: Op, goal: RollbackGoal, r: Record)
    requires OpOk(id, o) && Legal(o.log) && RollbackOk(o, Loaded(goal), r)
    ensures ValidState(IntentRecord(r, goal))
    ensures var o' := o.(disk := IntentRecord(r, goal), log := o.log + [IntentSaved]);
            OpOk(id, o') && Legal(o'.log) && RollbackOk(o', RollbackPc.Intended, IntentRecord(r, goal))
  {
    hide Replay, IsUuid;
    ReplayAppend(o.log, IntentSaved);
  }

  // The gate accepts a confirmed goal exactly when the clone is distinct from its source.
  lemma ScheduledOp(id: OperationId, o: Op, goal: RollbackGoal, r: Record)
    requires OpOk(id, o) && Legal(o.log) && RollbackOk(o, Confirmable(goal), r)
    ensures ValidState(ScheduledRecord(r, goal)) <==> Confirms(goal)
    ensures Confirms(goal) ==>
              var o' := o.(disk := ScheduledRecord(r, goal), log := o.log + [CloneConfirmed(goal)]);
              OpOk(id, o') && Legal(o'.log) && RollbackOk(o', Undoing("STATE_WRITE_FAILED"), ScheduledRecord(r, goal))
    ensures RollbackOk(o, Undoing("STATE_WRITE_FAILED"), ScheduledRecord(r, goal))
  {
    hide Replay, IsUuid;
    ReplayAppend(o.log, CloneConfirmed(goal));
  }

  // Giving up after a failure keeps what is on disk, or what was just confirmed.
  lemma UndoneOp(id: OperationId, o: Op, r: Record, code: string)
    requires OpOk(id, o) && Legal(o.log) && RollbackOk(o, Undoing(code), r)
    ensures ValidState(RollbackFailedRecord(r, code)) <==> (r.recovery == o.disk.recovery || Confirms(r.recovery.value))
    ensures r.recovery == o.disk.recovery ==> OpOk(id, o.(disk := RollbackFailedRecord(r, code)))
    ensures r.recovery != o.disk.recovery && Confirms(r.recovery.value) ==>
              OpOk(id, o.(disk := RollbackFailedRecord(r, code), log := o.log + [CloneConfirmed(r.recovery.value)]))
    ensures r.recovery.Some? && (r.recovery != o.disk.recovery ==> r.recovery.value.boot.Some?)
  {
    hide Replay, IsUuid;
    if r.recovery.Some? && r.recovery.value.boot.Some? {
      ReplayAppend(o.log, CloneConfirmed(r.recovery.value));
    }
  }

  lemma SnapshotStays(o: Op, pc: RollbackPc, r: Record)
    requires Legal(o.log) && RollbackOk(o, pc, r) && !pc.Asked?
    ensures r.snapshotNumber.Some? && r.snapshotNumber == o.disk.snapshotNumber
  {
    hide Replay, ValidState, IsUuid;
  }

  lemma RollbackSaveKeeps(w: World, io: Io)
    requires Inv(w)
    ensures Inv(RollbackDo(w, RollbackSave(io)))
  {
    hide OpOk, ValidState, Replay, RollbackOk, HolderOk, LockOk, Confirms, Legal;
    if w.holder.RollbackHolds? {
      HeldByRollback(w);
      var id, pc, r := w.holder.op, w.holder.rollbackPc, w.holder.rec;
      var o, w' := w.ops[id], RollbackDo(w, RollbackSave(io));
      match pc
      case Loaded(goal) =>
        SnapshotStays(o, pc, r);
        IntentOp(id, o, goal, r);
        RollbackMoves(w, w', w'.ops[id]);
      case Confirmable(goal) =>
        SnapshotStays(o, pc, r);
        ScheduledOp(id, o, goal, r);
        RollbackMoves(w, w', w'.ops[id]);
      case Undoing(code) =>
        SnapshotStays(o, pc, r);
        UndoneOp(id, o, r, code);
        RollbackMoves(w, w', w'.ops[id]);
      case _ =>
    }
  }

  lemma RanOp(id: OperationId, o: Op, r: Record)
    requires OpOk(id, o) && Legal(o.log) && RollbackOk(o, RollbackPc.Intended, r)
    ensures var o' := o.(log := o.log + [RollbackRun(o.disk)]);
            OpOk(id, o') && Legal(o'.log) && RollbackOk(o', RollbackPc.Ran, r) && RollbackOk(o', Undoing("ROLLBACK_FAILED"), r)
  {
    hide Replay, ValidState;
    ReplayAppend(o.log, RollbackRun(o.disk));
  }

  lemma RollbackExecuteKeeps(w: World, ok: bool)
    requires Inv(w)
    ensures Inv(RollbackDo(w, RollbackExecute(ok)))
  {
    hide OpOk, ValidState, Replay, RollbackOk, HolderOk, LockOk;
    if w.holder.RollbackHolds? && w.holder.rollbackPc.Intended? {
      HeldByRollback(w);
      RanOp(w.holder.op, w.ops[w.holder.op], w.holder.rec);
      var w' := RollbackDo(w, RollbackExecute(ok));
      RollbackMoves(w, w', w'.ops[w.holder.op]);
    }
  }

  lemma InspectedOk(o: Op, clone: SubvolumeIdentity, r: Record)
    requires Legal(o.log) && RollbackOk(o, RollbackPc.Ran, r)
    ensures r.recovery.Some? && RollbackOk(o, Undoing("ROLLBACK_RESULT_INVALID"), r)
    ensures clone.Valid() && clone.parentUuid == Some(r.recovery.value.source.uuid) ==>
              RollbackOk(o, Confirmable(r.recovery.value.(boot := Some(clone))), r)
  {
    hide Replay, ValidState, IsUuid;
  }

  lemma RollbackInspectKeeps(w: World, clone: SubvolumeIdentity, ok: bool)
    requires Inv(w)
    ensures Inv(RollbackDo(w, RollbackInspect(clone, ok)))
  {
    hide OpOk, ValidState, Replay, RollbackOk, HolderOk, LockOk, IsUuid;
    if w.holder.RollbackHolds? && w.holder.rollbackPc.Ran? {
      HeldByRollback(w);
      InspectedOk(w.ops[w.holder.op], clone, w.holder.rec);
      RollbackMoves(w, RollbackDo(w, RollbackInspect(clone, ok)), w.ops[w.holder.op]);
    }
  }

  // --------------------------------------------------------------- the boot verifier

  // The verifier changes one operation without a worker, or none, and stays or leaves.
  lemma VerifierMoves(w: World, w': World, id: OperationId, o: Op)
    requires Inv(w) && w.holder.VerifierHolds? && id in w.ops && OpOk(id, o) && o.worker == w.ops[id].worker
    requires w.ops[id].disk.snapshotNumber.Some? ==> o.disk.snapshotNumber.Some?
    requires w'.ops == w.ops[id := o] && w'.marker == w.marker
    requires w'.holder.Free?
             || (&& w'.holder.VerifierHolds?
                 && VerifierOk(w'.ops, w'.holder.verifierPc, w'.holder.queue, w'.holder.candidate))
    ensures Inv(w')
  {
    hide OpOk, VerifierOk, Replay, ValidState;
  }

  // The verifier changes only what it holds in memory, or the counter.
  lemma VerifierStays(w: World, w': World)
    requires Inv(w) && w.holder.VerifierHolds? && w'.ops == w.ops && w'.marker == w.marker
    requires w'.holder.Free?
             || (&& w'.holder.VerifierHolds?
                 && VerifierOk(w'.ops, w'.holder.verifierPc, w'.holder.queue, w'.holder.candidate))
    ensures Inv(w')
  {
    hide OpOk, VerifierOk, Replay, ValidState;
  }

  lemma VerifierBeginKeeps(w: World)
    requires Inv(w)
    ensures Inv(VerifierDo(w, VerifierBegin))
  {
    hide OpOk, ValidState, Replay;
  }

  lemma QuietIdle(id: OperationId, o: Op)
    requires OpOk(id, o) && Quiet(o) && !o.disk.state.AwaitingConfirmation? && !o.disk.state.Failed?
    ensures o.worker.NoWorker?
  {
    hide OpOk;
    if o.worker.Worker? {
      QuietWorker(id, o);
    }
  }

  // What a scan puts in the queue: interrupted records, each operation once.
  lemma {:induction false} ScanQueues(w: World, entries: seq<OperationId>)
    requires Inv(w) && AllQuiet(w) && forall id :: id in entries ==> id in w.ops
    requires forall i, j :: 0 <= i < j < |entries| ==> entries[i] != entries[j]
    ensures QueueOk(w.ops, InterruptedIn(w, entries))
    ensures forall r :: r in InterruptedIn(w, entries) ==>
              r.contract.operationId in entries && r == w.ops[r.contract.operationId].disk && IsInterrupted(r, w.marker)
    ensures forall id :: id in entries && IsInterrupted(w.ops[id].disk, w.marker) ==>
              w.ops[id].disk in InterruptedIn(w, entries)
  {
    hide Replay, TraceOk, WorkerOk, HolderOk, LockOk, MarkerOk;
    if entries != [] {
      var id, rest := entries[0], entries[1..];
      ScanQueues(w, rest);
      assert id !in rest;
      var r := w.ops[id].disk;
      assert OpOk(id, w.ops[id]);
      var found := InterruptedIn(w, entries);
      if IsInterrupted(r, w.marker) {
        QuietIdle(id, w.ops[id]);
        assert EntryOk(w.ops, r);
        assert found == [r] + InterruptedIn(w, rest);
        assert found[1..] == InterruptedIn(w, rest);
      } else {
        assert found == InterruptedIn(w, rest);
      }
      forall r' | r' in found
        ensures r'.contract.operationId in entries && r' == w.ops[r'.contract.operationId].disk
                && IsInterrupted(r', w.marker)
      {
        if r' in InterruptedIn(w, rest) {
          assert r'.contract.operationId in rest;
        }
      }
      forall id' | id' in entries && IsInterrupted(w.ops[id'].disk, w.marker)
        ensures w.ops[id'].disk in found
      {
        if id' != id {
          assert id' in rest;
        }
      }
    }
  }

  lemma VerifierScanKeeps(w: World, entries: seq<OperationId>, first: Option<OperationId>)
    requires Inv(w)
    ensures Inv(VerifierDo(w, VerifierScan(entries, first)))
  {
    hide OpOk, ValidState, Replay, InterruptedIn, QueueOk;
    if w.holder.VerifierHolds? && w.holder.verifierPc.Scanning? && Lists(w, entries) && Selects(w, first) {
      ScanQueues(w, entries);
      if first.Some? {
        SelectedOk(w, first.value);
      }
      VerifierStays(w, VerifierDo(w, VerifierScan(entries, first)));
    }
  }

  lemma SelectedOk(w: World, id: OperationId)
    requires OpsOk(w.ops) && AllQuiet(w) && id in w.ops && IsCandidate(w.ops[id].disk)
    ensures CandidateOk(w.ops, w.ops[id].disk)
  {
    hide Replay, ValidState;
    QuietIdle(id, w.ops[id]);
  }

  // Reconciling an interrupted record.
  lemma ReconciledOp(ops: map<OperationId, Op>, r: Record)
    requires OpsOk(ops) && EntryOk(ops, r)
    ensures ValidState(ReconciledRecord(r)) ==>
              OpOk(r.contract.operationId, ops[r.contract.operationId].(disk := ReconciledRecord(r)))
    ensures r.snapshotNumber == ops[r.contract.operationId].disk.snapshotNumber
  {
    hide Replay;
    assert OpOk(r.contract.operationId, ops[r.contract.operationId]);
  }

  lemma RestOfQueue(ops: map<OperationId, Op>, queue: seq<Record>, o: Op)
    requires queue != [] && QueueOk(ops, queue)
    ensures QueueOk(ops[queue[0].contract.operationId := o], queue[1..])
  {
    hide ValidState, InterruptedState, CancelledRecord;
    var rest := queue[1..];
    forall r | r in rest
      ensures EntryOk(ops[queue[0].contract.operationId := o], r)
    {
      assert r in queue && EntryOk(ops, r);
    }
  }

  // A candidate is never the operation at the head of the queue.
  lemma CandidateElsewhere(ops: map<OperationId, Op>, r: Record, c: Record)
    requires EntryOk(ops, r) && CandidateOk(ops, c)
    ensures r.contract.operationId != c.contract.operationId
  {
    hide ValidState;
  }

  lemma ReconcileKeeps(w: World, io: Io)
    requires Inv(w) && w.holder.VerifierHolds? && w.holder.verifierPc.Reconciling? && w.holder.queue != []
    ensures Inv(VerifierDo(w, VerifierSave(io)))
    ensures InterruptedState(w.holder.queue[0].state).Some? && w.holder.queue[0].contract.operationId in w.ops
  {
    hide OpOk, ValidState, Replay, EntryOk, Distinct, CandidateOk;
    var r := w.holder.queue[0];
    var id := r.contract.operationId;
    assert EntryOk(w.ops, r);
    EntryFacts(w.ops, r);
    ReconciledOp(w.ops, r);
    var w' := VerifierDo(w, VerifierSave(io));
    var o := w'.ops[id];
    RestOfQueue(w.ops, w.holder.queue, o);
    if w.holder.candidate.Some? {
      CandidateElsewhere(w.ops, r, w.holder.candidate.value);
      CandidateAfter(w.ops, id, o, w.holder.candidate.value);
    }
    VerifierMoves(w, w', id, o);
  }

  lemma EntryFacts(ops: map<OperationId, Op>, r: Record)
    requires EntryOk(ops, r)
    ensures r.contract.operationId in ops && InterruptedState(r.state).Some?
  {}

  lemma CandidateAfter(ops: map<OperationId, Op>, id: OperationId, o: Op, c: Record)
    requires CandidateOk(ops, c) && c.contract.operationId != id
    ensures CandidateOk(ops[id := o], c)
  {}

  // Entering verification.
  lemma VerifyingOp(ops: map<OperationId, Op>, c: Record)
    requires OpsOk(ops) && CandidateOk(ops, c)
    ensures c.state.AwaitingReboot? ==> TransitionTo(c, VerifyingBoot).Ok?
    ensures var r := if c.state.AwaitingReboot? then TransitionTo(c, VerifyingBoot).value else c;
            && ValidState(r) && OpOk(c.contract.operationId, ops[c.contract.operationId].(disk := r))
            && r.snapshotNumber == c.snapshotNumber && r.contract == c.contract && r.state.VerifyingBoot?
  {
    hide Replay;
    assert OpOk(c.contract.operationId, ops[c.contract.operationId]);
  }

  lemma EnterVerificationKeeps(w: World, io: Io)
    requires Inv(w) && w.holder.VerifierHolds? && w.holder.verifierPc.Reconciling?
    requires w.holder.queue == [] && w.holder.candidate.Some?
    ensures Inv(VerifierDo(w, VerifierSave(io)))
  {
    hide OpOk, ValidState, Replay, QueueOk, TransitionTo;
    var c := w.holder.candidate.value;
    VerifyingOp(w.ops, c);
    var w' := VerifierDo(w, VerifierSave(io));
    VerifierMoves(w, w', c.contract.operationId, w'.ops[c.contract.operationId]);
  }

  // The verdict.
  lemma FinalizedOp(ops: map<OperationId, Op>, c: Record)
    requires OpsOk(ops) && c.contract.operationId in ops && ops[c.contract.operationId].worker.NoWorker?
    requires VerdictOk(ops[c.contract.operationId].disk, c)
    ensures ValidState(c) && OpOk(c.contract.operationId, ops[c.contract.operationId].(disk := c))
  {
    hide Replay;
    assert OpOk(c.contract.operationId, ops[c.contract.operationId]);
  }

  lemma PersistVerdictKeeps(w: World, io: Io)
    requires Inv(w) && w.holder.VerifierHolds? && w.holder.verifierPc.Persisting?
    ensures Inv(VerifierDo(w, VerifierSave(io)))
  {
    hide OpOk, ValidState, Replay;
    var c := w.holder.candidate.value;
    FinalizedOp(w.ops, c);
    var w' := VerifierDo(w, VerifierSave(io));
    VerifierMoves(w, w', c.contract.operationId, w'.ops[c.contract.operationId]);
  }

  lemma VerifierSaveKeeps(w: World, io: Io)
    requires Inv(w)
    ensures Inv(VerifierDo(w, VerifierSave(io)))
  {
    hide OpOk, ValidState, Replay, TransitionTo, QueueOk, OpsOk, LockOk, MarkerOk;
    if w.holder.VerifierHolds? {
      var pc := w.holder.verifierPc;
      if pc.Reconciling? && w.holder.queue != [] {
        ReconcileKeeps(w, io);
      } else if pc.Reconciling? && w.holder.candidate.Some? {
        EnterVerificationKeeps(w, io);
      } else if pc.Reconciling? {
        VerifierStays(w, VerifierDo(w, VerifierSave(io)));
      } else if pc.Persisting? {
        PersistVerdictKeeps(w, io);
      }
    }
  }

  lemma VerifierCheckKeeps(w: World, passed: bool, code: string)
    requires Inv(w)
    ensures Inv(VerifierDo(w, VerifierCheck(passed, code)))
  {
    hide OpOk, ValidState, Replay;
    if w.holder.VerifierHolds? && w.holder.verifierPc.Checking? {
      VerifierStays(w, VerifierDo(w, VerifierCheck(passed, code)));
    }
  }

  lemma VerdictReached(d: Record, passed: bool, written: bool, code: ErrorCode)
    requires d.state.VerifyingBoot?
    ensures VerdictOk(d, Finalized(d, passed, written))
    ensures VerdictOk(d, Finalized(d, passed, written).(error := Some(code)))
  {}

  lemma VerifierFinalizeKeeps(w: World, io: Io)
    requires Inv(w)
    ensures Inv(VerifierDo(w, VerifierFinalize(io)))
  {
    hide OpOk, ValidState, Replay, Finalized, VerdictOk;
    if w.holder.VerifierHolds? && w.holder.verifierPc.Checked? {
      var c := w.holder.candidate.value;
      var w' := VerifierDo(w, VerifierFinalize(io));
      var manifest := w.ops[c.contract.operationId].manifestFile;
      var storable := manifest.Some? && (w.counter.None? || w.counter.value <= manifest.value);
      VerdictReached(c, w.holder.verifierPc.passed, storable && io.Done?, Execution(w.holder.verifierPc.code));
      SameContract(c, w'.holder.candidate.value);
      VerifierStays(w, w');
    }
  }

  lemma SameContract(d: Record, c: Record)
    requires VerdictOk(d, c)
    ensures c.contract == d.contract
  {}

  // ----------------------------------------------------------------- the whole system

  lemma StoppedOp(id: OperationId, o: Op)
    requires OpOk(id, o)
    ensures OpOk(id, o.(worker := NoWorker))
  {
    hide Replay, ValidState, TraceOk;
  }

  lemma CrashKeeps(w: World)
    requires Inv(w)
    ensures Inv(CrashDo(w))
  {
    hide OpOk;
    forall id | id in w.ops
      ensures OpOk(id, CrashDo(w).ops[id])
    {
      StoppedOp(id, w.ops[id]);
    }
  }

  lemma KillWorkerKeeps(w: World, id: OperationId)
    requires Inv(w)
    ensures Inv(KillWorkerDo(w, id))
  {
    hide OpOk, Replay, ValidState, HolderOk;
    if id in w.ops {
      var o := w.ops[id].(worker := NoWorker);
      StoppedOp(id, w.ops[id]);
      if Running(w.ops[id]) {
        RunningKeeps(w, KillWorkerDo(w, id), id, o);
      } else if w.ops[id].worker.Worker? {
        WaitingKeeps(w, id, o);
      } else {
        assert w.ops[id := o] == w.ops;
      }
    }
  }

  lemma KillHolderKeeps(w: World)
    requires Inv(w)
    ensures Inv(Do(w, KillHolder))
  {
    hide OpOk, Replay, ValidState;
    if w.holder.WorkerHolds? {
      KillWorkerKeeps(w, w.holder.op);
    }
  }

  lemma ForeignMarkerKeeps(w: World, present: bool)
    requires Inv(w)
    ensures Inv(Do(w, ForeignMarker(present)))
  {
    hide OpOk, Replay, ValidState, OfflineOk, RollbackOk, VerifierOk;
  }

  predicate IsWorkerStep(s: Step) {
    s.WorkerLock? || s.WorkerStage? || s.WorkerPoll? || s.WorkerSave? || s.WorkerSnapshot? || s.WorkerMark?
    || s.WorkerApply? || s.WorkerError? || s.WorkerFail?
  }

  lemma WorkerStepKeeps(w: World, s: Step)
    requires Inv(w) && IsWorkerStep(s)
    ensures Inv(WorkerDo(w, s))
  {
    hide Inv, WorkerDo;
    match s
    case WorkerLock(id) => WorkerLockKeeps(w, id);
    case WorkerStage(id, written, ok) => WorkerStageKeeps(w, id, written, ok);
    case WorkerPoll(id, last) => WorkerPollKeeps(w, id, last);
    case WorkerSave(id, io, reboot) => WorkerSaveKeeps(w, id, io, reboot);
    case WorkerSnapshot(id, number) => WorkerSnapshotKeeps(w, id, number);
    case WorkerMark(id, ok) => WorkerMarkKeeps(w, id, ok);
    case WorkerApply(id, ok) => WorkerApplyKeeps(w, id, ok);
    case WorkerError(id, e) => WorkerErrorKeeps(w, id, e);
    case WorkerFail(id, readable, io) => WorkerFailKeeps(w, id, readable, io);
  }

  lemma BootStepKeeps(w: World, s: Step)
    requires Inv(w)
    requires s.OfflineBegin? || s.OfflineAdvance? || s.OfflineSave? || s.OfflineApply? || s.OfflineUnmark?
             || s.VerifierBegin? || s.VerifierScan? || s.VerifierSave? || s.VerifierCheck? || s.VerifierFinalize?
    ensures Inv(Do(w, s))
  {
    hide Inv, OfflineDo, VerifierDo;
    match s
    case OfflineBegin(id) => OfflineBeginKeeps(w, id);
    case OfflineAdvance(ok) => OfflineAdvanceKeeps(w, ok);
    case OfflineSave(io) => OfflineSaveKeeps(w, io);
    case OfflineApply(ok) => OfflineApplyKeeps(w, ok);
    case OfflineUnmark(ok) => OfflineUnmarkKeeps(w, ok);
    case VerifierBegin => VerifierBeginKeeps(w);
    case VerifierScan(entries, first) => VerifierScanKeeps(w, entries, first);
    case VerifierSave(io) => VerifierSaveKeeps(w, io);
    case VerifierCheck(passed, code) => VerifierCheckKeeps(w, passed, code);
    case VerifierFinalize(io) => VerifierFinalizeKeeps(w, io);
  }

  lemma StepKeeps(w: World, s: Step)
    requires Inv(w)
    ensures Inv(Do(w, s))
  {
    hide Inv, ServiceDo, WorkerDo, OfflineDo, RollbackDo, VerifierDo, CrashDo, KillWorkerDo;
    match s
    case Create(id, contract, offered) => CreateKeeps(w, id, contract, offered);
    case Start(id) => StartKeeps(w, id);
    case Cancel(id, io) => CancelKeeps(w, id, io);
    case KeepCurrent(id, io) => KeepCurrentKeeps(w, id, io);
    case RollbackBegin(id) => RollbackBeginKeeps(w, id);
    case RollbackLoad(source, ok) => RollbackLoadKeeps(w, source, ok);
    case RollbackSave(io) => RollbackSaveKeeps(w, io);
    case RollbackExecute(ok) => RollbackExecuteKeeps(w, ok);
    case RollbackInspect(clone, ok) => RollbackInspectKeeps(w, clone, ok);
    case Crash => CrashKeeps(w);
    case KillHolder => KillHolderKeeps(w);
    case KillWorker(id) => KillWorkerKeeps(w, id);
    case ForeignMarker(present) => ForeignMarkerKeeps(w, present);
    case _ =>
      if IsWorkerStep(s) {
        WorkerStepKeeps(w, s);
      } else {
        BootStepKeeps(w, s);
      }
  }

  // Every run, with crashes and failures anywhere, keeps the invariant.
  lemma {:induction false} RunKeeps(steps: seq<Step>)
    ensures Inv(Run(steps))
  {
    hide Do;
    if steps != [] {
      RunKeeps(steps[..|steps| - 1]);
      StepKeeps(Run(steps[..|steps| - 1]), steps[|steps| - 1]);
    }
  }
}
