/** Every write of a record in the protocol: which record a step is about to save, when
    the gate accepts it, and what a save may change. */
module ProtocolWrites {
  import opened Wrappers
  import opened Decimal
  import opened Operation
  import opened Records
  import opened Protocol
  import opened Traces
  import opened ProtocolInvariant
  import opened ProtocolSteps

  // ----------------------------------------------------- the record about to be saved

  function ServiceWrite(w: World, s: Step): Option<Record> {
    match s
    case Cancel(id, _) =>
      if id in w.ops && w.ops[id].disk.state.IsCancelable() then Some(CancelledRecord(w.ops[id].disk)) else None
    case KeepCurrent(id, _) =>
      if id in w.ops && w.ops[id].disk.state.NeedsRecovery? then Some(DeclinedRecord(w.ops[id].disk)) else None
    case _ => None
  }

  function WorkerWrite(w: World, s: Step): Option<Record> {
    match s
    case WorkerSave(id, _, reboot) =>
      if id !in w.ops || w.ops[id].worker.NoWorker? then None
      else if w.ops[id].worker.pc.Numbered? then Some(w.ops[id].worker.rec)
      else
        var target := WorkerTarget(w.ops[id].worker.rec, w.ops[id].worker.pc, reboot);
        if target.None? || TransitionTo(w.ops[id].worker.rec, target.value.0).Err? then None
        else Some(TransitionTo(w.ops[id].worker.rec, target.value.0).value)
    case WorkerFail(id, readable, _) =>
      if id !in w.ops || w.ops[id].worker.NoWorker? || !w.ops[id].worker.pc.Failing? then None
      else if readable && w.ops[id].disk.error == Some(Cancelled) then None
      else Some(FailureRecord(w.ops[id].worker.rec, w.ops[id].worker.pc.error))
    case _ => None
  }

  function OfflineWrite(w: World, s: Step): Option<Record> {
    if !s.OfflineSave? || !w.holder.OfflineHolds? || w.holder.op !in w.ops then None
    else
      match w.holder.offlinePc
      case Authenticated => Some(w.holder.rec)
      case Applied =>
        var t := TransitionTo(w.holder.rec, AwaitingReboot);
        if t.Ok? then Some(t.value.(lastStep := Some(OfflineApplied))) else None
      case MarkingRecovery =>
        if w.marker == Lyra(w.holder.op) then Some(RecoveryMark(w.ops[w.holder.op].disk)) else None
      case _ => None
  }

  function RollbackWrite(w: World, s: Step): Option<Record> {
    if !s.RollbackSave? || !w.holder.RollbackHolds? || w.holder.op !in w.ops then None
    else
      match w.holder.rollbackPc
      case Loaded(goal) => Some(IntentRecord(w.holder.rec, goal))
      case Confirmable(goal) => Some(ScheduledRecord(w.holder.rec, goal))
      case Undoing(code) => Some(RollbackFailedRecord(w.holder.rec, code))
      case _ => None
  }

  function VerifierWrite(w: World, s: Step): Option<Record> {
    if !s.VerifierSave? || !w.holder.VerifierHolds? then None
    else
      var pc, queue, candidate := w.holder.verifierPc, w.holder.queue, w.holder.candidate;
      if pc.Reconciling? && queue != [] then
        if InterruptedState(queue[0].state).Some? then Some(ReconciledRecord(queue[0])) else None
      else if candidate.None? then None
      else if pc.Reconciling? then
        var t := if candidate.value.state.AwaitingReboot? then TransitionTo(candidate.value, VerifyingBoot)
                 else Ok(candidate.value);
        if t.Ok? then Some(t.value) else None
      else if pc.Persisting? then candidate
      else None
  }

  function PendingWrite(w: World, s: Step): Option<Record> {
    if s.Cancel? || s.KeepCurrent? then ServiceWrite(w, s)
    else if s.WorkerSave? || s.WorkerFail? then WorkerWrite(w, s)
    else if s.OfflineSave? then OfflineWrite(w, s)
    else if s.RollbackSave? then RollbackWrite(w, s)
    else if s.VerifierSave? then VerifierWrite(w, s)
    else None
  }

  function WriteIo(s: Step): Io {
    match s
    case Cancel(_, io) => io
    case KeepCurrent(_, io) => io
    case WorkerSave(_, io, _) => io
    case WorkerFail(_, _, io) => io
    case OfflineSave(io) => io
    case RollbackSave(io) => io
    case VerifierSave(io) => io
    case _ => Done
  }

  // The disk record of an operation after a step.
  function Written(w: World, s: Step, id: OperationId): Record
    requires id in w.ops
  {
    var r := PendingWrite(w, s);
    if r.Some? && r.value.contract.operationId == id && ValidState(r.value) && !WriteIo(s).Lost? then r.value
    else w.ops[id].disk
  }

  // ------------------------------------------- nothing else ever changes a record

  // A step adds one effect at most; an application notes the replay counter as it is.
  predicate Adds(log: seq<Effect>, log': seq<Effect>, counter: Option<u64>) {
    || log' == log
    || (&& |log'| == |log| + 1 && log'[..|log|] == log
        && (log'[|log|].PackagesApplied? ==> log'[|log|].counter == counter))
  }

  // An operation's record and log after a step of another process, or of none.
  predicate Writes(w: World, s: Step, w': World, id: OperationId)
    requires id in w.ops
  {
    id in w'.ops && w'.ops[id].disk == Written(w, s, id) && Adds(w.ops[id].log, w'.ops[id].log, w.counter)
  }

  lemma ServiceWrites(w: World, s: Step, id: OperationId)
    requires Inv(w) && id in w.ops && (s.Create? || s.Start? || s.Cancel? || s.KeepCurrent?)
    ensures Writes(w, s, ServiceDo(w, s), id)
  {
    hide Replay, ValidState, TraceOk, WorkerOk, HolderOk, LockOk, MarkerOk;
    if (s.Cancel? || s.KeepCurrent?) && s.op in w.ops {
      assert OpOk(s.op, w.ops[s.op]);
    }
  }

  lemma WorkersRecord(id: OperationId, o: Op)
    requires OpOk(id, o) && o.worker.Worker?
    ensures o.worker.rec.contract.operationId == id && o.disk.contract.operationId == id
  {}

  lemma WorkerSaveWrites(w: World, s: Step, id: OperationId)
    requires Inv(w) && id in w.ops && s.WorkerSave?
    ensures Writes(w, s, WorkerDo(w, s), id)
  {
    hide OpOk, ValidState, HolderOk, LockOk, MarkerOk, ValidTransition;
    if s.op in w.ops && w.ops[s.op].worker.Worker? {
      WorkersRecord(s.op, w.ops[s.op]);
    }
  }

  lemma WorkerFailWrites(w: World, s: Step, id: OperationId)
    requires Inv(w) && id in w.ops && s.WorkerFail?
    ensures Writes(w, s, WorkerDo(w, s), id)
  {
    hide OpOk, ValidState, HolderOk, LockOk, MarkerOk;
    if s.op in w.ops && w.ops[s.op].worker.Worker? {
      WorkersRecord(s.op, w.ops[s.op]);
    }
  }

  lemma WorkerStepWrites(w: World, s: Step, id: OperationId)
    requires Inv(w) && id in w.ops && IsWorkerStep(s) && !s.WorkerSave? && !s.WorkerFail?
    ensures Writes(w, s, WorkerDo(w, s), id)
  {
    hide Inv, WriteAndGo, TransitionTo, ValidState, WorkerTarget, FailureRecord, SaveTo;
  }

  lemma OfflinesRecord(w: World)
    requires Inv(w) && w.holder.OfflineHolds? && (w.holder.offlinePc.Authenticated? || w.holder.offlinePc.Applied?)
    ensures w.holder.op in w.ops && w.holder.rec.contract.operationId == w.holder.op
  {
    hide Replay, ValidState;
    HeldByOffline(w);
  }

  lemma DisksRecord(w: World, id: OperationId)
    requires Inv(w) && id in w.ops
    ensures w.ops[id].disk.contract.operationId == id
  {
    hide HolderOk;
    assert OpOk(id, w.ops[id]);
  }

  lemma OfflineSaveWrites(w: World, s: Step, id: OperationId)
    requires Inv(w) && id in w.ops && s.OfflineSave?
    ensures Writes(w, s, OfflineDo(w, s), id)
  {
    hide Inv, ValidState, ValidTransition;
    if w.holder.OfflineHolds? && w.holder.op in w.ops {
      DisksRecord(w, w.holder.op);
      if w.holder.offlinePc.Authenticated? || w.holder.offlinePc.Applied? {
        OfflinesRecord(w);
      }
    }
  }

  lemma OfflineStepWrites(w: World, s: Step, id: OperationId)
    requires Inv(w) && id in w.ops
    requires s.OfflineBegin? || s.OfflineAdvance? || s.OfflineApply? || s.OfflineUnmark?
    ensures Writes(w, s, OfflineDo(w, s), id)
  {
    hide Inv, ValidState, TransitionTo, BootQuiet, Fresh;
  }

  lemma RollbacksRecord(w: World)
    requires Inv(w) && w.holder.RollbackHolds? && !w.holder.rollbackPc.Asked?
    ensures w.holder.op in w.ops && w.holder.rec.contract.operationId == w.holder.op
  {
    hide Replay, ValidState, IsUuid;
    HeldByRollback(w);
  }

  lemma RollbackSaveWrites(w: World, s: Step, id: OperationId)
    requires Inv(w) && id in w.ops && s.RollbackSave?
    ensures Writes(w, s, RollbackDo(w, s), id)
  {
    hide Inv, ValidState, IsUuid, IntentRecord, ScheduledRecord, RollbackFailedRecord;
    if w.holder.RollbackHolds? && !w.holder.rollbackPc.Asked? {
      RollbacksRecord(w);
      SameContracts(w.holder.rec);
    }
  }

  lemma SameContracts(r: Record)
    ensures forall goal :: IntentRecord(r, goal).contract == r.contract
    ensures forall goal :: ScheduledRecord(r, goal).contract == r.contract
    ensures forall code :: RollbackFailedRecord(r, code).contract == r.contract
  {}

  lemma RollbackStepWrites(w: World, s: Step, id: OperationId)
    requires id in w.ops
    requires s.RollbackBegin? || s.RollbackLoad? || s.RollbackExecute? || s.RollbackInspect?
    ensures Writes(w, s, RollbackDo(w, s), id)
  {
    hide ValidState, IsUuid;
  }

  // The verifier finds what it is about to save where it expects it.
  lemma VerifiersRecord(w: World)
    requires Inv(w) && w.holder.VerifierHolds?
    ensures w.holder.verifierPc.Reconciling? && w.holder.queue != [] ==>
              && w.holder.queue[0].contract.operationId in w.ops
              && InterruptedState(w.holder.queue[0].state).Some?
    ensures !w.holder.verifierPc.Scanning? && w.holder.candidate.Some? ==>
              w.holder.candidate.value.contract.operationId in w.ops
  {
    hide ValidState, Replay, LockOk, MarkerOk, OpOk;
    if w.holder.verifierPc.Reconciling? && w.holder.queue != [] {
      assert EntryOk(w.ops, w.holder.queue[0]);
    }
  }

  lemma VerifierSaveWrites(w: World, s: Step, id: OperationId)
    requires Inv(w) && id in w.ops && s.VerifierSave?
    ensures Writes(w, s, VerifierDo(w, s), id)
  {
    hide Inv, ValidState, ValidTransition;
    if w.holder.VerifierHolds? {
      VerifiersRecord(w);
    }
  }

  lemma VerifierStepWrites(w: World, s: Step, id: OperationId)
    requires id in w.ops && (s.VerifierBegin? || s.VerifierScan? || s.VerifierCheck? || s.VerifierFinalize?)
    ensures Writes(w, s, VerifierDo(w, s), id)
  {
    hide InterruptedIn, Lists, Selects, BootQuiet, Finalized;
  }

  predicate IsBootStep(s: Step) {
    s.OfflineBegin? || s.OfflineAdvance? || s.OfflineSave? || s.OfflineApply? || s.OfflineUnmark?
    || s.VerifierBegin? || s.VerifierScan? || s.VerifierSave? || s.VerifierCheck? || s.VerifierFinalize?
  }

  lemma BootStepWrites(w: World, s: Step, id: OperationId)
    requires Inv(w) && id in w.ops && IsBootStep(s)
    ensures Writes(w, s, Do(w, s), id)
  {
    hide Inv, Writes, OfflineDo, VerifierDo;
    if s.OfflineSave? {
      OfflineSaveWrites(w, s, id);
    } else if s.VerifierSave? {
      VerifierSaveWrites(w, s, id);
    } else if s.VerifierBegin? || s.VerifierScan? || s.VerifierCheck? || s.VerifierFinalize? {
      VerifierStepWrites(w, s, id);
    } else {
      OfflineStepWrites(w, s, id);
    }
  }

  lemma MachineStepWrites(w: World, s: Step, id: OperationId)
    requires id in w.ops && (s.Crash? || s.KillHolder? || s.KillWorker? || s.ForeignMarker?)
    ensures Writes(w, s, Do(w, s), id)
  {}

  // A record changes only by a save of the record its process is about to write, and
  // then only if the gate accepts it; effects are only ever added.
  lemma OnlySavesChangeRecords(w: World, s: Step, id: OperationId)
    requires Inv(w) && id in w.ops
    ensures id in Do(w, s).ops
    ensures Do(w, s).ops[id].disk == Written(w, s, id)
    ensures Adds(w.ops[id].log, Do(w, s).ops[id].log, w.counter)
  {
    hide Inv, Written, ServiceDo, WorkerDo, OfflineDo, RollbackDo, VerifierDo;
    if IsWorkerStep(s) {
      if s.WorkerSave? {
        WorkerSaveWrites(w, s, id);
      } else if s.WorkerFail? {
        WorkerFailWrites(w, s, id);
      } else {
        WorkerStepWrites(w, s, id);
      }
    } else if s.Create? || s.Start? || s.Cancel? || s.KeepCurrent? {
      ServiceWrites(w, s, id);
    } else if s.RollbackSave? {
      RollbackSaveWrites(w, s, id);
    } else if s.RollbackBegin? || s.RollbackLoad? || s.RollbackExecute? || s.RollbackInspect? {
      RollbackStepWrites(w, s, id);
    } else if IsBootStep(s) {
      BootStepWrites(w, s, id);
    } else {
      MachineStepWrites(w, s, id);
    }
  }

  // ----------------------------------------------------------- what the gate refuses

  // The record stopped in Snapshotting before its number was stored.
  predicate Unnumberable(r: Record) {
    r.state.Snapshotting? && r.snapshotNumber.None?
  }

  // The step reconciles a record that stopped in Snapshotting without a number.
  predicate ReconcilesUnnumbered(w: World, s: Step) {
    && s.VerifierSave? && w.holder.VerifierHolds? && w.holder.verifierPc.Reconciling? && w.holder.queue != []
    && Unnumberable(w.holder.queue[0])
  }

  // The step saves a goal whose clone is not distinct from its source.
  predicate SavesIndistinctClone(w: World, s: Step) {
    && s.RollbackSave? && w.holder.RollbackHolds?
    && match w.holder.rollbackPc
       case Confirmable(goal) => !Confirms(goal)
       case Undoing(_) => w.holder.rec.recovery.Some? && w.holder.rec.recovery.value.boot.Some?
                       && !Confirms(w.holder.rec.recovery.value)
       case _ => false
  }

  // The record that is saved follows the record on disk.
  predicate Follows(w: World, r: Record) {
    && r.contract.operationId in w.ops
    && var d := w.ops[r.contract.operationId].disk;
       && r.contract == d.contract && d.sequence <= r.sequence
       && (d.snapshotNumber.Some? ==> r.snapshotNumber == d.snapshotNumber)
  }

  lemma ServiceWriteOk(w: World, s: Step)
    requires Inv(w) && ServiceWrite(w, s).Some?
    ensures ValidState(ServiceWrite(w, s).value) && Follows(w, ServiceWrite(w, s).value)
  {
    hide HolderOk, LockOk, MarkerOk, Replay, IsUuid;
    assert OpOk(s.op, w.ops[s.op]);
  }

  lemma WorkerWriteOk(w: World, s: Step)
    requires Inv(w) && WorkerWrite(w, s).Some?
    ensures ValidState(WorkerWrite(w, s).value) && Follows(w, WorkerWrite(w, s).value)
  {
    hide HolderOk, LockOk, MarkerOk, Replay, IsUuid;
    assert OpOk(s.op, w.ops[s.op]);
  }

  lemma OfflineWriteOk(w: World, s: Step)
    requires Inv(w) && OfflineWrite(w, s).Some?
    ensures ValidState(OfflineWrite(w, s).value) && Follows(w, OfflineWrite(w, s).value)
  {
    hide HolderOk, LockOk, Replay, IsUuid, Fresh, WorkerOk, TraceOk, IsSha256;
    HeldByOffline(w);
  }

  lemma RollbackWriteOk(w: World, s: Step)
    requires Inv(w) && RollbackWrite(w, s).Some?
    ensures ValidState(RollbackWrite(w, s).value) <==> !SavesIndistinctClone(w, s)
    ensures Follows(w, RollbackWrite(w, s).value)
  {
    hide HolderOk, LockOk, Replay, IsUuid, WorkerOk, IsSha256;
    HeldByRollback(w);
  }

  lemma VerifierWriteOk(w: World, s: Step)
    requires Inv(w) && VerifierWrite(w, s).Some?
    ensures ValidState(VerifierWrite(w, s).value) <==> !ReconcilesUnnumbered(w, s)
    ensures Follows(w, VerifierWrite(w, s).value)
  {
    hide LockOk, MarkerOk, Replay, IsUuid, WorkerOk, IsSha256, TraceOk;
    if w.holder.verifierPc.Reconciling? && w.holder.queue != [] {
      assert EntryOk(w.ops, w.holder.queue[0]);
    } else if w.holder.verifierPc.Reconciling? {
      VerifyingOp(w.ops, w.holder.candidate.value);
    } else {
      FinalizedOp(w.ops, w.holder.candidate.value);
    }
  }

  // Every record that any process is about to save passes the gate, with two
  // exceptions: an interrupted Snapshotting record without a number, and a rollback
  // clone that is not distinct from its source. What is saved never drops or replaces
  // a recorded snapshot number and never moves the sequence back.
  lemma GateRefusesExactly(w: World, s: Step)
    requires Inv(w) && PendingWrite(w, s).Some?
    ensures ValidState(PendingWrite(w, s).value) <==> !ReconcilesUnnumbered(w, s) && !SavesIndistinctClone(w, s)
    ensures Follows(w, PendingWrite(w, s).value)
  {
    hide Inv, ValidState, Follows, ServiceWrite, WorkerWrite, OfflineWrite, RollbackWrite, VerifierWrite;
    if s.Cancel? || s.KeepCurrent? {
      ServiceWriteOk(w, s);
    } else if s.WorkerSave? || s.WorkerFail? {
      WorkerWriteOk(w, s);
    } else if s.OfflineSave? {
      OfflineWriteOk(w, s);
    } else if s.RollbackSave? {
      RollbackWriteOk(w, s);
    } else {
      VerifierWriteOk(w, s);
    }
  }

  // ----------------------------------------------------------- who writes a record

  predicate Targets(write: Option<Record>, id: OperationId) {
    write.Some? && write.value.contract.operationId == id
  }

  // Who may be about to save a record that no worker holds, and in which state it is.
  predicate Writer(w: World, s: Step, id: OperationId)
    requires id in w.ops && PendingWrite(w, s).Some?
  {
    var d, r := w.ops[id].disk, PendingWrite(w, s).value;
    || (s.Cancel? && d.state.IsCancelable())
    || (s.KeepCurrent? && d.state.NeedsRecovery?)
    || (&& s.OfflineSave? && w.holder.OfflineHolds? && w.holder.op == id && d.snapshotNumber.Some?
        && (|| d.state.ReadyToReboot? || d.state.ApplyingOffline?
            || (w.holder.offlinePc.MarkingRecovery? && w.marker == Lyra(id) && r == RecoveryMark(d))))
    || (&& s.RollbackSave? && d.snapshotNumber.Some?
        && (d.state.NeedsRecovery? || d.state.Failed? || d.state.AwaitingReboot?))
    || (&& s.VerifierSave? && w.holder.VerifierHolds?
        && (|| IsCandidate(d)
            || (&& w.holder.verifierPc.Reconciling? && w.holder.queue != []
                && InterruptedState(w.holder.queue[0].state).Some? && r == ReconciledRecord(w.holder.queue[0])
                && (d == w.holder.queue[0]
                    || (w.holder.queue[0].state.Downloading? && d == CancelledRecord(w.holder.queue[0]))))))
  }

  lemma RequestWriter(w: World, s: Step, id: OperationId)
    requires Inv(w) && id in w.ops && w.ops[id].worker.NoWorker? && Targets(PendingWrite(w, s), id)
    requires s.Cancel? || s.KeepCurrent? || s.WorkerSave? || s.WorkerFail?
    ensures Writer(w, s, id)
  {
    hide OpOk, ValidState, HolderOk, LockOk, MarkerOk, ValidTransition;
    DisksRecord(w, s.op);
    if w.ops[s.op].worker.Worker? {
      WorkersRecord(s.op, w.ops[s.op]);
    }
  }

  lemma HolderWriter(w: World, s: Step, id: OperationId)
    requires Inv(w) && id in w.ops && Targets(PendingWrite(w, s), id) && (s.OfflineSave? || s.RollbackSave?)
    ensures Writer(w, s, id)
  {
    hide OpOk, ValidState, LockOk, Replay, IsUuid, ValidTransition;
    DisksRecord(w, w.holder.op);
    if s.OfflineSave? {
      HeldByOffline(w);
      if !w.holder.offlinePc.MarkingRecovery? {
        OfflinesRecord(w);
        HasSnapshot(w, id);
      }
    } else {
      RollbacksRecord(w);
      HeldByRollback(w);
    }
  }

  lemma HasSnapshot(w: World, id: OperationId)
    requires Inv(w) && id in w.ops
    ensures NeedsSnapshot(w.ops[id].disk.state) ==> w.ops[id].disk.snapshotNumber.Some?
  {
    hide HolderOk, LockOk, MarkerOk, TraceOk, WorkerOk, Replay;
    assert OpOk(id, w.ops[id]);
  }

  lemma VerifierWriter(w: World, s: Step, id: OperationId)
    requires Inv(w) && id in w.ops && Targets(PendingWrite(w, s), id) && s.VerifierSave?
    ensures Writer(w, s, id)
  {
    hide OpOk, ValidState, LockOk, MarkerOk, Replay, Distinct;
    if w.holder.verifierPc.Reconciling? && w.holder.queue != [] {
      assert EntryOk(w.ops, w.holder.queue[0]);
    }
  }

  lemma WhoWrites(w: World, s: Step, id: OperationId)
    requires Inv(w) && id in w.ops && w.ops[id].worker.NoWorker? && Targets(PendingWrite(w, s), id)
    ensures Writer(w, s, id)
  {
    hide Inv, Writer, ServiceWrite, WorkerWrite, OfflineWrite, RollbackWrite, VerifierWrite;
    if s.OfflineSave? || s.RollbackSave? {
      HolderWriter(w, s, id);
    } else if s.VerifierSave? {
      VerifierWriter(w, s, id);
    } else {
      RequestWriter(w, s, id);
    }
  }

  // ------------------------------------------------------------- what no step does

  predicate VerifierWorks(s: Step) {
    s.VerifierScan? || s.VerifierSave? || s.VerifierCheck? || s.VerifierFinalize?
  }

  // No step removes an operation or starts a worker again; only `Create` adds one, only
  // a finished verification moves the counter, and the verifier gets the lock only by
  // asking for it.
  predicate Framed(w: World, s: Step, w': World) {
    && (!s.VerifierFinalize? ==> w'.counter == w.counter)
    && (forall id :: id in w.ops ==> id in w'.ops)
    && (forall id :: id in w.ops && id in w'.ops && w.ops[id].worker.NoWorker? && !w.ops[id].disk.state.AwaitingConfirmation? ==>
          w'.ops[id].worker.NoWorker?)
    && (forall id :: id in w'.ops && id !in w.ops ==>
          s.Create? && s.op == id && w'.ops[id] == Op(InitialRecord(s.contract), NoWorker, s.offered, None, []))
    && (w'.holder.VerifierHolds? && !VerifierWorks(s) ==> w'.holder == w.holder || w'.holder.verifierPc.Scanning?)
    && (w'.holder.VerifierHolds? && VerifierWorks(s) ==> w.holder.VerifierHolds?)
  }

  lemma ServiceFrame(w: World, s: Step)
    ensures Framed(w, s, ServiceDo(w, s))
  {
    hide ValidState;
  }

  lemma WorkerFrame(w: World, s: Step)
    ensures Framed(w, s, WorkerDo(w, s))
  {
    hide ValidState, TransitionTo, WorkerTarget;
  }

  lemma OfflineFrame(w: World, s: Step)
    ensures Framed(w, s, OfflineDo(w, s))
  {
    hide ValidState, TransitionTo, BootQuiet, Fresh;
  }

  lemma RollbackFrame(w: World, s: Step)
    ensures Framed(w, s, RollbackDo(w, s))
  {
    hide ValidState, IsUuid;
  }

  lemma VerifierFrame(w: World, s: Step)
    ensures Framed(w, s, VerifierDo(w, s))
  {
    hide ValidState, TransitionTo, InterruptedIn, Lists, Selects, BootQuiet, Finalized;
  }

  lemma StepFrame(w: World, s: Step)
    ensures Framed(w, s, Do(w, s))
  {
    hide ServiceDo, WorkerDo, OfflineDo, RollbackDo, VerifierDo;
    ServiceFrame(w, s);
    WorkerFrame(w, s);
    OfflineFrame(w, s);
    RollbackFrame(w, s);
    VerifierFrame(w, s);
  }
}
