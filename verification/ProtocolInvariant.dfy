/** The invariant of the protocol: what holds of every record, worker and lock holder
    after any number of steps. */
module ProtocolInvariant {
  import opened Wrappers
  import opened Decimal
  import opened Operation
  import opened Records
  import opened Protocol
  import opened Traces

  // --------------------------------------------------------------- one operation

  // States an operation may be in once its package transaction has been started.
  predicate PostApply(s: OperationState) {
    s.Applying? || s.ApplyingOffline? || s.AwaitingReboot? || s.VerifyingBoot?
    || s.NeedsRecovery? || s.Failed? || s.Completed?
  }

  predicate Unspent(d: Record, t: Trace) {
    d.snapshotNumber.None? && t.taken.None? && !t.applied
  }

  // A worker's own copy of the record against the one on disk.
  predicate WorkerOk(d: Record, r: Record, pc: WorkerPc, t: Trace) {
    && r.contract == d.contract && r.recovery.None? && d.recovery.None? && t.phase.Rest?
    && r.snapshotNumber != Some(0)
    && d.sequence <= r.Bump().sequence && (d.state.IsCancelable() ==> d.sequence <= r.sequence)
    && match pc
       case Starting => Unapplied(d, r, t)
       case Locked => Unapplied(d, r, t)
       case Staged => Unapplied(d, r, t)
       case Fetching => Downloads(d, r, t)
       case Polled => Downloads(d, r, t)
       case Unnumbered => d == r && r.state.Snapshotting? && Unspent(d, t)
       case Numbered =>
         && d.state.Snapshotting? && d.snapshotNumber.None? && t.taken.Some? && !t.applied
         && r == d.(snapshotNumber := t.taken)
       case NumberSaved => d == r && r.state.Snapshotting? && r.snapshotNumber.Some? && !t.applied
       case MarkerSet => d == r && r.state.Snapshotting? && r.snapshotNumber.Some? && !t.applied
       case ApplyingSaved => d == r && r.state.Applying? && !t.applied && r.contract.kind.UpdateWithinRelease?
       case PackagesDone => d == r && r.state.Applying? && t.applied
       case Failing(_) => Fails(d, r, t)
  }

  predicate Unapplied(d: Record, r: Record, t: Trace) {
    && r.state.AwaitingConfirmation? && r.snapshotNumber.None? && Unspent(d, t)
    && (d.state.AwaitingConfirmation? || d.state.Failed?)
  }

  predicate Downloads(d: Record, r: Record, t: Trace) {
    && r.state.Downloading? && r.snapshotNumber.None? && Unspent(d, t)
    && (d.state.Downloading? || d.state.Failed?)
  }

  predicate Fails(d: Record, r: Record, t: Trace) {
    if r.snapshotNumber.None? then
      && d.snapshotNumber.None? && !t.applied
      && (d.state.AwaitingConfirmation? || d.state.Downloading? || d.state.Snapshotting? || d.state.Failed?)
      && (r.state.AwaitingConfirmation? ==> d.state.AwaitingConfirmation? || d.state.Failed?)
    else
      && r.snapshotNumber == t.taken && !r.state.AwaitingConfirmation?
      && (d.snapshotNumber.None? ==> d.state.Snapshotting? && !t.applied)
      && (d.state.Snapshotting? || d.state.Applying? || d.state.ReadyToReboot? || d.state.AwaitingReboot?
          || d.state.Completed?)
  }

  predicate TraceOk(d: Record, t: Trace) {
    && (t.applied ==> PostApply(d.state) && d.snapshotNumber.Some?)
    && (d.snapshotNumber.Some? ==> d.snapshotNumber == t.taken)
    && (t.phase.Rest? <==> !Incomplete(d))
    && (d.state.AwaitingConfirmation? ==> d.snapshotNumber.None? && d.recovery.None? && t == Untouched)
  }

  predicate OpOk(id: OperationId, o: Op) {
    && ValidState(o.disk) && o.disk.contract.operationId == id
    && Legal(o.log)
    && TraceOk(o.disk, Replay(o.log).value)
    && (o.worker.Worker? ==> WorkerOk(o.disk, o.worker.rec, o.worker.pc, Replay(o.log).value))
  }

  predicate OpsOk(ops: map<OperationId, Op>) {
    forall id :: id in ops ==> OpOk(id, ops[id])
  }

  // ---------------------------------------------------------------- the lock holder

  predicate Running(o: Op) {
    o.worker.Worker? && !o.worker.pc.Starting? && !o.worker.pc.Failing?
  }

  predicate AllQuiet(w: World) {
    forall id :: id in w.ops ==> Quiet(w.ops[id])
  }

  predicate OfflineOk(o: Op, pc: OfflinePc, r: Record, counter: Option<u64>)
    requires Legal(o.log)
  {
    var d, t := o.disk, Replay(o.log).value;
    match pc
    case Begun => true
    case Prepared => d.state.ReadyToReboot? && d.snapshotNumber.Some? && TransitionTo(d, ApplyingOffline) == Ok(r)
    case Authenticated =>
      && d.state.ReadyToReboot? && d.snapshotNumber.Some? && TransitionTo(d, ApplyingOffline) == Ok(r)
      && Fresh(o.manifestFile, counter)
    case Saved => d == r && d.state.ApplyingOffline? && d.contract.kind.IsSignedOffline() && !t.applied
                  && Fresh(o.manifestFile, counter)
    case Revalidated => d == r && d.state.ApplyingOffline? && d.contract.kind.IsSignedOffline() && !t.applied
                        && Fresh(o.manifestFile, counter)
    case Applied => d == r && d.state.ApplyingOffline? && d.contract.kind.IsSignedOffline()
    case Finished => d == r && d.state.AwaitingReboot?
    case MarkingRecovery => true
    case Unmarking => true
  }

  // The record in memory against the one on disk, which `keep current` may have closed.
  predicate RecoveryCopy(o: Op, r: Record) {
    && o.worker.NoWorker? && r.contract == o.disk.contract && o.disk.snapshotNumber.Some?
    && r.snapshotNumber == o.disk.snapshotNumber && o.disk.sequence <= r.Bump().sequence
    && (o.disk.state.NeedsRecovery? ==> o.disk.sequence <= r.sequence)
  }

  predicate RollbackOk(o: Op, pc: RollbackPc, r: Record)
    requires Legal(o.log)
  {
    var d, t := o.disk, Replay(o.log).value;
    match pc
    case Asked => true
    case Loaded(goal) =>
      && RecoveryCopy(o, r) && r.state.NeedsRecovery? && d.recovery == r.recovery && !Incomplete(r)
      && (d.state.NeedsRecovery? || d.state.Failed?)
      && goal.boot.None? && goal.source.Valid() && r.snapshotNumber == Some(goal.sourceNumber)
    case Intended =>
      && RecoveryCopy(o, r) && r.state.NeedsRecovery? && d.recovery == r.recovery && Incomplete(r)
      && (d.state.NeedsRecovery? || d.state.Failed?) && t.phase.Intended?
    case Ran =>
      && RecoveryCopy(o, r) && r.state.NeedsRecovery? && d.recovery == r.recovery && Incomplete(r)
      && (d.state.NeedsRecovery? || d.state.Failed?) && t.phase.Ran?
    case Confirmable(goal) =>
      && RecoveryCopy(o, r) && r.state.NeedsRecovery? && d.recovery == r.recovery && Incomplete(r)
      && (d.state.NeedsRecovery? || d.state.Failed?) && t.phase.Ran?
      && goal.boot.Some? && goal == r.recovery.value.(boot := goal.boot)
      && goal.boot.value.Valid() && goal.boot.value.parentUuid == Some(goal.source.uuid)
    case Undoing(_) =>
      && RecoveryCopy(o, r) && r.recovery.Some?
      && (d.state.NeedsRecovery? || d.state.Failed? || d.state.AwaitingReboot?)
      && (r.recovery != d.recovery ==>
            && Incomplete(d) && t.phase.Ran? && r.recovery.value.boot.Some?
            && d.recovery.value == r.recovery.value.(boot := None)
            && r.recovery.value.boot.value.Valid()
            && r.recovery.value.boot.value.parentUuid == Some(r.recovery.value.source.uuid))
  }

  // A record the verifier read, against the disk: the same, unless a download was
  // cancelled meanwhile.
  predicate EntryOk(ops: map<OperationId, Op>, r: Record) {
    && r.contract.operationId in ops && ValidState(r)
    && InterruptedState(r.state).Some?
    && var o := ops[r.contract.operationId];
       o.worker.NoWorker? && (o.disk == r || (r.state.Downloading? && o.disk == CancelledRecord(r)))
  }

  predicate Distinct(queue: seq<Record>) {
    queue == [] ||
    (&& (forall r :: r in queue[1..] ==> r.contract.operationId != queue[0].contract.operationId)
     && Distinct(queue[1..]))
  }

  predicate QueueOk(ops: map<OperationId, Op>, queue: seq<Record>) {
    Distinct(queue) && forall r :: r in queue ==> EntryOk(ops, r)
  }

  predicate Held(ops: map<OperationId, Op>, c: Record) {
    && c.contract.operationId in ops && ops[c.contract.operationId].worker.NoWorker?
    && ops[c.contract.operationId].disk == c
  }

  predicate CandidateOk(ops: map<OperationId, Op>, c: Record) {
    Held(ops, c) && IsCandidate(c)
  }

  predicate VerdictOk(d: Record, c: Record) {
    && d.state.VerifyingBoot? && c.contract == d.contract && c.snapshotNumber == d.snapshotNumber
    && c.recovery == d.recovery && (c.state.NeedsRecovery? || c.state.Completed?) && d.sequence <= c.sequence
  }

  predicate VerifierOk(ops: map<OperationId, Op>, pc: VerifierPc, queue: seq<Record>, candidate: Option<Record>) {
    match pc
    case Scanning => true
    case Reconciling => QueueOk(ops, queue) && (candidate.Some? ==> CandidateOk(ops, candidate.value))
    case Checking => candidate.Some? && Held(ops, candidate.value) && candidate.value.state.VerifyingBoot?
    case Checked(_, _) => candidate.Some? && Held(ops, candidate.value) && candidate.value.state.VerifyingBoot?
    case Persisting =>
      && candidate.Some? && candidate.value.contract.operationId in ops
      && ops[candidate.value.contract.operationId].worker.NoWorker?
      && VerdictOk(ops[candidate.value.contract.operationId].disk, candidate.value)
  }

  predicate LockOk(w: World) {
    && (w.holder.WorkerHolds? ==> w.holder.op in w.ops)
    && forall id :: id in w.ops ==> (Running(w.ops[id]) <==> w.holder == WorkerHolds(id))
  }

  predicate HolderOk(w: World)
    requires OpsOk(w.ops)
  {
    match w.holder
    case Free => true
    case WorkerHolds(_) => true
    case OfflineHolds(op, pc, r) => op in w.ops && AllQuiet(w) && OfflineOk(w.ops[op], pc, r, w.counter)
    case RollbackHolds(op, pc, r) => op in w.ops && RollbackOk(w.ops[op], pc, r)
    case VerifierHolds(pc, queue, candidate) => AllQuiet(w) && VerifierOk(w.ops, pc, queue, candidate)
  }

  predicate MarkerOk(w: World) {
    w.marker.Lyra? ==> w.marker.id in w.ops && w.ops[w.marker.id].disk.snapshotNumber.Some?
  }

  predicate Inv(w: World) {
    OpsOk(w.ops) && LockOk(w) && HolderOk(w) && MarkerOk(w)
  }

  // ------------------------------------------------------------------ service steps

  lemma NothingDone()
    ensures Replay([]) == Some(Untouched)
  {}

  // Adding or changing an operation that the lock holder does not depend on.
  lemma CreateKeeps(w: World, id: OperationId, contract: Contract, offered: u64)
    requires Inv(w)
    ensures Inv(ServiceDo(w, Create(id, contract, offered)))
  {
    hide Replay, ValidState, WorkerOk, OfflineOk, RollbackOk, VerdictOk, Distinct;
    NothingDone();
  }

  lemma StartedOp(id: OperationId, o: Op)
    requires OpOk(id, o) && o.worker.NoWorker? && o.disk.state.AwaitingConfirmation?
    ensures OpOk(id, o.(worker := Worker(o.disk, Starting)))
  {
    hide Replay;
  }

  lemma StartKeeps(w: World, id: OperationId)
    requires Inv(w)
    ensures Inv(ServiceDo(w, Start(id)))
  {
    hide Replay, ValidState, OpOk;
    if id in w.ops && w.ops[id].worker.NoWorker? && w.ops[id].disk.state.AwaitingConfirmation? {
      StartedOp(id, w.ops[id]);
    }
  }

  lemma CancelledOp(id: OperationId, o: Op, io: Io)
    requires OpOk(id, o) && o.disk.state.IsCancelable()
    ensures OpOk(id, SaveTo(o, CancelledRecord(o.disk), io))
  {
    hide Replay;
  }

  lemma DeclinedOp(id: OperationId, o: Op, io: Io)
    requires OpOk(id, o) && o.disk.state.NeedsRecovery?
    ensures OpOk(id, SaveTo(o, DeclinedRecord(o.disk), io))
  {
    hide Replay;
  }

  // A request closed the record between two steps of the lock holder.
  predicate Closes(o: Op, o': Op) {
    && o' == o.(disk := o'.disk)
    && (|| o'.disk == o.disk
        || (o.disk.state.IsCancelable() && o'.disk == CancelledRecord(o.disk))
        || (o.disk.state.NeedsRecovery? && o'.disk == DeclinedRecord(o.disk)))
  }

  lemma OfflineOutlives(o: Op, o': Op, pc: OfflinePc, r: Record, counter: Option<u64>)
    requires Legal(o.log) && Closes(o, o') && OfflineOk(o, pc, r, counter)
    ensures OfflineOk(o', pc, r, counter)
  {
    hide Replay, ValidState, Fresh;
  }

  lemma RollbackOutlives(o: Op, o': Op, pc: RollbackPc, r: Record)
    requires Legal(o.log) && Closes(o, o') && RollbackOk(o, pc, r)
    ensures RollbackOk(o', pc, r)
  {
    hide Replay, ValidState;
  }

  lemma EntryOutlives(ops: map<OperationId, Op>, id: OperationId, o: Op, r: Record)
    requires id in ops && Closes(ops[id], o) && EntryOk(ops, r)
    ensures EntryOk(ops[id := o], r)
  {
    hide ValidState;
  }

  lemma VerifierOutlives(ops: map<OperationId, Op>, id: OperationId, o: Op,
                         pc: VerifierPc, queue: seq<Record>, candidate: Option<Record>)
    requires id in ops && Closes(ops[id], o) && VerifierOk(ops, pc, queue, candidate)
    ensures VerifierOk(ops[id := o], pc, queue, candidate)
  {
    hide EntryOk, Distinct;
    if pc.Reconciling? {
      forall r | r in queue
        ensures EntryOk(ops[id := o], r)
      {
        EntryOutlives(ops, id, o, r);
      }
    }
  }

  lemma HolderOutlivesClosing(w: World, id: OperationId, o: Op)
    requires Inv(w) && id in w.ops && OpOk(id, o) && Closes(w.ops[id], o)
    ensures OpsOk(Put(w, id, o).ops) && HolderOk(Put(w, id, o))
  {
    hide Replay, ValidState, OfflineOk, RollbackOk, VerifierOk;
    match w.holder
    case OfflineHolds(op, pc, r) =>
      if op == id {
        OfflineOutlives(w.ops[id], o, pc, r, w.counter);
      }
    case RollbackHolds(op, pc, r) =>
      if op == id {
        RollbackOutlives(w.ops[id], o, pc, r);
      }
    case VerifierHolds(pc, queue, candidate) => VerifierOutlives(w.ops, id, o, pc, queue, candidate);
    case _ =>
  }

  lemma CancelKeeps(w: World, id: OperationId, io: Io)
    requires Inv(w)
    ensures Inv(ServiceDo(w, Cancel(id, io)))
  {
    hide Replay, ValidState, HolderOk, OpOk;
    if id in w.ops && w.ops[id].disk.state.IsCancelable() {
      CancelledOp(id, w.ops[id], io);
      HolderOutlivesClosing(w, id, SaveTo(w.ops[id], CancelledRecord(w.ops[id].disk), io));
    }
  }

  lemma KeepCurrentKeeps(w: World, id: OperationId, io: Io)
    requires Inv(w)
    ensures Inv(ServiceDo(w, KeepCurrent(id, io)))
  {
    hide Replay, ValidState, HolderOk, OpOk;
    if id in w.ops && w.ops[id].disk.state.NeedsRecovery? {
      DeclinedOp(id, w.ops[id], io);
      HolderOutlivesClosing(w, id, SaveTo(w.ops[id], DeclinedRecord(w.ops[id].disk), io));
    }
  }

  // ------------------------------------------------------------------- worker steps

  // A step of the worker that holds the lock.
  lemma RunningKeeps(w: World, w': World, id: OperationId, o: Op)
    requires Inv(w) && id in w.ops && w.holder == WorkerHolds(id) && OpOk(id, o)
    requires w'.ops == w.ops[id := o] && w'.holder == if Running(o) then WorkerHolds(id) else Free
    requires w.ops[id].disk.snapshotNumber.Some? ==> o.disk.snapshotNumber.Some?
    requires w'.marker == w.marker || (w'.marker == Lyra(id) && o.disk.snapshotNumber.Some?)
    ensures Inv(w')
  {
    hide OpOk;
  }

  lemma QuietWorker(id: OperationId, o: Op)
    requires OpOk(id, o) && Quiet(o) && o.worker.Worker?
    ensures o.disk.state.AwaitingConfirmation? || o.disk.state.Failed?
  {
    hide Replay, ValidState;
  }

  // A step of a worker that waits for the lock or for its failure to be recorded.
  lemma WaitingKeeps(w: World, id: OperationId, o: Op)
    requires Inv(w) && id in w.ops && w.ops[id].worker.Worker? && !Running(w.ops[id])
    requires OpOk(id, o) && !Running(o) && (Quiet(w.ops[id]) ==> Quiet(o))
    requires w.ops[id].disk.snapshotNumber.Some? ==> o.disk.snapshotNumber.Some?
    ensures Inv(Put(w, id, o))
  {
    hide OpOk, EntryOk, Distinct, ValidState, Replay;
    match w.holder
    case OfflineHolds(op, pc, r) =>
      if op == id {
        assert OpOk(id, w.ops[id]);
        QuietWorker(id, w.ops[id]);
        LegalOp(id, o);
      }
    case RollbackHolds(op, pc, r) =>
      LegalOp(id, o);
    case VerifierHolds(pc, queue, candidate) =>
      if pc.Reconciling? {
        forall r | r in queue
          ensures EntryOk(w.ops[id := o], r)
        {
          EntryElsewhere(w.ops, id, o, r);
        }
      }
    case _ =>
  }

  lemma LegalOp(id: OperationId, o: Op)
    requires OpOk(id, o)
    ensures Legal(o.log)
  {}

  lemma EntryElsewhere(ops: map<OperationId, Op>, id: OperationId, o: Op, r: Record)
    requires id in ops && ops[id].worker.Worker? && EntryOk(ops, r)
    ensures EntryOk(ops[id := o], r)
  {}

  // What one worker's step makes of its operation.
  lemma MovedOp(id: OperationId, o: Op, r: Record, pc: WorkerPc)
    requires OpOk(id, o) && WorkerOk(o.disk, r, pc, Replay(o.log).value)
    ensures OpOk(id, o.(worker := Worker(r, pc)))
  {
    hide Replay, ValidState, WorkerOk;
  }

  // A running or waiting worker may fail at any point.
  lemma FailedOp(id: OperationId, o: Op, e: ExecutionError)
    requires OpOk(id, o) && o.worker.Worker?
    ensures OpOk(id, o.(worker := Worker(o.worker.rec, Failing(e))))
  {
    hide Replay;
    assert Fails(o.disk, o.worker.rec, Replay(o.log).value);
  }

  // A save by a running worker, whether it succeeds, is lost, or is reported as failed.
  predicate SaveKeepsOp(id: OperationId, o: Op, r: Record, next: WorkerPc) {
    && ValidState(r) && (o.disk.snapshotNumber.Some? ==> r.snapshotNumber.Some?)
    && OpOk(id, o.(worker := Worker(r, Failing(ExecutionError.Persist))))
    && OpOk(id, o.(disk := r, worker := Worker(r, Failing(ExecutionError.Persist))))
    && OpOk(id, o.(disk := r, worker := if EndsWorker(next) then NoWorker else Worker(r, next)))
  }

  lemma WriteKeeps(w: World, id: OperationId, r: Record, next: WorkerPc, io: Io)
    requires Inv(w) && id in w.ops && w.holder == WorkerHolds(id)
    requires SaveKeepsOp(id, w.ops[id], r, next) && !next.Failing? && !next.Starting?
    ensures Inv(WriteAndGo(w, id, r, next, io))
  {
    hide OpOk, ValidState, HolderOk;
    var o, w' := w.ops[id], WriteAndGo(w, id, r, next, io);
    RunningKeeps(w, w', id, w'.ops[id]);
  }

  // The records a worker saves on its way.
  lemma NumberSavedOp(id: OperationId, o: Op)
    requires OpOk(id, o) && o.worker.Worker? && o.worker.pc.Numbered?
    ensures SaveKeepsOp(id, o, o.worker.rec, NumberSaved)
  {
    hide Replay;
  }

  lemma SavedOp(id: OperationId, o: Op, reboot: bool)
    requires OpOk(id, o) && o.worker.Worker? && WorkerTarget(o.worker.rec, o.worker.pc, reboot).Some?
    requires TransitionTo(o.worker.rec, WorkerTarget(o.worker.rec, o.worker.pc, reboot).value.0).Ok?
    ensures var target := WorkerTarget(o.worker.rec, o.worker.pc, reboot).value;
            SaveKeepsOp(id, o, TransitionTo(o.worker.rec, target.0).value, target.1)
  {
    hide Replay;
  }

  lemma WorkerSaveKeeps(w: World, id: OperationId, io: Io, reboot: bool)
    requires Inv(w)
    ensures Inv(WorkerDo(w, WorkerSave(id, io, reboot)))
  {
    hide OpOk, ValidState, HolderOk, SaveKeepsOp, WriteAndGo, MarkerOk, TransitionTo;
    if WorkerAt(w, id, Numbered) {
      NumberSavedOp(id, w.ops[id]);
      WriteKeeps(w, id, w.ops[id].worker.rec, NumberSaved, io);
    } else if id in w.ops && w.ops[id].worker.Worker? {
      var o := w.ops[id];
      var target := WorkerTarget(o.worker.rec, o.worker.pc, reboot);
      if target.Some? {
        var next := TransitionTo(o.worker.rec, target.value.0);
        if next.Ok? {
          SavedOp(id, o, reboot);
          WriteKeeps(w, id, next.value, target.value.1, io);
        } else {
          FailKeeps(w, id, ExecutionError.Transition);
        }
      }
    }
  }

  lemma FailKeeps(w: World, id: OperationId, e: ExecutionError)
    requires Inv(w) && id in w.ops && w.ops[id].worker.Worker?
    ensures Inv(Fail(w, id, w.ops[id], w.ops[id].worker.rec, e))
  {
    hide OpOk, ValidState, HolderOk;
    var o := w.ops[id];
    var o' := o.(worker := Worker(o.worker.rec, Failing(e)));
    FailedOp(id, o, e);
    if Running(o) {
      RunningKeeps(w, Fail(w, id, o, o.worker.rec, e), id, o');
    } else {
      WaitingKeeps(w, id, o');
    }
  }

  lemma LockedOp(id: OperationId, o: Op)
    requires OpOk(id, o) && o.worker.Worker? && o.worker.pc.Starting?
    ensures OpOk(id, o.(worker := Worker(o.worker.rec, Locked)))
  {
    hide Replay, ValidState;
  }

  lemma WorkerLockKeeps(w: World, id: OperationId)
    requires Inv(w)
    ensures Inv(WorkerDo(w, WorkerLock(id)))
  {
    hide OpOk, ValidState, MarkerOk;
    if WorkerAt(w, id, Starting) {
      LockedOp(id, w.ops[id]);
      if !w.holder.Free? {
        FailKeeps(w, id, Busy);
      } else {
        hide HolderOk;
        var w' := WorkerDo(w, WorkerLock(id));
        assert MarkerOk(w') by {
          MarkerStays(w, w', id);
        }
        FreeLock(w');
      }
    }
  }

  lemma MarkerStays(w: World, w': World, id: OperationId)
    requires MarkerOk(w) && id in w.ops && id in w'.ops
    requires w'.ops == w.ops[id := w'.ops[id]] && w'.ops[id].disk == w.ops[id].disk && w'.marker == w.marker
    ensures MarkerOk(w')
  {}

  lemma FreeLock(w: World)
    requires OpsOk(w.ops) && (w.holder.Free? || w.holder.WorkerHolds?)
    ensures HolderOk(w)
  {}

  // A step that stays with the lock and does not write the record.
  lemma GoKeeps(w: World, id: OperationId, o: Op)
    requires Inv(w) && id in w.ops && w.holder == WorkerHolds(id)
    requires OpOk(id, o) && Running(o) && o.disk == w.ops[id].disk
    ensures Inv(Put(w, id, o))
  {
    hide OpOk;
    RunningKeeps(w, Put(w, id, o), id, o);
  }

  lemma StagedOp(id: OperationId, o: Op, manifest: Option<u64>)
    requires OpOk(id, o) && o.worker.Worker? && o.worker.pc.Locked?
    ensures OpOk(id, o.(manifestFile := manifest))
    ensures OpOk(id, o.(manifestFile := manifest, worker := Worker(o.worker.rec, Staged)))
    ensures OpOk(id, o.(manifestFile := manifest, worker := Worker(o.worker.rec, Failing(Stage))))
  {
    hide Replay;
    FailedOp(id, o.(manifestFile := manifest), Stage);
  }

  lemma WorkerStageKeeps(w: World, id: OperationId, written: bool, ok: bool)
    requires Inv(w)
    ensures Inv(WorkerDo(w, WorkerStage(id, written, ok)))
  {
    hide OpOk, ValidState, HolderOk;
    if WorkerAt(w, id, Locked) {
      var o, w' := w.ops[id], WorkerDo(w, WorkerStage(id, written, ok));
      StagedOp(id, o, w'.ops[id].manifestFile);
      RunningKeeps(w, w', id, w'.ops[id]);
    }
  }

  lemma WorkerPollKeeps(w: World, id: OperationId, last: bool)
    requires Inv(w)
    ensures Inv(WorkerDo(w, WorkerPoll(id, last)))
  {
    hide Replay, ValidState, HolderOk, MarkerOk;
    if WorkerAt(w, id, Fetching) {
      if w.ops[id].disk.error == Some(Cancelled) {
        FailKeeps(w, id, CancelRequested);
      } else if last {
        MovedOp(id, w.ops[id], w.ops[id].worker.rec, Polled);
        GoKeeps(w, id, w.ops[id].(worker := Worker(w.ops[id].worker.rec, Polled)));
      }
    }
  }

  lemma SnapshotOp(id: OperationId, o: Op, number: u64)
    requires OpOk(id, o) && o.worker.Worker? && o.worker.pc.Unnumbered? && number > 0
    ensures OpOk(id, o.(log := o.log + [SnapshotTaken(number)],
                        worker := Worker(o.worker.rec.(snapshotNumber := Some(number)), Numbered)))
  {
    hide Replay, ValidState;
    ReplayAppend(o.log, SnapshotTaken(number));
  }

  lemma WorkerSnapshotKeeps(w: World, id: OperationId, number: u64)
    requires Inv(w)
    ensures Inv(WorkerDo(w, WorkerSnapshot(id, number)))
  {
    hide OpOk, ValidState, HolderOk;
    if WorkerAt(w, id, Unnumbered) && number > 0 {
      SnapshotOp(id, w.ops[id], number);
      GoKeeps(w, id, WorkerDo(w, WorkerSnapshot(id, number)).ops[id]);
    }
  }

  lemma MarkedOp(id: OperationId, o: Op)
    requires OpOk(id, o) && o.worker.Worker? && o.worker.pc.NumberSaved?
    ensures OpOk(id, o.(worker := Worker(o.worker.rec, MarkerSet))) && o.disk.snapshotNumber.Some?
  {
    hide Replay, ValidState;
  }

  lemma WorkerMarkKeeps(w: World, id: OperationId, ok: bool)
    requires Inv(w)
    ensures Inv(WorkerDo(w, WorkerMark(id, ok)))
  {
    hide OpOk, ValidState, HolderOk, MarkerOk;
    if WorkerAt(w, id, NumberSaved) {
      var o, w' := w.ops[id], WorkerDo(w, WorkerMark(id, ok));
      MarkedOp(id, o);
      FailedOp(id, o, Stage);
      FailedOp(id, o, SystemUpdateExists);
      if w' != w {
        RunningKeeps(w, w', id, w'.ops[id]);
      }
    }
  }

  lemma AppliedOp(id: OperationId, o: Op, counter: Option<u64>)
    requires OpOk(id, o) && o.worker.Worker? && o.worker.pc.ApplyingSaved?
    ensures OpOk(id, o.(log := o.log + [PackagesApplied(o.disk, None, counter)],
                        worker := Worker(o.worker.rec, PackagesDone)))
  {
    hide Replay;
    ReplayAppend(o.log, PackagesApplied(o.disk, None, counter));
  }

  lemma WorkerApplyKeeps(w: World, id: OperationId, ok: bool)
    requires Inv(w)
    ensures Inv(WorkerDo(w, WorkerApply(id, ok)))
  {
    hide OpOk, ValidState, HolderOk;
    if WorkerAt(w, id, ApplyingSaved) {
      var o, w' := w.ops[id], WorkerDo(w, WorkerApply(id, ok));
      AppliedOp(id, o, w.counter);
      var done := o.(log := o.log + [PackagesApplied(o.disk, None, w.counter)], worker := Worker(o.worker.rec, PackagesDone));
      FailedOp(id, done, ExecutionError.Apply);
      RunningKeeps(w, w', id, w'.ops[id]);
    }
  }

  lemma WorkerErrorKeeps(w: World, id: OperationId, e: ExecutionError)
    requires Inv(w)
    ensures Inv(WorkerDo(w, WorkerError(id, e)))
  {
    hide OpOk, ValidState, HolderOk, MarkerOk;
    if id in w.ops && w.ops[id].worker.Worker? {
      FailKeeps(w, id, e);
    }
  }

  // Recording a failure, or leaving a cancelled record as it is.
  lemma RecordedOp(id: OperationId, o: Op, io: Io)
    requires OpOk(id, o) && o.worker.Worker? && o.worker.pc.Failing?
    ensures OpOk(id, o.(worker := NoWorker))
    ensures OpOk(id, SaveTo(o, FailureRecord(o.worker.rec, o.worker.pc.error), io).(worker := NoWorker))
    ensures ValidState(FailureRecord(o.worker.rec, o.worker.pc.error))
    ensures o.disk.snapshotNumber.Some? ==> o.worker.rec.snapshotNumber.Some?
  {
    hide Replay;
  }

  lemma WorkerFailKeeps(w: World, id: OperationId, readable: bool, io: Io)
    requires Inv(w)
    ensures Inv(WorkerDo(w, WorkerFail(id, readable, io)))
  {
    hide OpOk, ValidState, HolderOk, MarkerOk;
    if id in w.ops && w.ops[id].worker.Worker? && w.ops[id].worker.pc.Failing? {
      var o, w' := w.ops[id], WorkerDo(w, WorkerFail(id, readable, io));
      RecordedOp(id, o, io);
      WaitingKeeps(w, id, w'.ops[id]);
    }
  }
}
