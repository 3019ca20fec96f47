/** The life of operations as steps of cooperating processes over one disk: the service
    worker, the offline worker, the rollback scheduler and the boot verifier. Every
    save, marker change, snapshot and package transaction is one step, and a crash may
    come between any two. */
module Protocol {
  import opened Wrappers
  import opened Decimal
  import opened Operation
  import opened Records

  type OperationId = string

  // How a save ends: done; refused with nothing written; or written although an error
  // is reported.
  datatype Io = Done | Lost | Reported

  // What an operation has done to the system, in order.
  datatype Effect =
    | SnapshotTaken(number: u64)
    | PackagesApplied(persisted: Record, manifest: Option<u64>, counter: Option<u64>)
    | IntentSaved
    | RollbackRun(persisted: Record)
    | CloneConfirmed(goal: RollbackGoal)

  // Where a worker thread stands; it holds the transaction lock except in Starting
  // and Failing.
  datatype WorkerPc =
    | Starting | Locked | Staged | Fetching | Polled | Unnumbered | Numbered | NumberSaved
    | MarkerSet | ApplyingSaved | PackagesDone | Failing(error: ExecutionError)

  datatype Worker = NoWorker | Worker(rec: Record, pc: WorkerPc)

  datatype Op = Op(
    disk: Record,               // state.json
    worker: Worker,             // the service's thread for this operation, if any
    offered: u64,               // sequence of the confirmed manifest
    manifestFile: Option<u64>,  // sequence in the staged manifest.json
    log: seq<Effect>)

  datatype Marker = Absent | Lyra(id: OperationId) | Foreign

  datatype OfflinePc =
    | Begun | Prepared | Authenticated | Saved | Revalidated | Applied | Finished
    | MarkingRecovery | Unmarking

  datatype RollbackPc = Asked | Loaded(goal: RollbackGoal) | Intended | Ran | Confirmable(goal: RollbackGoal) | Undoing(code: string)

  datatype VerifierPc = Scanning | Reconciling | Checking | Checked(passed: bool, code: string) | Persisting

  // The process that holds the transaction lock.
  datatype Holder =
    | Free
    | WorkerHolds(op: OperationId)
    | OfflineHolds(op: OperationId, offlinePc: OfflinePc, rec: Record)
    | RollbackHolds(op: OperationId, rollbackPc: RollbackPc, rec: Record)
    | VerifierHolds(verifierPc: VerifierPc, queue: seq<Record>, candidate: Option<Record>)

  datatype World = World(ops: map<OperationId, Op>, marker: Marker, holder: Holder, counter: Option<u64>)

  const Initial := World(map[], Absent, Free, None)

  datatype Step =
    // service requests; `cancel` and `keep current` load, check and save in one step
    | Create(op: OperationId, contract: Contract, offered: u64)
    | Start(op: OperationId)
    | Cancel(op: OperationId, io: Io)
    | KeepCurrent(op: OperationId, io: Io)
    // the worker thread of one operation
    | WorkerLock(op: OperationId)
    | WorkerStage(op: OperationId, written: bool, ok: bool)
    | WorkerPoll(op: OperationId, last: bool)
    | WorkerSave(op: OperationId, io: Io, reboot: bool)
    | WorkerSnapshot(op: OperationId, number: u64)
    | WorkerMark(op: OperationId, ok: bool)
    | WorkerApply(op: OperationId, ok: bool)
    | WorkerError(op: OperationId, error: ExecutionError)
    | WorkerFail(op: OperationId, readable: bool, io: Io)
    // the offline worker
    | OfflineBegin(op: OperationId)
    | OfflineAdvance(ok: bool)
    | OfflineSave(io: Io)
    | OfflineApply(ok: bool)
    | OfflineUnmark(ok: bool)
    // the rollback scheduler
    | RollbackBegin(op: OperationId)
    | RollbackLoad(source: SubvolumeIdentity, ok: bool)
    | RollbackSave(io: Io)
    | RollbackExecute(ok: bool)
    | RollbackInspect(clone: SubvolumeIdentity, ok: bool)
    // the boot verifier
    | VerifierBegin
    | VerifierScan(entries: seq<OperationId>, first: Option<OperationId>)
    | VerifierSave(io: Io)
    | VerifierCheck(passed: bool, code: string)
    | VerifierFinalize(io: Io)
    // the machine: everything stops, or one process alone
    | Crash
    | KillHolder
    | KillWorker(op: OperationId)
    | ForeignMarker(present: bool)

  // ------------------------------------------------------------------ primitives

  // `save_state`: nothing is written unless the record passes the gate.
  function SaveTo(o: Op, r: Record, io: Io): Op {
    if ValidState(r) && !io.Lost? then o.(disk := r) else o
  }

  predicate SaveOk(r: Record, io: Io) {
    ValidState(r) && io.Done?
  }

  function Put(w: World, id: OperationId, o: Op): World {
    w.(ops := w.ops[id := o])
  }

  // The worker returns an error: the lock is dropped, the failure is recorded later.
  function Fail(w: World, id: OperationId, o: Op, r: Record, e: ExecutionError): World {
    Put(w, id, o.(worker := Worker(r, Failing(e)))).(holder := if w.holder == WorkerHolds(id) then Free else w.holder)
  }

  function Go(w: World, id: OperationId, o: Op, r: Record, pc: WorkerPc): World {
    Put(w, id, o.(worker := Worker(r, pc)))
  }

  function Leave(w: World, id: OperationId, o: Op): World {
    Put(w, id, o.(worker := NoWorker)).(holder := if w.holder == WorkerHolds(id) then Free else w.holder)
  }

  // --------------------------------------------------------------------- service

  function InitialRecord(contract: Contract): Record {
    Record(contract, 1, AwaitingConfirmation, None, None, Some(Records.Planned), None, Some(Pending))
  }

  function ServiceDo(w: World, s: Step): World {
    match s
    case Create(id, contract, offered) =>
      if id in w.ops || contract.operationId != id || !ValidState(InitialRecord(contract)) then w
      else Put(w, id, Op(InitialRecord(contract), NoWorker, offered, None, []))
    case Start(id) =>
      if id in w.ops && w.ops[id].worker.NoWorker? && w.ops[id].disk.state.AwaitingConfirmation? then
        Go(w, id, w.ops[id], w.ops[id].disk, Starting)
      else w
    case Cancel(id, io) =>
      if id in w.ops && w.ops[id].disk.state.IsCancelable() then
        Put(w, id, SaveTo(w.ops[id], CancelledRecord(w.ops[id].disk), io))
      else w
    case KeepCurrent(id, io) =>
      if id in w.ops && w.ops[id].disk.state.NeedsRecovery? then
        Put(w, id, SaveTo(w.ops[id], DeclinedRecord(w.ops[id].disk), io))
      else w
    case _ => w
  }

  // ---------------------------------------------------------------------- worker

  predicate WorkerAt(w: World, id: OperationId, pc: WorkerPc) {
    id in w.ops && w.ops[id].worker.Worker? && w.ops[id].worker.pc == pc
  }

  // The state a worker saves next and where it goes from there.
  function WorkerTarget(r: Record, pc: WorkerPc, reboot: bool): Option<(OperationState, WorkerPc)> {
    match pc
    case Staged => Some((Downloading, Fetching))
    case Polled => Some((Snapshotting, Unnumbered))
    case NumberSaved => if r.contract.kind.UpdateWithinRelease? then Some((Applying, ApplyingSaved)) else None
    case MarkerSet => Some((ReadyToReboot, MarkerSet))
    case PackagesDone => Some((if reboot then AwaitingReboot else Completed, PackagesDone))
    case _ => None
  }

  // The worker is done once ReadyToReboot, AwaitingReboot or Completed is saved.
  predicate EndsWorker(pc: WorkerPc) {
    pc.MarkerSet? || pc.PackagesDone?
  }

  function WriteAndGo(w: World, id: OperationId, r: Record, next: WorkerPc, io: Io): World
    requires id in w.ops
  {
    var saved := SaveTo(w.ops[id], r, io);
    if !SaveOk(r, io) then Fail(w, id, saved, r, ExecutionError.Persist)
    else if EndsWorker(next) then Leave(w, id, saved)
    else Go(w, id, saved, r, next)
  }

  function WorkerDo(w: World, s: Step): World {
    match s
    case WorkerLock(id) =>
      if !WorkerAt(w, id, Starting) then w
      else
        var o := w.ops[id];
        if w.holder.Free? then Go(w, id, o, o.worker.rec, Locked).(holder := WorkerHolds(id))
        else Fail(w, id, o, o.worker.rec, Busy)
    case WorkerStage(id, written, ok) =>
      if !WorkerAt(w, id, Locked) then w
      else
        var o := w.ops[id];
        var signed := o.disk.contract.kind.IsSignedOffline();
        var staged := if signed && (written || ok) then o.(manifestFile := Some(o.offered)) else o;
        if ok then Go(w, id, staged, o.worker.rec, Staged) else Fail(w, id, staged, o.worker.rec, Stage)
    case WorkerPoll(id, last) =>
      if !WorkerAt(w, id, Fetching) then w
      else
        var o := w.ops[id];
        if o.disk.error == Some(Cancelled) then Fail(w, id, o, o.worker.rec, CancelRequested)
        else if last then Go(w, id, o, o.worker.rec, Polled)
        else w
    case WorkerSave(id, io, reboot) =>
      if WorkerAt(w, id, Numbered) then WriteAndGo(w, id, w.ops[id].worker.rec, NumberSaved, io)
      else if id !in w.ops || w.ops[id].worker.NoWorker? then w
      else
        var r, target := w.ops[id].worker.rec, WorkerTarget(w.ops[id].worker.rec, w.ops[id].worker.pc, reboot);
        if target.None? then w
        else
          var next := TransitionTo(r, target.value.0);
          if next.Err? then Fail(w, id, w.ops[id], r, ExecutionError.Transition)
          else WriteAndGo(w, id, next.value, target.value.1, io)
    case WorkerSnapshot(id, number) =>
      if !WorkerAt(w, id, Unnumbered) || number == 0 then w
      else
        var o := w.ops[id];
        Go(w, id, o.(log := o.log + [SnapshotTaken(number)]), o.worker.rec.(snapshotNumber := Some(number)), Numbered)
    case WorkerMark(id, ok) =>
      if !WorkerAt(w, id, NumberSaved) || !w.ops[id].disk.contract.kind.IsSignedOffline() then w
      else
        var o := w.ops[id];
        if w.marker == Absent then
          var marked := w.(marker := Lyra(id));
          if ok then Go(marked, id, o, o.worker.rec, MarkerSet) else Fail(marked, id, o, o.worker.rec, Stage)
        else if w.marker == Lyra(id) then
          if ok then Go(w, id, o, o.worker.rec, MarkerSet) else Fail(w, id, o, o.worker.rec, Stage)
        else Fail(w, id, o, o.worker.rec, SystemUpdateExists)
    case WorkerApply(id, ok) =>
      if !WorkerAt(w, id, ApplyingSaved) then w
      else
        var o := w.ops[id];
        var applied := o.(log := o.log + [PackagesApplied(o.disk, None, w.counter)]);
        if ok then Go(w, id, applied, o.worker.rec, PackagesDone) else Fail(w, id, applied, o.worker.rec, ExecutionError.Apply)
    case WorkerError(id, e) =>
      // any other failure on the way: commands, revalidation, dracut, grub, audit
      if id in w.ops && w.ops[id].worker.Worker? && !w.ops[id].worker.pc.Failing?
         && !e.CancelRequested? && !e.Busy? then
        Fail(w, id, w.ops[id], w.ops[id].worker.rec, e)
      else w
    case WorkerFail(id, readable, io) =>
      if id !in w.ops || w.ops[id].worker.NoWorker? || !w.ops[id].worker.pc.Failing? then w
      else
        var o := w.ops[id];
        if readable && o.disk.error == Some(Cancelled) then Put(w, id, o.(worker := NoWorker))
        else Put(w, id, SaveTo(o, FailureRecord(o.worker.rec, o.worker.pc.error), io).(worker := NoWorker))
    case _ => w
  }

  // --------------------------------------------------------------- offline worker

  // Boot programs run before any worker thread of that boot is on its way to record a
  // failure after having saved something (see README).
  predicate Quiet(o: Op) {
    o.worker.NoWorker? || o.worker.rec.state.AwaitingConfirmation?
  }

  predicate BootQuiet(w: World) {
    w.holder.Free? && forall id :: id in w.ops ==> Quiet(w.ops[id])
  }

  function OfflineTo(w: World, pc: OfflinePc, r: Record): World
    requires w.holder.OfflineHolds?
  {
    w.(holder := w.holder.(offlinePc := pc, rec := r))
  }

  // The manifest's route is accepted again: its sequence is beyond the counter.
  predicate Fresh(manifest: Option<u64>, counter: Option<u64>) {
    manifest.Some? && manifest.value > 0 && (counter.Some? ==> manifest.value > counter.value)
  }

  function OfflineDo(w: World, s: Step): World {
    if s.OfflineBegin? then
      if s.op in w.ops && BootQuiet(w) then w.(holder := OfflineHolds(s.op, Begun, w.ops[s.op].disk)) else w
    else if !w.holder.OfflineHolds? || w.holder.op !in w.ops then w
    else
      var id, pc, r := w.holder.op, w.holder.offlinePc, w.holder.rec;
      var o := w.ops[id];
      match s
      case OfflineAdvance(ok) =>
        (match pc
         case Begun =>
           var t := TransitionTo(o.disk, ApplyingOffline);
           if ok && w.marker == Lyra(id) && o.disk.state.ReadyToReboot? && o.disk.snapshotNumber.Some? && t.Ok? then
             OfflineTo(w, Prepared, t.value)
           else OfflineTo(w, MarkingRecovery, r)
         case Prepared =>
           if ok && Fresh(o.manifestFile, w.counter) then OfflineTo(w, Authenticated, r)
           else OfflineTo(w, MarkingRecovery, r)
         case Saved => if ok then OfflineTo(w, Revalidated, r) else OfflineTo(w, MarkingRecovery, r)
         case Applied => if ok then w else OfflineTo(w, MarkingRecovery, r)
         // a record that cannot be read back leaves only the marker to remove
         case MarkingRecovery => if !ok && w.marker == Lyra(id) then OfflineTo(w, Unmarking, r) else w
         case _ => w)
      case OfflineApply(ok) =>
        if !pc.Revalidated? then w
        else
          var applied := o.(log := o.log + [PackagesApplied(o.disk, o.manifestFile, w.counter)]);
          OfflineTo(Put(w, id, applied), if ok then Applied else MarkingRecovery, r)
      case OfflineSave(io) =>
        (match pc
         case Authenticated =>
           OfflineTo(Put(w, id, SaveTo(o, r, io)), if SaveOk(r, io) then Saved else MarkingRecovery, r)
         case Applied =>
           var t := TransitionTo(r, AwaitingReboot);
           if t.Err? then OfflineTo(w, MarkingRecovery, r)
           else
             var result := t.value.(lastStep := Some(OfflineApplied));
             OfflineTo(Put(w, id, SaveTo(o, result, io)), if SaveOk(result, io) then Finished else MarkingRecovery, result)
         case MarkingRecovery =>
           if w.marker != Lyra(id) then w.(holder := Free)
           else
             var mark := RecoveryMark(o.disk);
             var saved := Put(w, id, SaveTo(o, mark, io));
             if SaveOk(mark, io) then OfflineTo(saved, Unmarking, r) else saved.(holder := Free)
         case _ => w)
      case OfflineUnmark(ok) =>
        if pc.Finished? then
          if ok && w.marker == Lyra(id) then w.(marker := Absent, holder := Free)
          else OfflineTo(w, MarkingRecovery, r)
        else if pc.Unmarking? then
          w.(marker := if ok && w.marker == Lyra(id) then Absent else w.marker, holder := Free)
        else w
      case _ => w
  }

  // ------------------------------------------------------------ rollback scheduler

  function RollbackTo(w: World, pc: RollbackPc, r: Record): World
    requires w.holder.RollbackHolds?
  {
    w.(holder := w.holder.(rollbackPc := pc, rec := r))
  }

  function RollbackDo(w: World, s: Step): World {
    if s.RollbackBegin? then
      if s.op in w.ops && w.holder.Free? then w.(holder := RollbackHolds(s.op, Asked, w.ops[s.op].disk)) else w
    else if !w.holder.RollbackHolds? || w.holder.op !in w.ops then w
    else
      var id, pc, r := w.holder.op, w.holder.rollbackPc, w.holder.rec;
      var o := w.ops[id];
      match s
      case RollbackLoad(source, ok) =>
        if !pc.Asked? then w
        else if !ok || !o.disk.state.NeedsRecovery? || o.disk.snapshotNumber.None? || !source.Valid()
                || (o.disk.recovery.Some? && o.disk.recovery.value.boot.None?) then
          w.(holder := Free)
        else
          RollbackTo(w, Loaded(RollbackGoal(o.disk.snapshotNumber.value, source, None)), o.disk)
      case RollbackSave(io) =>
        (match pc
         case Loaded(goal) =>
           var intent := IntentRecord(r, goal);
           var saved := SaveTo(o, intent, io);
           var logged := if ValidState(intent) && !io.Lost? then saved.(log := o.log + [IntentSaved]) else saved;
           if SaveOk(intent, io) then RollbackTo(Put(w, id, logged), Intended, intent)
           else Put(w, id, logged).(holder := Free)
         case Confirmable(goal) =>
           var result := ScheduledRecord(r, goal);
           var saved := SaveTo(o, result, io);
           var logged := if ValidState(result) && !io.Lost? then saved.(log := o.log + [CloneConfirmed(goal)]) else saved;
           if SaveOk(result, io) then Put(w, id, logged).(holder := Free)
           else RollbackTo(Put(w, id, logged), Undoing("STATE_WRITE_FAILED"), result)
         case Undoing(code) =>
           var undone := RollbackFailedRecord(r, code);
           var saved := SaveTo(o, undone, io);
           var logged :=
             if ValidState(undone) && !io.Lost? && r.recovery.Some? && r.recovery.value.boot.Some? && r.recovery != o.disk.recovery
             then saved.(log := o.log + [CloneConfirmed(r.recovery.value)]) else saved;
           Put(w, id, logged).(holder := Free)
         case _ => w)
      case RollbackExecute(ok) =>
        if !pc.Intended? then w
        else
          var ran := Put(w, id, o.(log := o.log + [RollbackRun(o.disk)]));
          RollbackTo(ran, if ok then Ran else Undoing("ROLLBACK_FAILED"), r)
      case RollbackInspect(clone, ok) =>
        if !pc.Ran? || r.recovery.None? then w
        else
          var goal := r.recovery.value;
          if ok && clone.Valid() && clone.parentUuid == Some(goal.source.uuid) then
            RollbackTo(w, Confirmable(goal.(boot := Some(clone))), r)
          else RollbackTo(w, Undoing("ROLLBACK_RESULT_INVALID"), r)
      case _ => w
  }

  // ----------------------------------------------------------------- boot verifier

  predicate IsInterrupted(r: Record, marker: Marker) {
    LeftInFlight(r, if marker.Lyra? then Some(marker.id) else None)
  }

  // The interrupted records of a scan, in directory order.
  function InterruptedIn(w: World, entries: seq<OperationId>): seq<Record>
    requires forall id :: id in entries ==> id in w.ops
  {
    if entries == [] then []
    else
      var r := w.ops[entries[0]].disk;
      (if IsInterrupted(r, w.marker) then [r] else []) + InterruptedIn(w, entries[1..])
  }

  // A directory listing: every operation once.
  predicate Lists(w: World, entries: seq<OperationId>) {
    && (forall id :: id in entries ==> id in w.ops)
    && (forall id :: id in w.ops ==> id in entries)
    && (forall i, j :: 0 <= i < j < |entries| ==> entries[i] != entries[j])
  }

  // The scan selects one of the candidates, if there is any.
  predicate Selects(w: World, first: Option<OperationId>) {
    match first
    case None => forall id :: id in w.ops ==> !IsCandidate(w.ops[id].disk)
    case Some(id) => id in w.ops && IsCandidate(w.ops[id].disk)
  }

  function VerifierTo(w: World, pc: VerifierPc): World
    requires w.holder.VerifierHolds?
  {
    w.(holder := w.holder.(verifierPc := pc))
  }

  function VerifierDo(w: World, s: Step): World {
    if s.VerifierBegin? then
      if BootQuiet(w) then w.(holder := VerifierHolds(Scanning, [], None)) else w
    else if !w.holder.VerifierHolds? then w
    else
      var pc, queue, candidate := w.holder.verifierPc, w.holder.queue, w.holder.candidate;
      match s
      case VerifierScan(entries, first) =>
        if !pc.Scanning? || !Lists(w, entries) || !Selects(w, first) then w
        else
          w.(holder := VerifierHolds(Reconciling, InterruptedIn(w, entries),
                                     if first.None? then None else Some(w.ops[first.value].disk)))
      case VerifierSave(io) =>
        if pc.Reconciling? && queue != [] then
          var r := queue[0];
          var id := r.contract.operationId;
          if id !in w.ops || InterruptedState(r.state).None? then w.(holder := Free)  // panics
          else
            var fixed := ReconciledRecord(r);
            var saved := Put(w, id, SaveTo(w.ops[id], fixed, io));
            if SaveOk(fixed, io) then saved.(holder := VerifierHolds(Reconciling, queue[1..], candidate))
            else saved.(holder := Free)
        else if pc.Reconciling? && candidate.None? then w.(holder := Free)
        else if candidate.None? || candidate.value.contract.operationId !in w.ops then w
        else
          var r := candidate.value;
          var id := r.contract.operationId;
          if pc.Reconciling? then
            var t := if r.state.AwaitingReboot? then TransitionTo(r, VerifyingBoot) else Ok(r);
            if t.Err? then w.(holder := Free)  // panics
            else
              var saved := Put(w, id, SaveTo(w.ops[id], t.value, io));
              if SaveOk(t.value, io) then saved.(holder := VerifierHolds(VerifierPc.Checking, [], Some(t.value)))
              else saved.(holder := Free)
          else if pc.Persisting? then
            Put(w, id, SaveTo(w.ops[id], r, io)).(holder := Free)
          else w
      case VerifierCheck(passed, code) =>
        if pc.Checking? then VerifierTo(w, Checked(passed, code)) else w
      case VerifierFinalize(io) =>
        if !pc.Checked? || candidate.None? || candidate.value.contract.operationId !in w.ops then w
        else
          var r, passed := candidate.value, pc.passed;
          var manifest := w.ops[r.contract.operationId].manifestFile;
          // `write_sequence` is reached only for a passed, signed, unrecovered operation
          var storable := manifest.Some? && (w.counter.None? || w.counter.value <= manifest.value);
          var written := storable && io.Done?;
          var counter := if passed && AdvancesCounter(r) && storable && !io.Lost? then manifest else w.counter;
          var result := Finalized(r, passed, written);
          var final := if passed then result else result.(error := Some(Execution(pc.code)));
          w.(counter := counter, holder := VerifierHolds(Persisting, [], Some(final)))
      case _ => w
  }

  // -------------------------------------------------------------------- the system

  // A crash loses every process and the lock; the disk, the marker and the counter stay.
  function CrashDo(w: World): World {
    w.(holder := Free, ops := map id | id in w.ops :: w.ops[id].(worker := NoWorker))
  }

  function KillWorkerDo(w: World, id: OperationId): World {
    if id in w.ops then Leave(w, id, w.ops[id]) else w
  }

  function Do(w: World, s: Step): World {
    match s
    case Crash => CrashDo(w)
    case KillHolder =>
      if w.holder.WorkerHolds? then KillWorkerDo(w, w.holder.op) else w.(holder := Free)
    case KillWorker(id) => KillWorkerDo(w, id)
    case ForeignMarker(present) => w.(marker := if present then Foreign else Absent)
    case _ =>
      if s.Create? || s.Start? || s.Cancel? || s.KeepCurrent? then ServiceDo(w, s)
      else if s.OfflineBegin? || s.OfflineAdvance? || s.OfflineSave? || s.OfflineApply? || s.OfflineUnmark? then OfflineDo(w, s)
      else if s.RollbackBegin? || s.RollbackLoad? || s.RollbackSave? || s.RollbackExecute? || s.RollbackInspect? then RollbackDo(w, s)
      else if s.VerifierBegin? || s.VerifierScan? || s.VerifierSave? || s.VerifierCheck? || s.VerifierFinalize? then VerifierDo(w, s)
      else WorkerDo(w, s)
  }

  function Run(steps: seq<Step>): World {
    if steps == [] then Initial else Do(Run(steps[..|steps| - 1]), steps[|steps| - 1])
  }
}
