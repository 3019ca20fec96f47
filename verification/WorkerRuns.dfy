/** The worker of an operation when nothing fails: what it saves, in which order, and where
    it ends. */
module WorkerRuns {
  import opened Wrappers
  import opened Decimal
  import opened Operation
  import opened Records
  import opened Protocol
  import opened Traces
  import opened ProtocolInvariant
  import opened ProtocolSteps
  import opened ProtocolWrites
  import opened ProtocolTheorems

  // A world with one operation.
  function Single(o: Op, marker: Marker, holder: Holder): World {
    World(map[o.disk.contract.operationId := o], marker, holder, None)
  }

  lemma PutSingle(o: Op, marker: Marker, holder: Holder, o': Op)
    requires o'.disk.contract == o.disk.contract
    ensures Put(Single(o, marker, holder), o.disk.contract.operationId, o') == Single(o', marker, holder)
  {}

  function Next(r: Record, s: OperationState): Record {
    if TransitionTo(r, s).Ok? then TransitionTo(r, s).value else r
  }

  function Snapshotted(contract: Contract, number: u64): Record {
    Next(Next(InitialRecord(contract), Downloading), Snapshotting).(snapshotNumber := Some(number))
  }

  function Ready(contract: Contract, number: u64): Record {
    Next(Snapshotted(contract, number), ReadyToReboot)
  }

  // The manifest that staging leaves: signed operations have one.
  function StagedManifest(contract: Contract, offered: u64): Option<u64> {
    if contract.kind.IsSignedOffline() then Some(offered) else None
  }

  // A signed operation up to its marker and ReadyToReboot.
  function Signs(contract: Contract, offered: u64, number: u64): seq<Step> {
    var id := contract.operationId;
    [Create(id, contract, offered), Start(id), WorkerLock(id), WorkerStage(id, true, true),
     WorkerSave(id, Done, false), WorkerPoll(id, true), WorkerSave(id, Done, false),
     WorkerSnapshot(id, number), WorkerSave(id, Done, false), WorkerMark(id, true), WorkerSave(id, Done, false)]
  }

  // All records on the way pass the gate, and none is cancelled.
  lemma RecordsPass(contract: Contract, number: u64)
    requires contract.Valid() && number > 0
    ensures var r0 := InitialRecord(contract);
            var r1 := Next(r0, Downloading);
            var r2 := Next(r1, Snapshotting);
            var r3, r4 := Snapshotted(contract, number), Ready(contract, number);
            && ValidState(r0) && r0.state.AwaitingConfirmation? && r0.contract == contract
            && TransitionTo(r0, Downloading) == Ok(r1) && ValidState(r1) && r1.state.Downloading? && r1.error.None? && r1.contract == contract
            && TransitionTo(r1, Snapshotting) == Ok(r2) && ValidState(r2) && r2.state.Snapshotting? && r2.contract == contract
            && r3 == r2.(snapshotNumber := Some(number)) && ValidState(r3) && r3.contract == contract
            && r2.snapshotNumber.None? && r3.state.Snapshotting? && r3.snapshotNumber == Some(number)
            && (contract.kind.IsSignedOffline() ==>
                  && TransitionTo(r3, ReadyToReboot) == Ok(r4) && ValidState(r4) && r4.state.ReadyToReboot? && r4.contract == contract
                  && r4.snapshotNumber == Some(number))
  {
    hide IsSha256;
  }

  // A saved record in a world of one operation.
  lemma WorkerSaves(o: Op, holder: Holder, marker: Marker, next: OperationState, pc: WorkerPc, reboot: bool)
    requires o.worker.Worker? && !o.worker.pc.Numbered? && o.worker.rec.contract == o.disk.contract
    requires WorkerTarget(o.worker.rec, o.worker.pc, reboot) == Some((next, pc))
    requires TransitionTo(o.worker.rec, next).Ok? && ValidState(TransitionTo(o.worker.rec, next).value)
    requires TransitionTo(o.worker.rec, next).value.contract == o.disk.contract
    requires holder == WorkerHolds(o.disk.contract.operationId)
    ensures var id, r := o.disk.contract.operationId, TransitionTo(o.worker.rec, next).value;
            Do(Single(o, marker, holder), WorkerSave(id, Done, reboot)) ==
              if EndsWorker(pc) then Single(o.(disk := r, worker := NoWorker), marker, Free)
              else Single(o.(disk := r, worker := Worker(r, pc)), marker, holder)
  {
    hide ValidState, TransitionTo, WorkerTarget;
    var r := TransitionTo(o.worker.rec, next).value;
    var saved := o.(disk := r);
    PutSingle(o, marker, holder, saved);
    PutSingle(o, marker, holder, saved.(worker := Worker(r, pc)));
    PutSingle(o, marker, holder, saved.(worker := NoWorker));
  }

  // The steps of the worker that save nothing.
  lemma WorkerMoves(o: Op, holder: Holder, marker: Marker, s: Step, o': Op, holder': Holder, marker': Marker)
    requires o'.disk == o.disk && IsWorkerStep(s) && s.op == o.disk.contract.operationId
    requires WorkerDo(Single(o, marker, holder), s) == Put(Single(o, marker, holder), s.op, o').(holder := holder', marker := marker')
    ensures Do(Single(o, marker, holder), s) == Single(o', marker', holder')
  {
    hide WorkerDo;
    DoesWork(Single(o, marker, holder), s);
    PutSingle(o, marker, holder, o');
  }

  lemma WorkerStarts(contract: Contract, offered: u64)
    requires contract.Valid()
    ensures var id, r0 := contract.operationId, InitialRecord(contract);
            Do(Do(Do(Do(Initial, Create(id, contract, offered)), Start(id)), WorkerLock(id)), WorkerStage(id, true, true))
            == Single(Op(r0, Worker(r0, Staged), offered, StagedManifest(contract, offered), []), Absent, WorkerHolds(id))
  {
    hide IsSha256, Do, WorkerDo;
    var id, r0 := contract.operationId, InitialRecord(contract);
    CreatesAndStarts(Initial, contract, offered);
    var o := Op(r0, Worker(r0, Starting), offered, None, []);
    assert Initial.(ops := Initial.ops[id := o]) == Single(o, Absent, Free);
    var locked := o.(worker := Worker(r0, Locked));
    StartedSteps(o);
    WorkerMoves(o, Free, Absent, WorkerLock(id), locked, WorkerHolds(id), Absent);
    WorkerMoves(locked, WorkerHolds(id), Absent, WorkerStage(id, true, true),
                o.(worker := Worker(r0, Staged), manifestFile := StagedManifest(contract, offered)), WorkerHolds(id), Absent);
  }

  lemma StartedSteps(o: Op)
    requires o.worker == Worker(o.disk, Starting) && o.manifestFile.None?
    ensures var id, locked := o.disk.contract.operationId, o.(worker := Worker(o.disk, Locked));
            && WorkerDo(Single(o, Absent, Free), WorkerLock(id))
               == Put(Single(o, Absent, Free), id, locked).(holder := WorkerHolds(id), marker := Absent)
            && WorkerDo(Single(locked, Absent, WorkerHolds(id)), WorkerStage(id, true, true))
               == Put(Single(locked, Absent, WorkerHolds(id)), id,
                      o.(worker := Worker(o.disk, Staged), manifestFile := StagedManifest(o.disk.contract, o.offered))).(holder := WorkerHolds(id), marker := Absent)
  {
    hide TransitionTo, WriteAndGo;
  }

  lemma QuietSteps(o: Op, number: u64)
    requires o.worker.Worker? && number > 0
    ensures var id, holder := o.disk.contract.operationId, WorkerHolds(o.disk.contract.operationId);
            var w := Single(o, Absent, holder);
            && (o.worker.pc.Fetching? && o.disk.error.None? ==>
                  WorkerDo(w, WorkerPoll(id, true))
                  == Put(w, id, o.(worker := Worker(o.worker.rec, Polled))).(holder := holder, marker := Absent))
            && (o.worker.pc.Unnumbered? ==>
                  WorkerDo(w, WorkerSnapshot(id, number))
                  == Put(w, id, o.(worker := Worker(o.worker.rec.(snapshotNumber := Some(number)), Numbered),
                                   log := o.log + [SnapshotTaken(number)])).(holder := holder, marker := Absent))
            && (o.worker.pc.NumberSaved? && o.disk.contract.kind.IsSignedOffline() ==>
                  WorkerDo(w, WorkerMark(id, true))
                  == Put(w, id, o.(worker := Worker(o.worker.rec, MarkerSet))).(holder := holder, marker := Lyra(id)))
  {
    hide TransitionTo, WriteAndGo;
  }

  lemma NumberSaves(o: Op)
    requires o.worker.Worker? && o.worker.pc.Numbered? && ValidState(o.worker.rec) && o.worker.rec.contract == o.disk.contract
    ensures var id, r := o.disk.contract.operationId, o.worker.rec;
            Do(Single(o, Absent, WorkerHolds(id)), WorkerSave(id, Done, false))
            == Single(o.(disk := r, worker := Worker(r, NumberSaved)), Absent, WorkerHolds(id))
  {
    hide ValidState, TransitionTo, WorkerTarget;
    var r := o.worker.rec;
    PutSingle(o, Absent, WorkerHolds(o.disk.contract.operationId), o.(disk := r));
    PutSingle(o, Absent, WorkerHolds(o.disk.contract.operationId), o.(disk := r, worker := Worker(r, NumberSaved)));
  }

  function Taken(number: u64): seq<Effect> {
    [SnapshotTaken(number)]
  }

  // The worker from its staged plan to a numbered snapshot, world by world.
  function DownloadingOp(contract: Contract, offered: u64): Op {
    var r := Next(InitialRecord(contract), Downloading);
    Op(r, Worker(r, Fetching), offered, StagedManifest(contract, offered), [])
  }

  function SnapshottingOp(contract: Contract, offered: u64): Op {
    var r := Next(Next(InitialRecord(contract), Downloading), Snapshotting);
    Op(r, Worker(r, Unnumbered), offered, StagedManifest(contract, offered), [])
  }

  function NumberedOp(contract: Contract, offered: u64, number: u64): Op {
    var r := Snapshotted(contract, number);
    Op(r, Worker(r, NumberSaved), offered, StagedManifest(contract, offered), Taken(number))
  }

  lemma WorkerGoesOn(contract: Contract, offered: u64, number: u64)
    requires contract.Valid() && number > 0
    ensures var id, r0 := contract.operationId, InitialRecord(contract);
            var w4 := Single(Op(r0, Worker(r0, Staged), offered, StagedManifest(contract, offered), []), Absent, WorkerHolds(id));
            var w5 := Single(DownloadingOp(contract, offered), Absent, WorkerHolds(id));
            var w7 := Single(SnapshottingOp(contract, offered), Absent, WorkerHolds(id));
            var w9 := Single(NumberedOp(contract, offered, number), Absent, WorkerHolds(id));
            && Do(w4, WorkerSave(id, Done, false)) == w5
            && Do(Do(w5, WorkerPoll(id, true)), WorkerSave(id, Done, false)) == w7
            && Do(Do(w7, WorkerSnapshot(id, number)), WorkerSave(id, Done, false)) == w9
  {
    hide Do, WorkerDo, TransitionTo, ValidState, InitialRecord, Snapshotted, Ready, Next;
    RecordsPass(contract, number);
    var id, r0 := contract.operationId, InitialRecord(contract);
    var r1 := Next(r0, Downloading);
    var r2 := Next(r1, Snapshotting);
    var o0 := Op(r0, Worker(r0, Staged), offered, StagedManifest(contract, offered), []);
    WorkerSaves(o0, WorkerHolds(id), Absent, Downloading, Fetching, false);
    var o1 := o0.(disk := r1, worker := Worker(r1, Fetching));
    QuietSteps(o1, number);
    var o2 := o1.(worker := Worker(r1, Polled));
    WorkerMoves(o1, WorkerHolds(id), Absent, WorkerPoll(id, true), o2, WorkerHolds(id), Absent);
    WorkerSaves(o2, WorkerHolds(id), Absent, Snapshotting, Unnumbered, false);
    var o3 := o2.(disk := r2, worker := Worker(r2, Unnumbered));
    QuietSteps(o3, number);
    var o4 := o3.(worker := Worker(Snapshotted(contract, number), Numbered), log := Taken(number));
    assert o3.log + [SnapshotTaken(number)] == Taken(number);
    WorkerMoves(o3, WorkerHolds(id), Absent, WorkerSnapshot(id, number), o4, WorkerHolds(id), Absent);
    NumberSaves(o4);
  }

  lemma SigningEnds(contract: Contract, offered: u64, number: u64)
    requires contract.Valid() && contract.kind.IsSignedOffline() && number > 0
    ensures var id, r := contract.operationId, Snapshotted(contract, number);
            var w := Single(Op(r, Worker(r, NumberSaved), offered, StagedManifest(contract, offered), Taken(number)), Absent, WorkerHolds(id));
            Do(Do(w, WorkerMark(id, true)), WorkerSave(id, Done, false))
            == Single(Op(Ready(contract, number), NoWorker, offered, StagedManifest(contract, offered), Taken(number)), Lyra(id), Free)
  {
    hide Do, WorkerDo, TransitionTo, ValidState, InitialRecord, Snapshotted, Ready, Next;
    RecordsPass(contract, number);
    var id, r := contract.operationId, Snapshotted(contract, number);
    var o := Op(r, Worker(r, NumberSaved), offered, StagedManifest(contract, offered), Taken(number));
    QuietSteps(o, number);
    var marked := o.(worker := Worker(r, MarkerSet));
    WorkerMoves(o, WorkerHolds(id), Absent, WorkerMark(id, true), marked, WorkerHolds(id), Lyra(id));
    WorkerSaves(marked, WorkerHolds(id), Lyra(id), ReadyToReboot, MarkerSet, false);
  }


  // --------------------------------------------------------------- an update, to its end

  function Applying(contract: Contract, number: u64): Record {
    Next(Snapshotted(contract, number), OperationState.Applying)
  }

  function UpdateEnd(reboot: bool): OperationState {
    if reboot then AwaitingReboot else Completed
  }

  lemma UpdateRecordsPass(contract: Contract, number: u64, reboot: bool)
    requires contract.Valid() && contract.kind.UpdateWithinRelease? && number > 0
    ensures var r, a := Snapshotted(contract, number), Applying(contract, number);
            var end := Next(a, UpdateEnd(reboot));
            && TransitionTo(r, OperationState.Applying) == Ok(a) && ValidState(a) && a.state.Applying? && a.contract == contract
            && TransitionTo(a, UpdateEnd(reboot)) == Ok(end) && ValidState(end) && end.contract == contract
            && end.state == UpdateEnd(reboot)
  {
    hide IsSha256;
    RecordsPass(contract, number);
  }

  lemma UpdateEnds(contract: Contract, offered: u64, number: u64, reboot: bool)
    requires contract.Valid() && contract.kind.UpdateWithinRelease? && number > 0
    ensures var id, a := contract.operationId, Applying(contract, number);
            var w9 := Single(NumberedOp(contract, offered, number), Absent, WorkerHolds(id));
            var w10 := Single(Op(a, Worker(a, ApplyingSaved), offered, None, Taken(number)), Absent, WorkerHolds(id));
            && Do(w9, WorkerSave(id, Done, false)) == w10
            && Do(Do(w10, WorkerApply(id, true)), WorkerSave(id, Done, reboot))
               == Single(Op(Next(a, UpdateEnd(reboot)), NoWorker, offered, None, Taken(number) + [PackagesApplied(a, None, None)]), Absent, Free)
  {
    hide Do, WorkerDo, TransitionTo, ValidState, InitialRecord, Snapshotted, Applying, Next;
    RecordsPass(contract, number);
    UpdateRecordsPass(contract, number, reboot);
    var id, a := contract.operationId, Applying(contract, number);
    var o := NumberedOp(contract, offered, number);
    WorkerSaves(o, WorkerHolds(id), Absent, OperationState.Applying, ApplyingSaved, false);
    var o10 := Op(a, Worker(a, ApplyingSaved), offered, None, Taken(number));
    PackagesGo(o10);
    var o11 := o10.(worker := Worker(a, PackagesDone), log := Taken(number) + [PackagesApplied(a, None, None)]);
    WorkerMoves(o10, WorkerHolds(id), Absent, WorkerApply(id, true), o11, WorkerHolds(id), Absent);
    WorkerSaves(o11, WorkerHolds(id), Absent, UpdateEnd(reboot), PackagesDone, reboot);
  }

  lemma PackagesGo(o: Op)
    requires o.worker.Worker? && o.worker.pc.ApplyingSaved?
    ensures var id := o.disk.contract.operationId;
            var w := Single(o, Absent, WorkerHolds(id));
            WorkerDo(w, WorkerApply(id, true))
            == Put(w, id, o.(worker := Worker(o.worker.rec, PackagesDone), log := o.log + [PackagesApplied(o.disk, None, None)]))
               .(holder := WorkerHolds(id), marker := Absent)
  {
    hide TransitionTo, WriteAndGo;
  }

  // All steps of an update.
  function Updates(contract: Contract, offered: u64, number: u64, reboot: bool): seq<Step> {
    var id := contract.operationId;
    [Create(id, contract, offered), Start(id), WorkerLock(id), WorkerStage(id, true, true),
     WorkerSave(id, Done, false), WorkerPoll(id, true), WorkerSave(id, Done, false),
     WorkerSnapshot(id, number), WorkerSave(id, Done, false), WorkerSave(id, Done, false),
     WorkerApply(id, true), WorkerSave(id, Done, reboot)]
  }

  // The record of an operation after k steps of a run.
  ghost predicate OnDisk(steps: seq<Step>, k: nat, id: OperationId, state: OperationState, number: Option<u64>) {
    && k <= |steps| && id in Run(steps[..k]).ops
    && Run(steps[..k]).ops[id].disk.state == state && Run(steps[..k]).ops[id].disk.snapshotNumber == number
  }

  // No process is left at the operation, and the lock is free.
  ghost predicate AtRest(w: World, id: OperationId, marker: Marker, manifest: Option<u64>) {
    && id in w.ops && w.ops[id].worker.NoWorker? && w.holder.Free? && w.marker == marker
    && w.ops[id].manifestFile == manifest
  }

  ghost predicate OnlySnapshot(w: World, id: OperationId, number: u64) {
    id in w.ops && w.ops[id].log == [SnapshotTaken(number)]
  }

  ghost predicate AppliedOnce(w: World, id: OperationId, number: u64) {
    && id in w.ops && |w.ops[id].log| == 2 && w.ops[id].log[0] == SnapshotTaken(number)
    && w.ops[id].log[1].PackagesApplied? && w.ops[id].log[1].persisted.state == OperationState.Applying
    && w.ops[id].log[1].persisted.snapshotNumber == Some(number)
  }

  lemma NextOf(steps: seq<Step>, k: nat)
    requires k < |steps|
    ensures Run(steps[..k + 1]) == Do(Run(steps[..k]), steps[k])
  {
    hide Do;
    assert steps[..k + 1][..k] == steps[..k];
  }

  lemma NoStepYet(steps: seq<Step>)
    ensures Run(steps[..0]) == Initial
  {}

  lemma CommonStart(steps: seq<Step>, contract: Contract, offered: u64)
    requires contract.Valid() && |steps| >= 4
    requires var id := contract.operationId;
             && steps[0] == Create(id, contract, offered) && steps[1] == Start(id)
             && steps[2] == WorkerLock(id) && steps[3] == WorkerStage(id, true, true)
    ensures var id, r := contract.operationId, InitialRecord(contract);
            Run(steps[..4]) == Single(Op(r, Worker(r, Staged), offered, StagedManifest(contract, offered), []), Absent, WorkerHolds(id))
  {
    hide Do, Run, Single, InitialRecord, StagedManifest;
    WorkerStarts(contract, offered);
    NoStepYet(steps);
    NextOf(steps, 0);
    NextOf(steps, 1);
    NextOf(steps, 2);
    NextOf(steps, 3);
  }

  // The nine steps that all kinds of operations share.
  lemma CommonRun(steps: seq<Step>, contract: Contract, offered: u64, number: u64)
    requires contract.Valid() && number > 0 && |steps| >= 9
    requires var id := contract.operationId;
             && steps[0] == Create(id, contract, offered) && steps[1] == Start(id)
             && steps[2] == WorkerLock(id) && steps[3] == WorkerStage(id, true, true)
             && steps[4] == WorkerSave(id, Done, false) && steps[5] == WorkerPoll(id, true)
             && steps[6] == WorkerSave(id, Done, false) && steps[7] == WorkerSnapshot(id, number)
             && steps[8] == WorkerSave(id, Done, false)
    ensures var id := contract.operationId;
            && Run(steps[..5]) == Single(DownloadingOp(contract, offered), Absent, WorkerHolds(id))
            && Run(steps[..7]) == Single(SnapshottingOp(contract, offered), Absent, WorkerHolds(id))
            && Run(steps[..9]) == Single(NumberedOp(contract, offered, number), Absent, WorkerHolds(id))
  {
    hide Do, Run, Single, DownloadingOp, SnapshottingOp, NumberedOp, InitialRecord, StagedManifest;
    CommonStart(steps, contract, offered);
    WorkerGoesOn(contract, offered, number);
    NextOf(steps, 4);
    NextOf(steps, 5);
    NextOf(steps, 6);
    NextOf(steps, 7);
    NextOf(steps, 8);
  }

  lemma CommonRecords(contract: Contract, offered: u64, number: u64)
    requires contract.Valid() && number > 0
    ensures var id := contract.operationId;
            && DownloadingOp(contract, offered).disk.contract == contract && SnapshottingOp(contract, offered).disk.contract == contract
            && NumberedOp(contract, offered, number).disk.contract == contract
            && DownloadingOp(contract, offered).disk.state == Downloading
            && DownloadingOp(contract, offered).disk.snapshotNumber == None
            && SnapshottingOp(contract, offered).disk.state == Snapshotting
            && SnapshottingOp(contract, offered).disk.snapshotNumber == None
            && NumberedOp(contract, offered, number).disk.state == Snapshotting
            && NumberedOp(contract, offered, number).disk.snapshotNumber == Some(number)
  {
    hide IsSha256, ValidState;
    RecordsPass(contract, number);
  }

  // An update that nothing disturbs is persisted as Downloading, Snapshotting, with its
  // number, Applying, and then as AwaitingReboot if it needs a reboot and as Completed if
  // not; it has taken one snapshot and applied its packages once, and nothing is held.
  lemma UpdateRuns(contract: Contract, offered: u64, number: u64, reboot: bool)
    requires contract.Valid() && contract.kind.UpdateWithinRelease? && number > 0
    ensures var steps, id := Updates(contract, offered, number, reboot), contract.operationId;
            && OnDisk(steps, 5, id, Downloading, None)
            && OnDisk(steps, 7, id, Snapshotting, None)
            && OnDisk(steps, 9, id, Snapshotting, Some(number))
            && OnDisk(steps, 10, id, OperationState.Applying, Some(number))
            && OnDisk(steps, 12, id, if reboot then AwaitingReboot else Completed, Some(number))
            && AtRest(Run(steps), id, Absent, None)
            && AppliedOnce(Run(steps), id, number)
  {
    hide Do, Run, DownloadingOp, SnapshottingOp, NumberedOp, ValidState, TransitionTo, Snapshotted, InitialRecord, Next, Applying;
    var steps, id := Updates(contract, offered, number, reboot), contract.operationId;
    CommonRun(steps, contract, offered, number);
    CommonRecords(contract, offered, number);
    UpdateEnds(contract, offered, number, reboot);
    UpdateRecordsPass(contract, number, reboot);
    UpdateNumbers(contract, number, reboot);
    NextOf(steps, 9);
    NextOf(steps, 10);
    NextOf(steps, 11);
    assert steps[..12] == steps;
  }

  lemma UpdateNumbers(contract: Contract, number: u64, reboot: bool)
    requires contract.Valid() && contract.kind.UpdateWithinRelease? && number > 0
    ensures Applying(contract, number).snapshotNumber == Some(number)
    ensures Next(Applying(contract, number), UpdateEnd(reboot)).snapshotNumber == Some(number)
  {}

  // A signed operation that nothing disturbs is persisted as Downloading, Snapshotting,
  // with its number, and ReadyToReboot, with the marker at it and nothing held.
  lemma SignedRuns(contract: Contract, offered: u64, number: u64)
    requires contract.Valid() && contract.kind.IsSignedOffline() && number > 0
    ensures var steps, id := Signs(contract, offered, number), contract.operationId;
            && OnDisk(steps, 5, id, Downloading, None)
            && OnDisk(steps, 7, id, Snapshotting, None)
            && OnDisk(steps, 9, id, Snapshotting, Some(number))
            && OnDisk(steps, 11, id, ReadyToReboot, Some(number))
            && AtRest(Run(steps), id, Lyra(id), Some(offered))
            && OnlySnapshot(Run(steps), id, number)
  {
    hide Do, Run, DownloadingOp, SnapshottingOp, NumberedOp, ValidState, TransitionTo, Snapshotted, InitialRecord, Next, Ready;
    var steps, id := Signs(contract, offered, number), contract.operationId;
    CommonRun(steps, contract, offered, number);
    CommonRecords(contract, offered, number);
    SigningEnds(contract, offered, number);
    RecordsPass(contract, number);
    NumberedIs(contract, offered, number);
    NextOf(steps, 9);
    NextOf(steps, 10);
    assert steps[..11] == steps;
  }

  lemma NumberedIs(contract: Contract, offered: u64, number: u64)
    ensures NumberedOp(contract, offered, number)
            == Op(Snapshotted(contract, number), Worker(Snapshotted(contract, number), NumberSaved), offered,
                  StagedManifest(contract, offered), Taken(number))
  {}

  // ------------------------------------------------------------ whatever came before

  lemma WorkersOp(w: World, id: OperationId)
    requires Inv(w) && id in w.ops && w.ops[id].worker.Worker?
    ensures OpOk(id, w.ops[id])
    ensures Legal(w.ops[id].log)
    ensures WorkerOk(w.ops[id].disk, w.ops[id].worker.rec, w.ops[id].worker.pc, Replay(w.ops[id].log).value)
    ensures w.ops[id].worker.rec.contract.Valid()
  {
    hide HolderOk, LockOk, MarkerOk, Replay;
    assert OpOk(id, w.ops[id]);
  }

  // The state that a worker saves next, by where it stands.
  function SavedNext(pc: WorkerPc, kind: OperationKind, reboot: bool): Option<OperationState> {
    match pc
    case Staged => Some(Downloading)
    case Polled => Some(Snapshotting)
    case NumberSaved => if kind.UpdateWithinRelease? then Some(OperationState.Applying) else None
    case MarkerSet => if kind.UpdateWithinRelease? then None else Some(ReadyToReboot)
    case PackagesDone => if reboot then Some(AwaitingReboot) else Some(Completed)
    case _ => None
  }

  lemma AimsAt(d: Record, r: Record, pc: WorkerPc, t: Trace, reboot: bool)
    requires WorkerOk(d, r, pc, t) && r.contract.Valid() && SavedNext(pc, d.contract.kind, reboot).Some?
    ensures WorkerTarget(r, pc, reboot).Some?
    ensures WorkerTarget(r, pc, reboot).value.0 == SavedNext(pc, d.contract.kind, reboot).value
    ensures TransitionTo(r, SavedNext(pc, d.contract.kind, reboot).value).Ok?
  {}

  lemma OneSave(w: World, id: OperationId, reboot: bool)
    requires id in w.ops && w.ops[id].worker.Worker? && !w.ops[id].worker.pc.Numbered?
    requires WorkerTarget(w.ops[id].worker.rec, w.ops[id].worker.pc, reboot).Some?
    requires TransitionTo(w.ops[id].worker.rec, WorkerTarget(w.ops[id].worker.rec, w.ops[id].worker.pc, reboot).value.0).Ok?
    requires var next := TransitionTo(w.ops[id].worker.rec, WorkerTarget(w.ops[id].worker.rec, w.ops[id].worker.pc, reboot).value.0).value;
             ValidState(next)
    ensures var w', target := WorkerDo(w, WorkerSave(id, Done, reboot)), WorkerTarget(w.ops[id].worker.rec, w.ops[id].worker.pc, reboot).value;
            && id in w'.ops && w'.ops[id].disk == TransitionTo(w.ops[id].worker.rec, target.0).value
            && w'.ops[id].worker == if EndsWorker(target.1) then NoWorker else Worker(w'.ops[id].disk, target.1)
  {
    hide ValidState, TransitionTo, WorkerTarget;
  }

  lemma TransitionState(r: Record, next: OperationState)
    requires TransitionTo(r, next).Ok?
    ensures TransitionTo(r, next).value.state == next
  {}

  // In every run, what a worker's save leaves on disk, by where the worker stands.
  lemma SavesAre(w: World, id: OperationId, reboot: bool)
    requires Inv(w) && id in w.ops && w.ops[id].worker.Worker?
    requires SavedNext(w.ops[id].worker.pc, w.ops[id].disk.contract.kind, reboot).Some?
    ensures var w' := Do(w, WorkerSave(id, Done, reboot));
            && id in w'.ops
            && Some(w'.ops[id].disk.state) == SavedNext(w.ops[id].worker.pc, w.ops[id].disk.contract.kind, reboot)
            && (w'.ops[id].worker.NoWorker? <==> w.ops[id].worker.pc.MarkerSet? || w.ops[id].worker.pc.PackagesDone?)
  {
    hide Inv, ValidState, Replay, OpOk, Do, WorkerDo, WorkerOk, TransitionTo, WorkerTarget, SavedNext;
    WorkersOp(w, id);
    var o := w.ops[id];
    AimsAt(o.disk, o.worker.rec, o.worker.pc, Replay(o.log).value, reboot);
    NotNumbered(o.worker.pc, o.disk.contract.kind, reboot);
    WorkerWriteOk(w, WorkerSave(id, Done, reboot));
    OneSave(w, id, reboot);
    DoesWork(w, WorkerSave(id, Done, reboot));
    TransitionState(o.worker.rec, WorkerTarget(o.worker.rec, o.worker.pc, reboot).value.0);
    TargetEnds(o.worker.rec, o.worker.pc, reboot);
  }

  lemma NotNumbered(pc: WorkerPc, kind: OperationKind, reboot: bool)
    ensures SavedNext(pc, kind, reboot).Some? ==> !pc.Numbered?
  {}

  lemma TargetEnds(r: Record, pc: WorkerPc, reboot: bool)
    ensures WorkerTarget(r, pc, reboot).Some? ==>
              (EndsWorker(WorkerTarget(r, pc, reboot).value.1) <==> pc.MarkerSet? || pc.PackagesDone?)
  {}

  // ------------------------------------------------------------- how it gets completed

  lemma WorkerCompletes(w: World, s: Step)
    requires Inv(w) && WorkerWrite(w, s).Some? && WorkerWrite(w, s).value.state.Completed?
    ensures s.WorkerSave? && !s.reboot && WorkerAt(w, s.op, PackagesDone)
    ensures s.op == WorkerWrite(w, s).value.contract.operationId && |w.ops[s.op].log| > 0
    ensures exists j :: 0 <= j < |w.ops[s.op].log| && w.ops[s.op].log[j].PackagesApplied?
  {
    hide Inv, ValidState, OpOk, Replay, IsSha256, ValidTransition;
    WorkersOp(w, s.op);
    WorkersRecord(s.op, w.ops[s.op]);
    if s.WorkerSave? && w.ops[s.op].worker.pc.PackagesDone? {
      AppliedInLog(w.ops[s.op].log);
    }
  }

  lemma {:induction false} AppliedInLog(log: seq<Effect>)
    requires Legal(log) && Replay(log).value.applied
    ensures exists j :: 0 <= j < |log| && log[j].PackagesApplied?
  {
    if log != [] && !log[|log| - 1].PackagesApplied? {
      var front := log[..|log| - 1];
      AppliedInLog(front);
      var j :| 0 <= j < |front| && front[j].PackagesApplied?;
      assert log[j].PackagesApplied?;
    }
  }

  lemma OthersComplete(w: World, s: Step)
    requires Inv(w) && PendingWrite(w, s).Some? && PendingWrite(w, s).value.state.Completed? && !s.WorkerSave? && !s.WorkerFail?
    ensures s.VerifierSave? && w.holder.VerifierHolds? && w.holder.verifierPc.Persisting?
    ensures w.holder.candidate == Some(PendingWrite(w, s).value)
  {
    hide Replay, ValidState, IsUuid, OpOk, LockOk, MarkerOk, ValidTransition;
    if s.OfflineSave? {
      HeldByOffline(w);
      OfflinesRecordOf(w);
    } else if s.RollbackSave? {
      HeldByRollback(w);
    }
  }

  lemma OfflinesRecordOf(w: World)
    requires Inv(w) && w.holder.OfflineHolds? && w.holder.offlinePc.Authenticated?
    ensures w.holder.rec.state.ApplyingOffline?
  {
    hide Replay, ValidState;
    HeldByOffline(w);
  }

  // The verifier has found that the operation passed, or is about to save that.
  ghost predicate FoundPassed(w: World, id: OperationId) {
    && w.holder.VerifierHolds? && w.holder.candidate.Some? && w.holder.candidate.value.contract.operationId == id
    && (|| (w.holder.verifierPc.Checked? && w.holder.verifierPc.passed)
        || (w.holder.verifierPc.Persisting? && w.holder.candidate.value.state.Completed?))
  }

  ghost predicate AboutToCheck(w: World, id: OperationId) {
    && w.holder.VerifierHolds? && w.holder.verifierPc.Checking?
    && w.holder.candidate.Some? && w.holder.candidate.value.contract.operationId == id
  }

  // A verdict of the verifier goes back to a check of that operation.
  lemma VerdictComesFrom(w: World, s: Step, id: OperationId)
    requires FoundPassed(Do(w, s), id)
    ensures FoundPassed(w, id) || (AboutToCheck(w, id) && s.VerifierCheck? && s.passed)
  {
    hide Do;
    StepFrame(w, s);
    if VerifierWorks(s) {
      DoesVerify(w, s);
      hide ValidState, TransitionTo, InterruptedIn, Lists, Selects, BootQuiet;
    }
  }

  // The operation was checked in this run, and passed.
  ghost predicate CheckPassed(steps: seq<Step>, id: OperationId) {
    exists j :: 0 <= j < |steps| && AboutToCheck(Run(steps[..j]), id) && steps[j].VerifierCheck? && steps[j].passed
  }

  lemma {:induction false} VerdictsAreChecked(steps: seq<Step>, id: OperationId)
    requires FoundPassed(Run(steps), id)
    ensures CheckPassed(steps, id)
  {
    hide Do, FoundPassed, AboutToCheck;
    if steps == [] {
      NothingFound(id);
    } else {
      var n := |steps| - 1;
      var before, s := steps[..n], steps[n];
      VerdictComesFrom(Run(before), s, id);
      if FoundPassed(Run(before), id) {
        VerdictsAreChecked(before, id);
        var j :| 0 <= j < n && AboutToCheck(Run(before[..j]), id) && before[j].VerifierCheck? && before[j].passed;
        assert steps[..j] == before[..j] && steps[j] == before[j];
      }
    }
  }

  lemma NothingFound(id: OperationId)
    ensures !FoundPassed(Run([]), id)
  {}

  // A worker ends an update whose packages are applied and that needs no reboot.
  ghost predicate WorkerEndsIt(w: World, s: Step, id: OperationId) {
    && s.WorkerSave? && s.op == id && !s.reboot && WorkerAt(w, id, PackagesDone)
    && exists j :: 0 <= j < |w.ops[id].log| && w.ops[id].log[j].PackagesApplied?
  }

  // In every run, a record becomes Completed in two ways only: by the final save of a
  // worker that applied its packages and needs no reboot, and by the save of a verifier
  // whose check of that operation passed.
  lemma CompletedOnlyInTwoWays(steps: seq<Step>, k: nat, id: OperationId)
    requires k < |steps| && id in Run(steps[..k]).ops && !Run(steps[..k]).ops[id].disk.state.Completed?
    requires id in Run(steps[..k + 1]).ops && Run(steps[..k + 1]).ops[id].disk.state.Completed?
    ensures WorkerEndsIt(Run(steps[..k]), steps[k], id) || (steps[k].VerifierSave? && CheckPassed(steps[..k], id))
  {
    hide Inv, Do, PendingWrite, ValidState, WorkerWrite, Run;
    NextOf(steps, k);
    var w, s := Run(steps[..k]), steps[k];
    RunKeeps(steps[..k]);
    OnlySavesChangeRecords(w, s, id);
    if s.WorkerSave? || s.WorkerFail? {
      PendingIsWorkers(w, s);
      WorkerCompletes(w, s);
    } else {
      OthersComplete(w, s);
      VerdictsAreChecked(steps[..k], id);
    }
  }

  lemma PendingIsWorkers(w: World, s: Step)
    requires s.WorkerSave? || s.WorkerFail?
    ensures PendingWrite(w, s) == WorkerWrite(w, s)
  {}
}
