/** When a completed operation is reopened: exactly when its marker was left behind. */
module Reopening {
  import opened Wrappers
  import opened Decimal
  import opened Operation
  import opened Records
  import opened Protocol
  import opened Traces
  import opened ProtocolInvariant
  import opened ProtocolSteps
  import opened ProtocolWrites
  import opened ProtocolTheorems
  import opened WorkerRuns

  // ------------------------------------------------------------ without its marker

  predicate CompletedAlone(w: World, id: OperationId) {
    id in w.ops && w.ops[id].worker.NoWorker? && w.ops[id].disk.state.Completed?
  }

  // Only the worker of an operation ever points the marker at it.
  lemma MarkerFrame(w: World, s: Step, id: OperationId)
    requires Do(w, s).marker == Lyra(id) && w.marker != Lyra(id)
    ensures id in w.ops && w.ops[id].worker.Worker?
  {
    if IsWorkerStep(s) {
      hide WorkerDo;
      WorkerMarks(w, s, id);
    } else {
      hide ValidState, TransitionTo, BootQuiet, Fresh, InterruptedIn, Lists, Selects, Finalized, WorkerDo;
    }
  }

  lemma WorkerMarks(w: World, s: Step, id: OperationId)
    requires WorkerDo(w, s).marker == Lyra(id) && w.marker != Lyra(id)
    ensures id in w.ops && w.ops[id].worker.Worker?
  {
    hide ValidState, TransitionTo, WorkerTarget;
  }

  lemma CompletedStays(w: World, s: Step, id: OperationId)
    requires Inv(w) && CompletedAlone(w, id) && w.marker != Lyra(id)
    ensures CompletedAlone(Do(w, s), id) && Do(w, s).marker != Lyra(id)
    ensures Do(w, s).ops[id].disk == w.ops[id].disk
  {
    hide Inv, Do;
    StepFrame(w, s);
    if Do(w, s).marker == Lyra(id) {
      MarkerFrame(w, s, id);
    }
    if Do(w, s).ops[id].disk != w.ops[id].disk {
      CompletedIsReopenedOnlyByItsMarker(w, s, id);
    }
  }

  lemma {:induction false} CompletedForGood(w: World, more: seq<Step>, id: OperationId)
    requires Inv(w) && CompletedAlone(w, id) && w.marker != Lyra(id)
    ensures var w' := Continue(w, more);
            CompletedAlone(w', id) && w'.marker != Lyra(id) && w'.ops[id].disk == w.ops[id].disk
  {
    hide Inv, Do;
    if more != [] {
      CompletedForGood(w, more[..|more| - 1], id);
      ContinueKeeps(w, more[..|more| - 1]);
      CompletedStays(Continue(w, more[..|more| - 1]), more[|more| - 1], id);
    }
  }

  // --------------------------------------------------------------- with its marker

  // The next boot runs the offline worker on the marker; it finds the record not ready.
  function NextBoot(id: OperationId): seq<Step> {
    [Crash, OfflineBegin(id), OfflineAdvance(true), OfflineSave(Done)]
  }

  lemma MarkedHasSnapshot(w: World, id: OperationId)
    requires Inv(w) && w.marker == Lyra(id)
    ensures id in w.ops && ValidState(RecoveryMark(w.ops[id].disk)) && RecoveryMark(w.ops[id].disk).state.NeedsRecovery?
  {
    hide HolderOk, LockOk, TraceOk, WorkerOk, Replay;
    assert OpOk(id, w.ops[id]);
  }

  // A record that the marker points at and that is not ready is marked by the next boot.
  lemma MarkerReopens(w: World, id: OperationId)
    requires Inv(w) && id in w.ops && !w.ops[id].disk.state.ReadyToReboot? && w.marker == Lyra(id)
    ensures id in Continue(w, NextBoot(id)).ops
    ensures Continue(w, NextBoot(id)).ops[id].disk == RecoveryMark(w.ops[id].disk)
    ensures RecoveryMark(w.ops[id].disk).state.NeedsRecovery?
  {
    hide Inv, Do, ValidState;
    MarkedHasSnapshot(w, id);
    var s0: seq<Step> := [];
    var s1 := s0 + [Crash];
    ContinueStep(w, s0, Crash);
    var s2 := s1 + [OfflineBegin(id)];
    ContinueStep(w, s1, OfflineBegin(id));
    var s3 := s2 + [OfflineAdvance(true)];
    ContinueStep(w, s2, OfflineAdvance(true));
    ContinueStep(w, s3, OfflineSave(Done));
    assert s3 + [OfflineSave(Done)] == NextBoot(id);
    BootsIntoRecovery(w, id);
  }

  lemma BootsIntoRecovery(w: World, id: OperationId)
    requires id in w.ops && !w.ops[id].disk.state.ReadyToReboot? && w.marker == Lyra(id)
    requires ValidState(RecoveryMark(w.ops[id].disk))
    ensures var w' := Do(Do(Do(Do(w, Crash), OfflineBegin(id)), OfflineAdvance(true)), OfflineSave(Done));
            id in w'.ops && w'.ops[id].disk == RecoveryMark(w.ops[id].disk)
  {
    hide ValidState, TransitionTo, ServiceDo, WorkerDo, RollbackDo, VerifierDo;
    var crashed := Do(w, Crash);
    assert BootQuiet(crashed);
    var begun := Do(crashed, OfflineBegin(id));
    assert begun == crashed.(holder := OfflineHolds(id, Begun, crashed.ops[id].disk));
  }

  predicate Changes(w: World, more: seq<Step>, id: OperationId)
    requires id in w.ops
  {
    id in Continue(w, more).ops && Continue(w, more).ops[id].disk != w.ops[id].disk
  }

  // In every run, the record of a completed operation without a worker can still change
  // exactly if the marker points at it.
  lemma CompletedReopensExactly(steps: seq<Step>, id: OperationId)
    requires CompletedAlone(Run(steps), id)
    ensures (exists more :: Changes(Run(steps), more, id)) <==> Run(steps).marker == Lyra(id)
  {
    hide Inv, Do, RecoveryMark;
    RunKeeps(steps);
    var w := Run(steps);
    if w.marker == Lyra(id) {
      MarkerReopens(w, id);
      assert Changes(w, NextBoot(id), id);
    } else {
      forall more
        ensures !Changes(w, more, id)
      {
        CompletedForGood(w, more, id);
      }
    }
  }

  // ---------------------------------------------------------- a run that gets there

  function Applied(contract: Contract, number: u64): Record {
    Next(Next(Ready(contract, number), ApplyingOffline), AwaitingReboot).(lastStep := Some(OfflineApplied))
  }

  // The boot that applies it, up to a crash before the marker is removed.
  function Applies(id: OperationId): seq<Step> {
    [OfflineBegin(id), OfflineAdvance(true), OfflineAdvance(true), OfflineSave(Done), OfflineAdvance(true),
     OfflineApply(true), OfflineSave(Done), Crash]
  }

  // The verification of a boot that does not run the offline worker first.
  function Verifies(id: OperationId): seq<Step> {
    [VerifierBegin, VerifierScan([id], Some(id)), VerifierSave(Done), VerifierCheck(true, ""), VerifierFinalize(Done),
     VerifierSave(Done)]
  }

  lemma BootRecordsPass(contract: Contract, number: u64)
    requires contract.Valid() && contract.kind.IsSignedOffline() && number > 0
    ensures var r4, r6 := Ready(contract, number), Applied(contract, number);
            var r5, r7 := Next(r4, ApplyingOffline), Next(r6, VerifyingBoot);
            && TransitionTo(r4, ApplyingOffline) == Ok(r5) && ValidState(r5) && r5.contract == contract
            && TransitionTo(r5, AwaitingReboot).Ok? && r6 == TransitionTo(r5, AwaitingReboot).value.(lastStep := Some(OfflineApplied))
            && ValidState(r6) && r6.state.AwaitingReboot? && r6.contract == contract
            && TransitionTo(r6, VerifyingBoot) == Ok(r7) && ValidState(r7) && r7.state.VerifyingBoot? && r7.contract == contract
            && r7.recovery.None? && ValidState(Finalized(r7, true, true)) && Finalized(r7, true, true).contract == contract
            && Finalized(r7, true, true).state.Completed?
  {
    hide IsSha256;
    RecordsPass(contract, number);
  }

  lemma SignsRun(contract: Contract, offered: u64, number: u64)
    requires contract.Valid() && contract.kind.IsSignedOffline() && number > 0
    ensures Play(Initial, Signs(contract, offered, number))
            == Single(Op(Ready(contract, number), NoWorker, offered, Some(offered), Taken(number)), Lyra(contract.operationId), Free)
  {
    hide Do, Play, InitialRecord, Snapshotted, Ready, DownloadingOp, SnapshottingOp, NumberedOp, Single;
    WorkerStarts(contract, offered);
    WorkerGoesOn(contract, offered, number);
    NumberedIs(contract, offered, number);
    SigningEnds(contract, offered, number);
    PlayEleven(Initial, Signs(contract, offered, number));
  }

  lemma PlayTwo(w: World, s: seq<Step>)
    requires |s| >= 2
    ensures Play(w, s) == Play(Do(Do(w, s[0]), s[1]), s[2..])
  {
    hide Do;
    assert s[1..][1..] == s[2..];
  }

  lemma PlaySix(w: World, s: seq<Step>)
    requires |s| >= 6
    ensures Play(w, s) == Play(Do(Do(Do(Do(Do(Do(w, s[0]), s[1]), s[2]), s[3]), s[4]), s[5]), s[6..])
  {
    hide Do, Play;
    PlayTwo(w, s);
    var w2 := Do(Do(w, s[0]), s[1]);
    PlayTwo(w2, s[2..]);
    assert s[2..][2..] == s[4..];
    PlayTwo(Do(Do(w2, s[2]), s[3]), s[4..]);
    assert s[4..][2..] == s[6..];
  }

  lemma PlayEleven(w: World, s: seq<Step>)
    requires |s| == 11
    ensures Play(w, s)
            == Do(Do(Do(Do(Do(Do(Do(Do(Do(Do(Do(w, s[0]), s[1]), s[2]), s[3]), s[4]), s[5]), s[6]), s[7]), s[8]), s[9]), s[10])
  {
    hide Do;
    PlaySix(w, s);
    var w6, rest := Do(Do(Do(Do(Do(Do(w, s[0]), s[1]), s[2]), s[3]), s[4]), s[5]), s[6..];
    PlayTwo(w6, rest);
    PlayTwo(Do(Do(w6, s[6]), s[7]), rest[2..]);
    assert rest[2..][2..] == [s[10]];
    PlaysOut(Do(Do(Do(Do(Do(w6, s[6]), s[7]), s[8]), s[9]), s[10]));
    Plays(Do(Do(Do(Do(w6, s[6]), s[7]), s[8]), s[9]), [s[10]], s[10], []);
  }

  // The offline application, up to a crash before the marker is removed.
  lemma AppliesRun(contract: Contract, offered: u64, number: u64)
    requires contract.Valid() && contract.kind.IsSignedOffline() && number > 0 && offered > 0
    ensures var id := contract.operationId;
            exists log :: Play(Single(Op(Ready(contract, number), NoWorker, offered, Some(offered), Taken(number)), Lyra(id), Free), Applies(id))
                          == Single(Op(Applied(contract, number), NoWorker, offered, Some(offered), log), Lyra(id), Free)
  {
    hide Do, Play, InitialRecord, Snapshotted, Ready, Applied, Next, TransitionTo, ValidState;
    RecordsPass(contract, number);
    BootRecordsPass(contract, number);
    var id := contract.operationId;
    var o := Op(Ready(contract, number), NoWorker, offered, Some(offered), Taken(number));
    var r5 := Next(Ready(contract, number), ApplyingOffline);
    OfflinePrepares(o, r5);
    var o5 := o.(disk := r5);
    var log := OfflineApplies(o5, Applied(contract, number));
    var steps := Applies(id);
    var w0 := Single(o, Lyra(id), Free);
    PlaySix(w0, steps);
    var w6 := Do(Do(Do(Do(Do(Do(w0, steps[0]), steps[1]), steps[2]), steps[3]), steps[4]), steps[5]);
    PlayTwo(w6, steps[6..]);
    PlaysOut(Do(Do(w6, steps[6]), steps[7]));
    assert steps[6..][2..] == [];
  }

  lemma OfflinePrepares(o: Op, r: Record)
    requires o.worker.NoWorker? && o.disk.state.ReadyToReboot? && o.disk.snapshotNumber.Some? && Fresh(o.manifestFile, None)
    requires TransitionTo(o.disk, ApplyingOffline) == Ok(r) && ValidState(r) && r.contract == o.disk.contract
    ensures var id := o.disk.contract.operationId;
            Do(Do(Do(Do(Single(o, Lyra(id), Free), OfflineBegin(id)), OfflineAdvance(true)), OfflineAdvance(true)), OfflineSave(Done))
            == Single(o.(disk := r), Lyra(id), OfflineHolds(id, Saved, r))
  {
    hide ValidState, TransitionTo, ServiceDo, WorkerDo, RollbackDo, VerifierDo;
    var id := o.disk.contract.operationId;
    var w := Single(o, Lyra(id), Free);
    assert BootQuiet(w);
    assert Do(w, OfflineBegin(id)) == Single(o, Lyra(id), OfflineHolds(id, Begun, o.disk));
    PutSingle(o, Lyra(id), OfflineHolds(id, Authenticated, r), o.(disk := r));
  }

  lemma OfflineApplies(o: Op, r: Record) returns (log: seq<Effect>)
    requires o.worker.NoWorker? && r.contract == o.disk.contract && ValidState(r)
    requires TransitionTo(o.disk, AwaitingReboot).Ok? && r == TransitionTo(o.disk, AwaitingReboot).value.(lastStep := Some(OfflineApplied))
    ensures var id := o.disk.contract.operationId;
            Do(Do(Do(Do(Single(o, Lyra(id), OfflineHolds(id, Saved, o.disk)), OfflineAdvance(true)), OfflineApply(true)), OfflineSave(Done)), Crash)
            == Single(o.(disk := r, log := log), Lyra(id), Free)
  {
    hide ValidState, TransitionTo, ServiceDo, WorkerDo, RollbackDo, VerifierDo;
    var id := o.disk.contract.operationId;
    log := o.log + [PackagesApplied(o.disk, o.manifestFile, None)];
    var applied := o.(log := log);
    PutSingle(o, Lyra(id), OfflineHolds(id, Revalidated, o.disk), applied);
    var w := Single(applied, Lyra(id), OfflineHolds(id, OfflinePc.Applied, o.disk));
    assert Do(Do(Single(o, Lyra(id), OfflineHolds(id, Saved, o.disk)), OfflineAdvance(true)), OfflineApply(true)) == w;
    PutSingle(applied, Lyra(id), OfflineHolds(id, OfflinePc.Applied, o.disk), applied.(disk := r));
    var done := Single(applied.(disk := r), Lyra(id), OfflineHolds(id, Finished, r));
    assert Do(w, OfflineSave(Done)) == done;
    assert Do(done, Crash).ops == Single(applied.(disk := r), Lyra(id), Free).ops;
  }

  // A verification that passes, with nothing to reconcile.
  lemma VerifierFindsCandidate(o: Op)
    requires o.worker.NoWorker? && o.disk.state.AwaitingReboot?
    ensures var id := o.disk.contract.operationId;
            Do(Do(Single(o, Lyra(id), Free), VerifierBegin), VerifierScan([id], Some(id)))
            == Single(o, Lyra(id), VerifierHolds(Reconciling, [], Some(o.disk)))
  {
    hide ValidState, TransitionTo, ServiceDo, WorkerDo, OfflineDo, RollbackDo, Finalized;
    var id := o.disk.contract.operationId;
    var w := Single(o, Lyra(id), Free);
    assert BootQuiet(w);
    var begun := Single(o, Lyra(id), VerifierHolds(Scanning, [], None));
    assert Do(w, VerifierBegin) == begun;
    NoneInterrupted(begun, id);
  }

  lemma NoneInterrupted(w: World, id: OperationId)
    requires id in w.ops && w.ops[id].disk.state.AwaitingReboot?
    ensures InterruptedIn(w, [id]) == []
  {
    assert [id][1..] == [];
  }

  lemma VerifierStarts(o: Op, r: Record)
    requires o.worker.NoWorker? && o.disk.state.AwaitingReboot? && r.contract == o.disk.contract
    requires TransitionTo(o.disk, VerifyingBoot) == Ok(r) && ValidState(r)
    ensures var id := o.disk.contract.operationId;
            Do(Do(Do(Single(o, Lyra(id), Free), VerifierBegin), VerifierScan([id], Some(id))), VerifierSave(Done))
            == Single(o.(disk := r), Lyra(id), VerifierHolds(VerifierPc.Checking, [], Some(r)))
  {
    hide ValidState, TransitionTo, ServiceDo, WorkerDo, OfflineDo, RollbackDo, Finalized, InterruptedIn, BootQuiet, Lists, Selects;
    var id := o.disk.contract.operationId;
    VerifierFindsCandidate(o);
    PutSingle(o, Lyra(id), VerifierHolds(Reconciling, [], Some(o.disk)), o.(disk := r));
  }

  lemma VerifierFinals(o: Op)
    requires o.manifestFile.Some? && AdvancesCounter(o.disk)
    ensures var id, final := o.disk.contract.operationId, Finalized(o.disk, true, true);
            Do(Do(Single(o, Lyra(id), VerifierHolds(VerifierPc.Checking, [], Some(o.disk))), VerifierCheck(true, "")), VerifierFinalize(Done))
            == Single(o, Lyra(id), VerifierHolds(Persisting, [], Some(final))).(counter := o.manifestFile)
  {
    hide ValidState, TransitionTo, ServiceDo, WorkerDo, OfflineDo, RollbackDo, Finalized, InterruptedIn, BootQuiet, Lists, Selects;
    var id := o.disk.contract.operationId;
    var w := Single(o, Lyra(id), VerifierHolds(VerifierPc.Checking, [], Some(o.disk)));
    var checked := Single(o, Lyra(id), VerifierHolds(Checked(true, ""), [], Some(o.disk)));
    assert Do(w, VerifierCheck(true, "")) == checked;
  }

  lemma VerifierEnds(o: Op)
    requires o.worker.NoWorker? && o.manifestFile.Some? && AdvancesCounter(o.disk) && ValidState(Finalized(o.disk, true, true))
    ensures var id := o.disk.contract.operationId;
            Do(Do(Do(Single(o, Lyra(id), VerifierHolds(VerifierPc.Checking, [], Some(o.disk))), VerifierCheck(true, "")),
                  VerifierFinalize(Done)), VerifierSave(Done))
            == Single(o.(disk := Finalized(o.disk, true, true)), Lyra(id), Free).(counter := o.manifestFile)
  {
    hide ValidState, TransitionTo, ServiceDo, WorkerDo, OfflineDo, RollbackDo, Finalized, InterruptedIn, BootQuiet, Lists, Selects;
    var id, final := o.disk.contract.operationId, Finalized(o.disk, true, true);
    FinalContract(o.disk);
    VerifierFinals(o);
    PutSingle(o, Lyra(id), VerifierHolds(Persisting, [], Some(final)), o.(disk := final));
  }

  lemma FinalContract(r: Record)
    ensures Finalized(r, true, true).contract == r.contract
  {}

  lemma VerifiesRun(contract: Contract, offered: u64, number: u64, log: seq<Effect>)
    requires contract.Valid() && contract.kind.IsSignedOffline() && number > 0
    ensures var id := contract.operationId;
            var w := Play(Single(Op(Applied(contract, number), NoWorker, offered, Some(offered), log), Lyra(id), Free), Verifies(id));
            CompletedAlone(w, id) && w.marker == Lyra(id)
  {
    hide Do, Play, InitialRecord, Ready, Applied, Next, TransitionTo, ValidState, Finalized;
    BootRecordsPass(contract, number);
    var id := contract.operationId;
    var o := Op(Applied(contract, number), NoWorker, offered, Some(offered), log);
    var r7 := Next(Applied(contract, number), VerifyingBoot);
    VerifierStarts(o, r7);
    VerifierEnds(o.(disk := r7));
    var w0, steps := Single(o, Lyra(id), Free), Verifies(id);
    PlaySix(w0, steps);
    assert steps[6..] == [];
    PlaysOut(Do(Do(Do(Do(Do(Do(w0, steps[0]), steps[1]), steps[2]), steps[3]), steps[4]), steps[5]));
  }

  // A completed operation with its marker left behind is reached: a crash between the
  // last save and the removal of the marker, then a verification that the offline worker
  // does not precede. From there the next boot reopens it.
  lemma CompletedIsReopened(contract: Contract, offered: u64, number: u64)
    requires contract.Valid() && contract.kind.IsSignedOffline() && offered > 0 && number > 0
    ensures var id := contract.operationId;
            var steps := Signs(contract, offered, number) + Applies(id) + Verifies(id);
            && CompletedAlone(Run(steps), id) && Run(steps).marker == Lyra(id)
            && id in Run(steps + NextBoot(id)).ops && Run(steps + NextBoot(id)).ops[id].disk.state.NeedsRecovery?
  {
    hide Do, Play, Signs, Applies, Verifies, Ready, Applied, RecoveryMark, Inv, CompletedAlone;
    var id := contract.operationId;
    var steps := Signs(contract, offered, number) + Applies(id) + Verifies(id);
    SignsRun(contract, offered, number);
    AppliesRun(contract, offered, number);
    PlaySplit(Initial, Signs(contract, offered, number), Applies(id));
    var log :| Play(Initial, Signs(contract, offered, number) + Applies(id))
               == Single(Op(Applied(contract, number), NoWorker, offered, Some(offered), log), Lyra(id), Free);
    VerifiesRun(contract, offered, number, log);
    PlaySplit(Initial, Signs(contract, offered, number) + Applies(id), Verifies(id));
    PlayIsContinue(Initial, steps);
    RunFromInitial(steps);
    RunKeeps(steps);
    RunContinues(steps, NextBoot(id));
    CompletedIs(Run(steps), id);
    MarkerReopens(Run(steps), id);
  }

  lemma CompletedIs(w: World, id: OperationId)
    requires CompletedAlone(w, id)
    ensures id in w.ops && w.ops[id].disk.state.Completed?
  {}
}
