/** The other processes when nothing fails, and when their one command does: from any state
    a run may be in, what they leave on disk. */
module ProcessRuns {
  import opened Wrappers
  import opened Decimal
  import opened Operation
  import opened Records
  import opened Protocol
  import opened Traces
  import opened ProtocolInvariant
  import opened ProtocolSteps
  import opened ProtocolWrites
  import opened ProtocolTheorems

  // -------------------------------------------------------------------- the verifier

  lemma HeldByVerifier(w: World)
    requires Inv(w) && w.holder.VerifierHolds? && w.holder.verifierPc.Checking?
    ensures w.holder.candidate.Some? && w.holder.candidate.value.contract.operationId in w.ops
    ensures var o := w.ops[w.holder.candidate.value.contract.operationId];
            o.disk == w.holder.candidate.value && o.worker.NoWorker? && ValidState(o.disk) && o.disk.state.VerifyingBoot?
  {
    hide Replay, ValidState, LockOk, MarkerOk, TraceOk;
    var id := w.holder.candidate.value.contract.operationId;
    assert OpOk(id, w.ops[id]);
  }

  // The sequence of the manifest could be stored: there is one, it is not below the
  // counter, and storing it met no error.
  predicate SequenceStored(w: World, id: OperationId, io: Io)
    requires id in w.ops
  {
    && io.Done? && w.ops[id].manifestFile.Some?
    && (w.counter.None? || w.counter.value <= w.ops[id].manifestFile.value)
  }

  lemma CheckAndFinalize(w: World, passed: bool, code: string, io: Io)
    requires w.holder.VerifierHolds? && w.holder.verifierPc.Checking?
    requires w.holder.candidate.Some? && w.holder.candidate.value.contract.operationId in w.ops
    ensures var r, id := w.holder.candidate.value, w.holder.candidate.value.contract.operationId;
            var w2 := Do(Do(w, VerifierCheck(passed, code)), VerifierFinalize(io));
            var verdict := Finalized(r, passed, SequenceStored(w, id, io));
            && w2.ops == w.ops && w2.marker == w.marker
            && w2.holder == VerifierHolds(Persisting, [], Some(if passed then verdict else verdict.(error := Some(Execution(code)))))
            && (w2.counter != w.counter ==> passed && AdvancesCounter(r) && w2.counter == w.ops[id].manifestFile)
            && (passed && AdvancesCounter(r) && SequenceStored(w, id, io) ==> w2.counter == w.ops[id].manifestFile)
  {
    hide Finalized, ServiceDo, WorkerDo, OfflineDo, RollbackDo, TransitionTo, ValidState;
    assert Do(w, VerifierCheck(passed, code)) == w.(holder := w.holder.(verifierPc := Checked(passed, code)));
  }

  lemma SavesVerdict(w: World, r: Record)
    requires w.holder == VerifierHolds(Persisting, [], Some(r)) && r.contract.operationId in w.ops && ValidState(r)
    ensures var id := r.contract.operationId;
            Do(w, VerifierSave(Done)) == w.(ops := w.ops[id := w.ops[id].(disk := r)], holder := Free)
  {
    hide ServiceDo, WorkerDo, OfflineDo, RollbackDo, TransitionTo, ValidState;
  }

  lemma VerdictPasses(r: Record, passed: bool, stored: bool, code: string)
    requires ValidState(r) && r.state.VerifyingBoot?
    ensures ValidState(Finalized(r, passed, stored)) && ValidState(Finalized(r, passed, stored).(error := Some(Execution(code))))
    ensures Finalized(r, passed, stored).contract == r.contract
  {
    hide IsSha256, IsUuid;
  }

  // In every run, what a verification leaves: Completed exactly if the check passed and,
  // for a signed operation without a rollback, its sequence was stored; otherwise
  // NeedsRecovery, with the error of the check or of storing the sequence.
  lemma VerificationLeaves(w: World, passed: bool, code: string, io: Io)
    requires Inv(w) && w.holder.VerifierHolds? && w.holder.verifierPc.Checking?
    ensures w.holder.candidate.Some? && w.holder.candidate.value.contract.operationId in w.ops
    ensures var id := w.holder.candidate.value.contract.operationId;
            var d, w' := w.ops[id].disk, Do(Do(Do(w, VerifierCheck(passed, code)), VerifierFinalize(io)), VerifierSave(Done));
            var awaited := d.recovery.None? && !d.contract.kind.UpdateWithinRelease?;
            && id in w'.ops && w'.holder.Free? && d.state.VerifyingBoot?
            && (w'.ops[id].disk.state.Completed? <==> passed && (awaited ==> SequenceStored(w, id, io)))
            && (w'.ops[id].disk.state.Completed? ==>
                  && w'.ops[id].disk.error == None && w'.ops[id].disk.boot == Some(Passed)
                  && w'.ops[id].disk.lastStep == Some(if d.recovery.Some? then RollbackVerified else PostBootVerification))
            && (!w'.ops[id].disk.state.Completed? ==>
                  && w'.ops[id].disk.state == NeedsRecovery && w'.ops[id].disk.boot == Some(BootVerification.Failed)
                  && w'.ops[id].disk.error == Some(if passed then ManifestSequencePersistFailed else Execution(code)))
            && (forall other :: other in w.ops && other != id ==> other in w'.ops && w'.ops[other] == w.ops[other])
  {
    hide Inv, Do, Finalized, ValidState;
    HeldByVerifier(w);
    var r, id := w.holder.candidate.value, w.holder.candidate.value.contract.operationId;
    CheckAndFinalize(w, passed, code, io);
    VerdictFields(r, passed, SequenceStored(w, id, io));
    VerdictPasses(r, passed, SequenceStored(w, id, io), code);
    var verdict := Finalized(r, passed, SequenceStored(w, id, io));
    SavesVerdict(Do(Do(w, VerifierCheck(passed, code)), VerifierFinalize(io)),
                 if passed then verdict else verdict.(error := Some(Execution(code))));
  }

  // A record that the verifier finds interrupted is saved as Failed if its download was
  // under way, and as NeedsRecovery otherwise.
  lemma ReconciliationSaves(w: World)
    requires Inv(w) && w.holder.VerifierHolds? && w.holder.verifierPc.Reconciling? && w.holder.queue != []
    requires !Unnumberable(w.holder.queue[0])
    ensures var r, id := w.holder.queue[0], w.holder.queue[0].contract.operationId;
            var w' := Do(w, VerifierSave(Done));
            && id in w'.ops
            && w'.ops[id].disk == r.(state := if r.state == Downloading then OperationState.Failed else NeedsRecovery,
                                     error := Some(Interrupted), sequence := SaturatingAdd(r.sequence, 1))
  {
    hide OpOk, Replay, LockOk, MarkerOk, ServiceDo, WorkerDo, OfflineDo, RollbackDo, TransitionTo, ValidState, IsSha256, IsUuid;
    var r := w.holder.queue[0];
    assert EntryOk(w.ops, r);
    ReconciliationIsSavedExactly(r);
    ReconciliationLeaves(r);
  }

  // -------------------------------------------------------------- the offline worker

  // The marker points at a signed operation that is ready, at the beginning of a boot.
  predicate ReadyAtBoot(w: World, id: OperationId) {
    && BootQuiet(w) && w.marker == Lyra(id) && id in w.ops
    && w.ops[id].disk.state.ReadyToReboot? && w.ops[id].disk.contract.kind.IsSignedOffline()
  }

  lemma ReadyRecord(w: World, id: OperationId)
    requires Inv(w) && ReadyAtBoot(w, id)
    ensures var d := w.ops[id].disk;
            && d.snapshotNumber.Some? && d.contract.operationId == id && d.contract.schemaVersion == 1 && w.ops[id].worker.NoWorker?
            && TransitionTo(d, ApplyingOffline) == Ok(d.(state := ApplyingOffline, sequence := SaturatingAdd(d.sequence, 1)))
            && ValidState(d.(state := ApplyingOffline, sequence := SaturatingAdd(d.sequence, 1)))
            && ValidState(RecoveryMark(d)) && ValidState(OfflineEnd(d))
            && ValidState(RecoveryMark(d.(state := ApplyingOffline, sequence := SaturatingAdd(d.sequence, 1))))
  {
    hide HolderOk, LockOk, MarkerOk, Replay, IsUuid, IsSha256, WorkerOk;
    assert OpOk(id, w.ops[id]);
    if w.ops[id].worker.Worker? {
      QuietWorker(id, w.ops[id]);
    }
  }

  // The record while packages are applied offline, and when they are.
  function OfflineRecord(d: Record): Record {
    d.(state := ApplyingOffline, sequence := SaturatingAdd(d.sequence, 1))
  }

  function OfflineEnd(d: Record): Record {
    d.(state := AwaitingReboot, lastStep := Some(OfflineApplied), sequence := SaturatingAdd(SaturatingAdd(d.sequence, 1), 1))
  }

  function With(w: World, id: OperationId, o: Op, marker: Marker, holder: Holder): World {
    w.(ops := w.ops[id := o], marker := marker, holder := holder)
  }

  lemma OfflineTakesOver(w: World, id: OperationId)
    requires ReadyAtBoot(w, id) && w.ops[id].disk.snapshotNumber.Some? && Fresh(w.ops[id].manifestFile, w.counter)
    requires TransitionTo(w.ops[id].disk, ApplyingOffline) == Ok(OfflineRecord(w.ops[id].disk))
    requires ValidState(OfflineRecord(w.ops[id].disk))
    ensures var r := OfflineRecord(w.ops[id].disk);
            Do(Do(Do(Do(w, OfflineBegin(id)), OfflineAdvance(true)), OfflineAdvance(true)), OfflineSave(Done))
            == With(w, id, w.ops[id].(disk := r), w.marker, OfflineHolds(id, Saved, r))
  {
    hide ValidState, TransitionTo, ServiceDo, WorkerDo, RollbackDo, VerifierDo, Quiet;
    var d := w.ops[id].disk;
    var begun := w.(holder := OfflineHolds(id, Begun, d));
    assert Do(w, OfflineBegin(id)) == begun;
    assert Do(begun, OfflineAdvance(true)) == w.(holder := OfflineHolds(id, Prepared, OfflineRecord(d)));
  }

  lemma OfflineApplies(w: World, id: OperationId, r: Record, ok: bool)
    requires id in w.ops && w.holder == OfflineHolds(id, Saved, r)
    ensures var o := w.ops[id];
            Do(Do(w, OfflineAdvance(true)), OfflineApply(ok))
            == With(w, id, o.(log := o.log + [PackagesApplied(o.disk, o.manifestFile, w.counter)]), w.marker,
                    OfflineHolds(id, if ok then Applied else MarkingRecovery, r))
  {
    hide ValidState, TransitionTo, ServiceDo, WorkerDo, RollbackDo, VerifierDo;
  }

  lemma OfflineEnds(w: World, id: OperationId, r: Record, end: Record)
    requires id in w.ops && w.holder == OfflineHolds(id, Applied, r) && w.marker == Lyra(id)
    requires TransitionTo(r, AwaitingReboot).Ok? && TransitionTo(r, AwaitingReboot).value.(lastStep := Some(OfflineApplied)) == end
    requires ValidState(end)
    ensures Do(Do(w, OfflineSave(Done)), OfflineUnmark(true)) == With(w, id, w.ops[id].(disk := end), Absent, Free)
  {
    hide ValidState, TransitionTo, ServiceDo, WorkerDo, RollbackDo, VerifierDo;
    assert Do(w, OfflineSave(Done)) == With(w, id, w.ops[id].(disk := end), w.marker, OfflineHolds(id, Finished, end));
  }

  lemma OfflineGivesUp(w: World, id: OperationId, r: Record)
    requires id in w.ops && w.holder == OfflineHolds(id, MarkingRecovery, r) && w.marker == Lyra(id)
    requires ValidState(RecoveryMark(w.ops[id].disk))
    ensures Do(Do(w, OfflineSave(Done)), OfflineUnmark(true))
            == With(w, id, w.ops[id].(disk := RecoveryMark(w.ops[id].disk)), Absent, Free)
  {
    hide ValidState, TransitionTo, ServiceDo, WorkerDo, RollbackDo, VerifierDo;
    assert Do(w, OfflineSave(Done))
           == With(w, id, w.ops[id].(disk := RecoveryMark(w.ops[id].disk)), w.marker, OfflineHolds(id, Unmarking, r));
  }

  lemma OfflineEndFollows(d: Record)
    requires d.contract.schemaVersion == 1 && d.contract.kind.IsSignedOffline()
    ensures TransitionTo(OfflineRecord(d), AwaitingReboot).Ok?
    ensures TransitionTo(OfflineRecord(d), AwaitingReboot).value.(lastStep := Some(OfflineApplied)) == OfflineEnd(d)
  {}

  // From any state of a run: a boot on a ready operation whose manifest is beyond the
  // counter, with nothing failing, applies its packages once, with ApplyingOffline
  // persisted, and leaves AwaitingReboot, no marker and the lock free; if the
  // application fails it leaves NeedsRecovery instead.
  lemma OfflineBootApplies(w: World, id: OperationId, ok: bool)
    requires Inv(w) && ReadyAtBoot(w, id) && Fresh(w.ops[id].manifestFile, w.counter)
    ensures var o, d := w.ops[id], w.ops[id].disk;
            var begun := Do(Do(Do(Do(w, OfflineBegin(id)), OfflineAdvance(true)), OfflineAdvance(true)), OfflineSave(Done));
            var w' := Do(Do(Do(Do(begun, OfflineAdvance(true)), OfflineApply(ok)), OfflineSave(Done)), OfflineUnmark(true));
            && id in w'.ops && w'.marker == Absent && w'.holder.Free? && w'.counter == w.counter
            && w'.ops[id].log == o.log + [PackagesApplied(OfflineRecord(d), o.manifestFile, w.counter)]
            && w'.ops[id].disk.snapshotNumber == d.snapshotNumber && d.snapshotNumber.Some?
            && (if ok then w'.ops[id].disk.state == AwaitingReboot && w'.ops[id].disk.lastStep == Some(OfflineApplied)
                else w'.ops[id].disk.state == NeedsRecovery && w'.ops[id].disk.error == Some(OfflineApplyFailed))
  {
    hide Inv, Do, ValidState, TransitionTo, Fresh, BootQuiet;
    ReadyRecord(w, id);
    var o, d := w.ops[id], w.ops[id].disk;
    OfflineTakesOver(w, id);
    var r := OfflineRecord(d);
    var saved := With(w, id, o.(disk := r), w.marker, OfflineHolds(id, Saved, r));
    OfflineApplies(saved, id, r, ok);
    var applied := Do(Do(saved, OfflineAdvance(true)), OfflineApply(ok));
    if ok {
      OfflineEndFollows(d);
      OfflineEnds(applied, id, r, OfflineEnd(d));
    } else {
      OfflineGivesUp(applied, id, r);
    }
  }

  // With a manifest that the counter has reached the boot applies nothing, and leaves
  // NeedsRecovery and no marker.
  lemma OfflineBootRefusesOld(w: World, id: OperationId)
    requires Inv(w) && ReadyAtBoot(w, id) && !Fresh(w.ops[id].manifestFile, w.counter)
    ensures var begun := Do(Do(Do(w, OfflineBegin(id)), OfflineAdvance(true)), OfflineAdvance(true));
            var w' := Do(Do(begun, OfflineSave(Done)), OfflineUnmark(true));
            && id in w'.ops && w'.marker == Absent && w'.holder.Free?
            && w'.ops[id].log == w.ops[id].log
            && w'.ops[id].disk.state == NeedsRecovery && w'.ops[id].disk.error == Some(OfflineApplyFailed)
  {
    hide Inv, ValidState, TransitionTo, Fresh, BootQuiet, Do;
    ReadyRecord(w, id);
    OfflineDeclines(w, id);
    var d := w.ops[id].disk;
    OfflineGivesUp(w.(holder := OfflineHolds(id, MarkingRecovery, OfflineRecord(d))), id, OfflineRecord(d));
  }

  lemma OfflineDeclines(w: World, id: OperationId)
    requires ReadyAtBoot(w, id) && w.ops[id].disk.snapshotNumber.Some? && !Fresh(w.ops[id].manifestFile, w.counter)
    requires TransitionTo(w.ops[id].disk, ApplyingOffline) == Ok(OfflineRecord(w.ops[id].disk))
    ensures Do(Do(Do(w, OfflineBegin(id)), OfflineAdvance(true)), OfflineAdvance(true))
            == w.(holder := OfflineHolds(id, MarkingRecovery, OfflineRecord(w.ops[id].disk)))
  {
    hide ValidState, TransitionTo, ServiceDo, WorkerDo, RollbackDo, VerifierDo, Quiet, Fresh;
    var d := w.ops[id].disk;
    var begun := w.(holder := OfflineHolds(id, Begun, d));
    assert Do(w, OfflineBegin(id)) == begun;
    assert Do(begun, OfflineAdvance(true)) == w.(holder := OfflineHolds(id, Prepared, OfflineRecord(d)));
  }

  // -------------------------------------------------------------- the rollback

  // An operation that waits for recovery and has no rollback that is still unconfirmed.
  predicate MayRollBack(w: World, id: OperationId) {
    && w.holder.Free? && id in w.ops && w.ops[id].disk.state.NeedsRecovery? && !Incomplete(w.ops[id].disk)
  }

  function Intent(d: Record, source: SubvolumeIdentity): Record {
    d.(recovery := Some(RollbackGoal(d.snapshotNumber.GetOr(0), source, None)), lastStep := Some(RollbackPreparing),
       boot := Some(Pending), sequence := SaturatingAdd(d.sequence, 1))
  }

  lemma RollbackRecord(w: World, id: OperationId, source: SubvolumeIdentity)
    requires Inv(w) && MayRollBack(w, id) && source.Valid()
    ensures var d := w.ops[id].disk;
            d.snapshotNumber.Some? && ValidState(Intent(d, source)) && d.contract.operationId == id
  {
    hide HolderOk, LockOk, MarkerOk, Replay, IsUuid, IsSha256, WorkerOk;
    assert OpOk(id, w.ops[id]);
  }

  lemma RollbackIntends(w: World, id: OperationId, source: SubvolumeIdentity)
    requires MayRollBack(w, id) && source.Valid() && w.ops[id].disk.snapshotNumber.Some? && ValidState(Intent(w.ops[id].disk, source))
    ensures var r := Intent(w.ops[id].disk, source);
            Do(Do(Do(w, RollbackBegin(id)), RollbackLoad(source, true)), RollbackSave(Done))
            == With(w, id, w.ops[id].(disk := r, log := w.ops[id].log + [IntentSaved]), w.marker, RollbackHolds(id, RollbackPc.Intended, r))
  {
    hide ValidState, IsUuid, SubvolumeIdentity.Valid, ServiceDo, WorkerDo, OfflineDo, VerifierDo;
    var d := w.ops[id].disk;
    var asked := w.(holder := RollbackHolds(id, Asked, d));
    assert Do(w, RollbackBegin(id)) == asked;
    var goal := RollbackGoal(d.snapshotNumber.value, source, None);
    assert Do(asked, RollbackLoad(source, true)) == w.(holder := RollbackHolds(id, Loaded(goal), d));
  }

  lemma RollbackRuns(w: World, id: OperationId, r: Record, ok: bool)
    requires id in w.ops && w.holder == RollbackHolds(id, RollbackPc.Intended, r)
    ensures Do(w, RollbackExecute(ok))
            == With(w, id, w.ops[id].(log := w.ops[id].log + [RollbackRun(w.ops[id].disk)]), w.marker,
                    RollbackHolds(id, if ok then RollbackPc.Ran else Undoing("ROLLBACK_FAILED"), r))
  {
    hide ValidState, IsUuid, ServiceDo, WorkerDo, OfflineDo, VerifierDo;
  }

  lemma RollbackConfirms(w: World, id: OperationId, r: Record, clone: SubvolumeIdentity)
    requires id in w.ops && w.holder == RollbackHolds(id, RollbackPc.Ran, r) && r.recovery.Some?
    requires clone.Valid() && clone.parentUuid == Some(r.recovery.value.source.uuid)
    requires ValidState(ScheduledRecord(r, r.recovery.value.(boot := Some(clone))))
    ensures var goal := r.recovery.value.(boot := Some(clone));
            Do(Do(w, RollbackInspect(clone, true)), RollbackSave(Done))
            == With(w, id, w.ops[id].(disk := ScheduledRecord(r, goal), log := w.ops[id].log + [CloneConfirmed(goal)]), w.marker, Free)
  {
    hide ValidState, IsUuid, SubvolumeIdentity.Valid, ServiceDo, WorkerDo, OfflineDo, VerifierDo, ScheduledRecord;
    var goal := r.recovery.value.(boot := Some(clone));
    assert Do(w, RollbackInspect(clone, true)) == w.(holder := RollbackHolds(id, Confirmable(goal), r));
  }

  lemma RollbackUndoes(w: World, id: OperationId, r: Record, code: string)
    requires id in w.ops && w.holder == RollbackHolds(id, Undoing(code), r) && r.recovery == w.ops[id].disk.recovery
    requires ValidState(RollbackFailedRecord(r, code))
    ensures Do(w, RollbackSave(Done))
            == With(w, id, w.ops[id].(disk := RollbackFailedRecord(r, code)), w.marker, Free)
  {
    hide ValidState, IsUuid, ServiceDo, WorkerDo, OfflineDo, VerifierDo, RollbackFailedRecord;
  }

  // From any state of a run: a rollback that succeeds leaves AwaitingReboot with the clone
  // confirmed, after its intent was saved and the rollback run, and the lock free.
  lemma RollbackSchedules(w: World, id: OperationId, source: SubvolumeIdentity, clone: SubvolumeIdentity)
    requires Inv(w) && MayRollBack(w, id) && source.Valid() && clone.Valid()
    requires clone.parentUuid == Some(source.uuid) && clone.uuid != source.uuid && clone.id != source.id
    ensures var o, d := w.ops[id], w.ops[id].disk;
            var intended := Do(Do(Do(w, RollbackBegin(id)), RollbackLoad(source, true)), RollbackSave(Done));
            var w' := Do(Do(Do(intended, RollbackExecute(true)), RollbackInspect(clone, true)), RollbackSave(Done));
            && id in w'.ops && w'.holder.Free? && w'.marker == w.marker
            && w'.ops[id].disk.state == AwaitingReboot && w'.ops[id].disk.error == None
            && w'.ops[id].disk.lastStep == Some(RollbackScheduled) && w'.ops[id].disk.boot == Some(Pending)
            && w'.ops[id].disk.recovery == Some(RollbackGoal(d.snapshotNumber.GetOr(0), source, Some(clone)))
            && w'.ops[id].log == o.log + [IntentSaved] + [RollbackRun(Intent(d, source))]
                                 + [CloneConfirmed(RollbackGoal(d.snapshotNumber.GetOr(0), source, Some(clone)))]
  {
    hide Inv, Do, ValidState, MayRollBack, SubvolumeIdentity.Valid;
    MayIs(w, id);
    var o, d := w.ops[id], w.ops[id].disk;
    RollbackRecord(w, id, source);
    RollbackIntends(w, id, source);
    var r := Intent(d, source);
    var intended := With(w, id, o.(disk := r, log := o.log + [IntentSaved]), w.marker, RollbackHolds(id, RollbackPc.Intended, r));
    RollbackRuns(intended, id, r, true);
    ScheduledPasses(r, clone);
    RollbackConfirms(Do(intended, RollbackExecute(true)), id, r, clone);
  }

  lemma MayIs(w: World, id: OperationId)
    requires MayRollBack(w, id)
    ensures id in w.ops
  {}

  lemma ScheduledPasses(r: Record, clone: SubvolumeIdentity)
    requires ValidState(r) && r.recovery.Some? && clone.Valid() && clone.parentUuid == Some(r.recovery.value.source.uuid)
    requires clone.uuid != r.recovery.value.source.uuid && clone.id != r.recovery.value.source.id
    ensures ValidState(ScheduledRecord(r, r.recovery.value.(boot := Some(clone))))
    ensures ValidState(RollbackFailedRecord(r, "ROLLBACK_FAILED"))
  {
    hide IsSha256, IsUuid;
  }

  // One whose command fails leaves NeedsRecovery, with the intent and its error.
  lemma RollbackFails(w: World, id: OperationId, source: SubvolumeIdentity)
    requires Inv(w) && MayRollBack(w, id) && source.Valid()
    ensures var o, d := w.ops[id], w.ops[id].disk;
            var intended := Do(Do(Do(w, RollbackBegin(id)), RollbackLoad(source, true)), RollbackSave(Done));
            var w' := Do(Do(intended, RollbackExecute(false)), RollbackSave(Done));
            && id in w'.ops && w'.holder.Free?
            && w'.ops[id].disk.state == NeedsRecovery && w'.ops[id].disk.error == Some(Execution("ROLLBACK_FAILED"))
            && w'.ops[id].disk.recovery == Some(RollbackGoal(d.snapshotNumber.GetOr(0), source, None))
            && w'.ops[id].log == o.log + [IntentSaved] + [RollbackRun(Intent(d, source))]
  {
    hide Inv, Do, ValidState, MayRollBack, SubvolumeIdentity.Valid;
    MayIs(w, id);
    var o, d := w.ops[id], w.ops[id].disk;
    RollbackRecord(w, id, source);
    RollbackIntends(w, id, source);
    var r := Intent(d, source);
    var intended := With(w, id, o.(disk := r, log := o.log + [IntentSaved]), w.marker, RollbackHolds(id, RollbackPc.Intended, r));
    RollbackRuns(intended, id, r, false);
    FailedPasses(r);
    RollbackUndoes(Do(intended, RollbackExecute(false)), id, r, "ROLLBACK_FAILED");
  }

  lemma FailedPasses(r: Record)
    requires ValidState(r)
    ensures r.snapshotNumber.Some? ==> ValidState(RollbackFailedRecord(r, "ROLLBACK_FAILED"))
  {
    hide IsSha256, IsUuid;
  }

  // ------------------------------------------------------------------ the requests

  // What a cancellation leaves, from any state of a run: an operation that has not come to
  // its snapshot fails with that reason, and any other is left alone.
  lemma CancellationIsSaved(w: World, id: OperationId)
    requires Inv(w) && id in w.ops
    ensures var d, w' := w.ops[id].disk, Do(w, Cancel(id, Done));
            && id in w'.ops
            && w'.ops[id].disk ==
                 (if d.state in {Idle, OperationState.Checking, Available, Preflight, OperationState.Planned, AwaitingConfirmation, Downloading, Blocked}
                  then d.(state := OperationState.Failed, error := Some(Cancelled), sequence := SaturatingAdd(d.sequence, 1)) else d)
  {
    hide Inv, ValidState, WorkerDo, OfflineDo, RollbackDo, VerifierDo;
    if w.ops[id].disk.state.IsCancelable() {
      ServiceWriteOk(w, Cancel(id, Done));
    }
  }

  // Keeping the current system declines the recovery of an operation that waits for it.
  lemma DecliningIsSaved(w: World, id: OperationId)
    requires Inv(w) && id in w.ops
    ensures var d, w' := w.ops[id].disk, Do(w, KeepCurrent(id, Done));
            && id in w'.ops
            && w'.ops[id].disk ==
                 (if d.state == NeedsRecovery
                  then d.(state := OperationState.Failed, error := Some(RecoveryDeclined), sequence := SaturatingAdd(d.sequence, 1)) else d)
  {
    hide Inv, ValidState, WorkerDo, OfflineDo, RollbackDo, VerifierDo;
    if w.ops[id].disk.state.NeedsRecovery? {
      ServiceWriteOk(w, KeepCurrent(id, Done));
    }
  }

  // What a failing worker leaves: nothing over a cancellation it can read, and else the
  // state that its error calls for.
  lemma FailuresAreSaved(w: World, id: OperationId, readable: bool)
    requires Inv(w) && id in w.ops && w.ops[id].worker.Worker? && w.ops[id].worker.pc.Failing?
    ensures var o, w' := w.ops[id], Do(w, WorkerFail(id, readable, Done));
            && id in w'.ops && w'.ops[id].worker.NoWorker?
            && (readable && o.disk.error == Some(Cancelled) ==> w'.ops[id].disk == o.disk)
            && (!(readable && o.disk.error == Some(Cancelled)) ==>
                  && w'.ops[id].disk.snapshotNumber == o.worker.rec.snapshotNumber
                  && w'.ops[id].disk.state ==
                       (if o.worker.rec.snapshotNumber.Some? then NeedsRecovery
                        else if o.worker.pc.error in {PlanChanged, Refresh, Replan, Download, Busy, RepositoryKey} then Blocked
                        else OperationState.Failed))
  {
    hide Inv, ValidState, OpOk, Do;
    DoesWork(w, WorkerFail(id, readable, Done));
    FailureLeaves(w.ops[id].worker.rec, w.ops[id].worker.pc.error);
    if !(readable && w.ops[id].disk.error == Some(Cancelled)) {
      WorkerWriteOk(w, WorkerFail(id, readable, Done));
    }
  }

  // ------------------------------------------------------------------------ the marker

  // Who may change the marker, and how: a signed operation's worker sets it where there is
  // none, and its offline worker removes it where it is its own; else only other updaters.
  ghost predicate MarkerChange(w: World, s: Step, w': World) {
    || s.ForeignMarker?
    || (s.WorkerMark? && w.marker == Absent && w'.marker == Lyra(s.op) && s.op in w.ops && w.ops[s.op].disk.contract.kind != UpdateWithinRelease)
    || (s.OfflineUnmark? && s.ok && w.holder.OfflineHolds? && w.marker == Lyra(w.holder.op) && w'.marker == Absent)
  }

  lemma WorkerMarks(w: World, s: Step)
    ensures WorkerDo(w, s).marker == w.marker || MarkerChange(w, s, WorkerDo(w, s))
  {
    hide TransitionTo, SaveTo, ValidState, FailureRecord;
  }

  lemma OfflineMarks(w: World, s: Step)
    ensures OfflineDo(w, s).marker == w.marker || MarkerChange(w, s, OfflineDo(w, s))
  {
    hide TransitionTo, SaveTo, ValidState, BootQuiet, Fresh, RecoveryMark;
  }

  lemma OthersMarkNothing(w: World, s: Step)
    ensures ServiceDo(w, s).marker == w.marker && RollbackDo(w, s).marker == w.marker && VerifierDo(w, s).marker == w.marker
  {
    hide TransitionTo, SaveTo, ValidState, BootQuiet, Finalized, Lists, Selects, InterruptedIn, ReconciledRecord;
  }

  lemma MarkerChangesOnlyThus(w: World, s: Step)
    ensures Do(w, s).marker == w.marker || MarkerChange(w, s, Do(w, s))
  {
    hide ServiceDo, WorkerDo, OfflineDo, RollbackDo, VerifierDo;
    WorkerMarks(w, s);
    OfflineMarks(w, s);
    OthersMarkNothing(w, s);
  }

  // A worker that finds another's marker gives up and leaves it; its own marker does not
  // stop it.
  lemma MarkingIs(w: World, id: OperationId, ok: bool)
    requires WorkerAt(w, id, NumberSaved) && w.ops[id].disk.contract.kind != UpdateWithinRelease
    ensures var w' := WorkerDo(w, WorkerMark(id, ok));
            && id in w'.ops && w'.ops[id].worker.Worker?
            && w'.marker == (if w.marker == Absent then Lyra(id) else w.marker)
            && w'.ops[id].worker.pc == (if w.marker != Absent && w.marker != Lyra(id) then Failing(SystemUpdateExists)
                                        else if ok then MarkerSet else Failing(Stage))
  {}

  // In every run in which no other updater touches it, a foreign marker stays.
  lemma {:induction false} ForeignMarkerStays(w: World, steps: seq<Step>)
    requires w.marker == Foreign && forall s :: s in steps ==> !s.ForeignMarker?
    ensures Continue(w, steps).marker == Foreign
    decreases |steps|
  {
    hide Do;
    if steps != [] {
      var front, last := steps[..|steps| - 1], steps[|steps| - 1];
      assert steps == front + [last];
      ForeignMarkerStays(w, front);
      MarkerChangesOnlyThus(Continue(w, front), last);
    }
  }
}
