/** The persisted record of an operation: its fields, its transitions, its gate. */
module Records {
  import opened Wrappers
  import opened Decimal
  import opened Operation

  const STATE_SCHEMA_VERSION := 1

  datatype ReleaseIdentity = ReleaseIdentity(version: string, edition: string, architecture: string, buildId: string)

  datatype SubvolumeIdentity = SubvolumeIdentity(id: u64, uuid: string, parentUuid: Option<string>) {
    predicate Valid() {
      id > 5 && IsUuid(uuid) && (parentUuid.None? || IsUuid(parentUuid.value))
    }
  }

  datatype RollbackGoal = RollbackGoal(
    sourceNumber: u64, source: SubvolumeIdentity, boot: Option<SubvolumeIdentity>)
  {
    predicate Valid(snapshotNumber: Option<u64>) {
      && sourceNumber > 0
      && snapshotNumber == Some(sourceNumber)
      && source.Valid()
      && (boot.Some? ==> boot.value.Valid() && IsCloneOfSource(boot.value))
    }

    predicate IsCloneOfSource(clone: SubvolumeIdentity) {
      clone.id != source.id && clone.uuid != source.uuid && clone.parentUuid == Some(source.uuid)
    }
  }

  predicate IsHex(c: char) {
    '0' <= c <= '9' || 'a' <= c <= 'f'
  }

  predicate IsUuid(s: string) {
    |s| == 36 && forall i :: 0 <= i < 36 ==>
      if i == 8 || i == 13 || i == 18 || i == 23 then s[i] == '-' else IsHex(s[i])
  }

  predicate IsSha256(s: string) {
    |s| == 64 && forall i :: 0 <= i < 64 ==> IsHex(s[i])
  }

  datatype CompletedStep =
    | Planned | OfflineApplied | RollbackPreparing | RollbackScheduled | RollbackVerified | PostBootVerification

  datatype ErrorCode =
    | Cancelled | Interrupted | OfflineApplyFailed | RecoveryDeclined
    | PostBootVerificationFailed | ManifestSequencePersistFailed | Execution(code: string)

  datatype BootVerification = Pending | Passed | Failed

  // The part of a record that no writer changes.
  datatype Contract = Contract(
    schemaVersion: nat, operationId: string, kind: OperationKind, source: ReleaseIdentity,
    target: Option<ReleaseIdentity>, planSha256: string, manifestSha256: Option<string>)
  {
    predicate Valid() {
      && schemaVersion == STATE_SCHEMA_VERSION
      && IsSha256(planSha256)
      && (manifestSha256.None? || IsSha256(manifestSha256.value))
      && match kind
         case UpdateWithinRelease => target.None? && manifestSha256.None?
         case ReleaseUpgrade => target.Some? && manifestSha256.Some?
         case PackageMigration => target == Some(source) && manifestSha256.Some?
    }
  }

  datatype Record = Record(
    contract: Contract, sequence: u64, state: OperationState, snapshotNumber: Option<u64>,
    recovery: Option<RollbackGoal>, lastStep: Option<CompletedStep>, error: Option<ErrorCode>,
    boot: Option<BootVerification>)
  {
    function Bump(): Record {
      this.(sequence := SaturatingAdd(sequence, 1))
    }
  }

  predicate NeedsSnapshot(s: OperationState) {
    s.Applying? || s.ReadyToReboot? || s.ApplyingOffline? || s.AwaitingReboot? || s.VerifyingBoot?
    || s.NeedsRecovery? || s.Completed?
  }

  // `validate_state`: the gate on every write and every read.
  predicate ValidState(r: Record) {
    && r.contract.Valid()
    && r.snapshotNumber != Some(0)
    && (NeedsSnapshot(r.state) ==> r.snapshotNumber.Some?)
    && (r.recovery.Some? ==>
          && (r.state.NeedsRecovery? || r.state.Failed? || r.state.AwaitingReboot? || r.state.VerifyingBoot?
              || r.state.Completed?)
          && r.recovery.value.Valid(r.snapshotNumber)
          && (r.state.NeedsRecovery? || r.state.Failed? || r.recovery.value.boot.Some?))
  }

  predicate ValidTransition(kind: OperationKind, current: OperationState, next: OperationState) {
    match next
    case Blocked => current.Checking? || current.Preflight? || current.Downloading?
    case Failed => !(current.Completed? || current.NeedsRecovery?)
    case NeedsRecovery => current.Snapshotting? || current.Applying? || current.ApplyingOffline? || current.VerifyingBoot?
    case Checking => current.Idle?
    case Available => current.Checking?
    case Preflight => current.Available? || current.Blocked?
    case Planned => current.Preflight?
    case AwaitingConfirmation => current.Planned?
    case Downloading => current.AwaitingConfirmation?
    case Snapshotting => current.Downloading?
    case Applying => current.Snapshotting? && kind.UpdateWithinRelease?
    case ReadyToReboot => current.Snapshotting? && kind.IsSignedOffline()
    case ApplyingOffline => current.ReadyToReboot? && kind.IsSignedOffline()
    case AwaitingReboot => current.Applying? || (current.ApplyingOffline? && kind.IsSignedOffline())
    case VerifyingBoot => current.AwaitingReboot?
    case Completed => current.Applying? || current.VerifyingBoot?
    case Idle => current.Blocked?
  }

  datatype TransitionError = UnsupportedSchema | InvalidTransition | SnapshotNotRecorded

  function TransitionTo(r: Record, next: OperationState): Result<Record, TransitionError> {
    if r.contract.schemaVersion != STATE_SCHEMA_VERSION then Err(UnsupportedSchema)
    else if (next.Applying? || next.ReadyToReboot? || next.ApplyingOffline?) && r.snapshotNumber.None? then
      Err(SnapshotNotRecorded)
    else if !ValidTransition(r.contract.kind, r.state, next) then Err(InvalidTransition)
    else Ok(r.(state := next).Bump())
  }

  // `interrupted_state`: what the boot verifier makes of a record left in flight.
  function InterruptedState(s: OperationState): Option<OperationState> {
    match s
    case Downloading => Some(OperationState.Failed)
    case Snapshotting => Some(NeedsRecovery)
    case Applying => Some(NeedsRecovery)
    case ApplyingOffline => Some(NeedsRecovery)
    case ReadyToReboot => Some(NeedsRecovery)
    case _ => None
  }

  // A record that waits for the boot verifier.
  predicate IsCandidate(r: Record) {
    r.state.AwaitingReboot? || r.state.VerifyingBoot?
  }

  // A record that no boot will continue. `markedId` is the operation the system-update
  // link points at, if any.
  predicate LeftInFlight(r: Record, markedId: Option<string>) {
    if r.state.ReadyToReboot? then markedId != Some(r.contract.operationId)
    else InterruptedState(r.state).Some?
  }

  datatype ExecutionError =
    | PlanChanged | Refresh | Replan | Download | Snapshot | InvalidSnapshot | Persist | Apply
    | PackageManagerRestart | Initramfs | Grub | Transition | Stage | SystemUpdateExists | Busy
    | CancelRequested | RepositoryKey | Inventory
  {
    predicate IsBlocking() {
      PlanChanged? || Refresh? || Replan? || Download? || Busy? || RepositoryKey?
    }

    function Code(): ErrorCode {
      match this
      case PlanChanged => Execution("PLAN_CHANGED")
      case Refresh => Execution("METADATA_REFRESH_FAILED")
      case Replan => Execution("PLAN_REVALIDATION_FAILED")
      case Download => Execution("DOWNLOAD_FAILED")
      case Snapshot => Execution("SNAPSHOT_FAILED")
      case InvalidSnapshot => Execution("SNAPSHOT_FAILED")
      case Persist => Execution("STATE_WRITE_FAILED")
      case Apply => Execution("ZYPPER_APPLY_FAILED")
      case PackageManagerRestart => Execution("ZYPPER_RESTART_REQUIRED")
      case Initramfs => Execution("INITRAMFS_FAILED")
      case Grub => Execution("BOOTLOADER_FAILED")
      case Transition => Execution("INVALID_STATE_TRANSITION")
      case Stage => Execution("OFFLINE_STAGE_FAILED")
      case SystemUpdateExists => Execution("SYSTEM_UPDATE_BUSY")
      case Busy => Execution("TRANSACTION_BUSY")
      case CancelRequested => Cancelled
      case RepositoryKey => Execution("REPOSITORY_KEY_FAILED")
      case Inventory => Execution("PACKAGE_PRESERVATION_FAILED")
    }
  }

  function FailureState(e: ExecutionError, hasSnapshot: bool): OperationState {
    if e.IsBlocking() && !hasSnapshot then Blocked
    else if hasSnapshot then NeedsRecovery
    else OperationState.Failed
  }

  // ---------------------------------------------- what each writer makes of a record

  function CancelledRecord(r: Record): Record {
    r.(state := OperationState.Failed, error := Some(Cancelled)).Bump()
  }

  function DeclinedRecord(r: Record): Record {
    r.(state := OperationState.Failed, error := Some(RecoveryDeclined)).Bump()
  }

  function FailureRecord(r: Record, e: ExecutionError): Record {
    r.(state := FailureState(e, r.snapshotNumber.Some?), error := Some(e.Code())).Bump()
  }

  function RecoveryMark(r: Record): Record {
    r.(state := NeedsRecovery, error := Some(OfflineApplyFailed)).Bump()
  }

  function ReconciledRecord(r: Record): Record
    requires InterruptedState(r.state).Some?
  {
    r.(state := InterruptedState(r.state).value, error := Some(Interrupted)).Bump()
  }

  function IntentRecord(r: Record, goal: RollbackGoal): Record {
    r.(recovery := Some(goal), lastStep := Some(RollbackPreparing), boot := Some(Pending)).Bump()
  }

  function ScheduledRecord(r: Record, goal: RollbackGoal): Record {
    r.(recovery := Some(goal), state := AwaitingReboot, error := None, lastStep := Some(RollbackScheduled)).Bump()
  }

  function RollbackFailedRecord(r: Record, code: string): Record {
    r.(state := NeedsRecovery, error := Some(Execution(code))).Bump()
  }

  function CompletedRecord(r: Record): Record {
    r.(state := Completed, boot := Some(Passed), error := None,
       lastStep := Some(if r.recovery.Some? then RollbackVerified else PostBootVerification)).Bump()
  }

  function VerificationFailedRecord(r: Record, error: ErrorCode): Record {
    r.(state := NeedsRecovery, boot := Some(BootVerification.Failed), error := Some(error)).Bump()
  }

  // Reconciling an interrupted record yields one the gate accepts, except a record
  // that stopped in Snapshotting before its snapshot number was stored.
  lemma ReconciliationIsSavedExactly(r: Record)
    requires ValidState(r) && InterruptedState(r.state).Some?
    ensures ValidState(ReconciledRecord(r)) <==> !(r.state.Snapshotting? && r.snapshotNumber.None?)
  {}

  // ------------------------------------------------------- the record as an object

  class OperationStateRecord {
    const contract: Contract
    var sequence: u64
    var state: OperationState
    var snapshotNumber: Option<u64>
    var recovery: Option<RollbackGoal>
    var lastStep: Option<CompletedStep>
    var error: Option<ErrorCode>
    var boot: Option<BootVerification>

    constructor (r: Record)
      ensures View() == r
    {
      contract, sequence, state, snapshotNumber := r.contract, r.sequence, r.state, r.snapshotNumber;
      recovery, lastStep, error, boot := r.recovery, r.lastStep, r.error, r.boot;
    }

    function View(): Record
      reads this
    {
      Record(contract, sequence, state, snapshotNumber, recovery, lastStep, error, boot)
    }

    method Transition(next: OperationState) returns (result: Result<(), TransitionError>)
      modifies this`state, this`sequence
      ensures match TransitionTo(old(View()), next)
              case Ok(r) => result == Ok(()) && View() == r
              case Err(e) => result == Err(e) && View() == old(View())
    {
      if contract.schemaVersion != STATE_SCHEMA_VERSION {
        return Err(UnsupportedSchema);
      }
      if (next.Applying? || next.ReadyToReboot? || next.ApplyingOffline?) && snapshotNumber.None? {
        return Err(SnapshotNotRecorded);
      }
      if !ValidTransition(contract.kind, state, next) {
        return Err(InvalidTransition);
      }
      state := next;
      sequence := SaturatingAdd(sequence, 1);
      return Ok(());
    }

    // `prepare_offline_state`
    method PrepareOffline() returns (ok: bool)
      modifies this`state, this`sequence
      ensures ok == (old(state).ReadyToReboot? && snapshotNumber.Some?
                     && TransitionTo(old(View()), ApplyingOffline).Ok?)
      ensures View() == if ok then TransitionTo(old(View()), ApplyingOffline).value else old(View())
    {
      if !state.ReadyToReboot? || snapshotNumber.None? {
        return false;
      }
      var result := Transition(ApplyingOffline);
      ok := result.Ok?;
    }

    // `finalize_verification`: `written` tells whether the replay sequence of the
    // manifest could be read and stored; it is asked for only when it matters.
    method FinalizeVerification(passed: bool, written: bool)
      modifies this`state, this`sequence, this`boot, this`error, this`lastStep
      ensures View() == Finalized(old(View()), passed, written)
    {
      sequence := SaturatingAdd(sequence, 1);
      if passed {
        if recovery.None? && contract.kind.IsSignedOffline() {
          if !written {
            state := NeedsRecovery;
            boot := Some(BootVerification.Failed);
            error := Some(ManifestSequencePersistFailed);
            return;
          }
        }
        state := Completed;
        boot := Some(Passed);
        lastStep := Some(if recovery.Some? then RollbackVerified else PostBootVerification);
        error := None;
      } else {
        state := NeedsRecovery;
        boot := Some(BootVerification.Failed);
        error := Some(PostBootVerificationFailed);
      }
    }
  }

  predicate AdvancesCounter(r: Record) {
    r.recovery.None? && r.contract.kind.IsSignedOffline()
  }

  function Finalized(r: Record, passed: bool, written: bool): Record {
    if passed && (written || !AdvancesCounter(r)) then CompletedRecord(r)
    else VerificationFailedRecord(r, if passed then ManifestSequencePersistFailed else PostBootVerificationFailed)
  }

  // ------------------------------------------------------------- what is recorded

  // The verdict of a verification, field by field. A rollback that passed, and an update,
  // never depend on the replay sequence; a signed operation without a goal does.
  lemma VerdictFields(r: Record, passed: bool, written: bool)
    ensures var v := Finalized(r, passed, written);
            var awaited := r.recovery.None? && !r.contract.kind.UpdateWithinRelease?;
            && v.contract == r.contract && v.snapshotNumber == r.snapshotNumber && v.recovery == r.recovery
            && v.sequence == SaturatingAdd(r.sequence, 1)
            && (passed && (awaited ==> written) ==>
                  && v.state == Completed && v.boot == Some(Passed) && v.error == None
                  && v.lastStep == Some(if r.recovery.Some? then RollbackVerified else PostBootVerification))
            && (passed && awaited && !written ==>
                  && v.state == NeedsRecovery && v.boot == Some(BootVerification.Failed)
                  && v.error == Some(ManifestSequencePersistFailed) && v.lastStep == r.lastStep)
            && (!passed ==>
                  && v.state == NeedsRecovery && v.boot == Some(BootVerification.Failed)
                  && v.error == Some(PostBootVerificationFailed) && v.lastStep == r.lastStep)
  {}

  // What a transition may lead to, from each state.
  function Successors(kind: OperationKind, s: OperationState): set<OperationState> {
    match s
    case Idle => {Checking, OperationState.Failed}
    case Checking => {Available, Blocked, OperationState.Failed}
    case Available => {Preflight, OperationState.Failed}
    case Preflight => {OperationState.Planned, Blocked, OperationState.Failed}
    case Planned => {AwaitingConfirmation, OperationState.Failed}
    case AwaitingConfirmation => {Downloading, OperationState.Failed}
    case Downloading => {Snapshotting, Blocked, OperationState.Failed}
    case Snapshotting =>
      {NeedsRecovery, OperationState.Failed, if kind.UpdateWithinRelease? then Applying else ReadyToReboot}
    case Applying => {AwaitingReboot, Completed, NeedsRecovery, OperationState.Failed}
    case ReadyToReboot => if kind.UpdateWithinRelease? then {OperationState.Failed} else {ApplyingOffline, OperationState.Failed}
    case ApplyingOffline =>
      if kind.UpdateWithinRelease? then {NeedsRecovery, OperationState.Failed}
      else {AwaitingReboot, NeedsRecovery, OperationState.Failed}
    case AwaitingReboot => {VerifyingBoot, OperationState.Failed}
    case VerifyingBoot => {Completed, NeedsRecovery, OperationState.Failed}
    case Blocked => {Preflight, Idle, OperationState.Failed}
    case Failed => {OperationState.Failed}
    case NeedsRecovery => {}
    case Completed => {}
  }

  // A transition succeeds exactly along these edges, with the snapshot recorded where the
  // next state starts on the packages; it changes the state and counts the sequence on.
  lemma TransitionsAre(r: Record, next: OperationState)
    requires r.contract.schemaVersion == 1
    ensures TransitionTo(r, next).Ok? <==>
              && next in Successors(r.contract.kind, r.state)
              && (next in {Applying, ReadyToReboot, ApplyingOffline} ==> r.snapshotNumber.Some?)
    ensures TransitionTo(r, next).Ok? ==>
              TransitionTo(r, next).value == r.(state := next, sequence := SaturatingAdd(r.sequence, 1))
  {}

  // What a worker's failure leaves: without a snapshot the operation is blocked by what a
  // new attempt may overcome and failed by anything else; with one it needs recovery.
  lemma FailureLeaves(r: Record, e: ExecutionError)
    ensures var f := FailureRecord(r, e);
            && f == r.(state := f.state, error := f.error, sequence := SaturatingAdd(r.sequence, 1))
            && (r.snapshotNumber.Some? ==> f.state == NeedsRecovery)
            && (r.snapshotNumber.None? ==>
                  f.state == if e in {PlanChanged, Refresh, Replan, Download, Busy, RepositoryKey} then Blocked
                             else OperationState.Failed)
            && (f.error == Some(Cancelled) <==> e == CancelRequested)
  {}

  // What the other writers leave.
  lemma RequestsLeave(r: Record, goal: RollbackGoal, code: string)
    ensures var next := SaturatingAdd(r.sequence, 1);
            && CancelledRecord(r) == r.(state := OperationState.Failed, error := Some(Cancelled), sequence := next)
            && DeclinedRecord(r) == r.(state := OperationState.Failed, error := Some(RecoveryDeclined), sequence := next)
            && RecoveryMark(r) == r.(state := NeedsRecovery, error := Some(OfflineApplyFailed), sequence := next)
            && IntentRecord(r, goal)
               == r.(recovery := Some(goal), lastStep := Some(RollbackPreparing), boot := Some(Pending), sequence := next)
            && ScheduledRecord(r, goal)
               == r.(recovery := Some(goal), state := AwaitingReboot, error := None, lastStep := Some(RollbackScheduled), sequence := next)
            && RollbackFailedRecord(r, code) == r.(state := NeedsRecovery, error := Some(Execution(code)), sequence := next)
  {}

  // Reconciling an interrupted record.
  lemma ReconciliationLeaves(r: Record)
    ensures InterruptedState(r.state).Some? <==>
              r.state in {Downloading, Snapshotting, Applying, ApplyingOffline, ReadyToReboot}
    ensures InterruptedState(r.state).Some? ==>
              ReconciledRecord(r) == r.(state := if r.state == Downloading then OperationState.Failed else NeedsRecovery,
                                        error := Some(Interrupted), sequence := SaturatingAdd(r.sequence, 1))
  {}
}
