/** States and kinds of an operation, shared by its record and by its event history. */
module Operation {

  datatype OperationKind = UpdateWithinRelease | ReleaseUpgrade | PackageMigration {
    predicate IsSignedOffline() {
      ReleaseUpgrade? || PackageMigration?
    }
  }

  datatype OperationState =
    | Idle | Checking | Available | Preflight | Planned | AwaitingConfirmation
    | Downloading | Snapshotting | Applying | ReadyToReboot | ApplyingOffline
    | AwaitingReboot | VerifyingBoot | Blocked | Failed | NeedsRecovery | Completed
  {
    predicate IsCancelable() {
      Idle? || Checking? || Available? || Preflight? || Planned? || AwaitingConfirmation?
      || Downloading? || Blocked?
    }
  }
}
