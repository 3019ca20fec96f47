/** Exact, signed package maintenance: the policy a manifest states, what of it is still
    to be done on an inventory, and the one transaction it allows. */
module Migration {
  import opened Wrappers
  import opened Records
  import opened Packages

  datatype MigrationError = InvalidPolicy | InstalledIdentity(name: string) | UnexpectedTransaction | AlreadyApplied

  // ---------------------------------------------------------------------- the policy

  predicate WellFormed(p: MigrationPackage, manifest: Manifest, alias: string) {
    && ValidPackage(p.name)
    && (p.architecture == "x86_64" || p.architecture == "noarch")
    && ValidEdition(p.fromVersion) && ValidEdition(p.toVersion)
    && ValidVendor(p.fromVendor) && ValidVendor(p.toVendor)
    && p.fromVersion != p.toVersion
    && IsSha256(p.sha256)
    && p.repositoryAlias in manifest.repositories && p.repositoryAlias == alias
  }

  predicate DistinctNames(packages: seq<MigrationPackage>) {
    forall i, j :: 0 <= i < j < |packages| ==> packages[i].name != packages[j].name
  }

  // Every vendor grant of a migration is scoped, and to packages that need it.
  predicate GrantsAreUsed(manifest: Manifest, packages: seq<MigrationPackage>) {
    forall rule :: rule in manifest.vendorTransitions ==>
      rule.packages.Some? && forall name :: name in rule.packages.value ==>
        exists p :: p in packages && p.name == name && p.fromVendor == rule.fromVendor && p.toVendor == rule.toVendor
  }

  predicate ValidMigration(manifest: Manifest) {
    manifest.migration.Some? ==>
      var packages := manifest.migration.value;
      && manifest.source == manifest.target
      && 0 < |packages| <= 64
      && (exists p :: p in packages && !p.ifInstalled)
      && manifest.allowedRemovals == [] && manifest.lockstep == []
      && (forall p :: p in packages ==> WellFormed(p, manifest, packages[0].repositoryAlias))
      && DistinctNames(packages)
      && GrantsAreUsed(manifest, packages)
  }

  // `validate_migration`, with the names seen so far in a set
  method ValidateMigration(manifest: Manifest) returns (ok: bool)
    ensures ok <==> ValidMigration(manifest)
  {
    hide WellFormed, GrantsAreUsed;
    if manifest.migration.None? {
      return true;
    }
    var packages := manifest.migration.value;
    if manifest.source != manifest.target || packages == [] || |packages| > 64
       || (forall p :: p in packages ==> p.ifInstalled)
       || manifest.allowedRemovals != [] || manifest.lockstep != [] {
      return false;
    }
    var names: set<string> := {};
    for i := 0 to |packages|
      invariant forall k :: 0 <= k < i ==> WellFormed(packages[k], manifest, packages[0].repositoryAlias)
      invariant forall name :: name in names <==> exists k :: 0 <= k < i && packages[k].name == name
      invariant DistinctNames(packages[..i])
    {
      if packages[i].name in names {
        return false;
      }
      names := names + {packages[i].name};
      if !WellFormed(packages[i], manifest, packages[0].repositoryAlias) {
        return false;
      }
    }
    assert packages[..|packages|] == packages;
    ok := GrantsAreUsed(manifest, packages);
  }

  // --------------------------------------------------------------- what is still due

  function Named(installed: seq<Installed>, name: string): seq<Installed> {
    if installed == [] then []
    else
      var before, last := Named(installed[..|installed| - 1], name), installed[|installed| - 1];
      if last.name == name then before + [last] else before
  }

  datatype Standing = Settled | Due | Misfit

  // How one package of the policy stands on an inventory.
  function StandingOf(p: MigrationPackage, installed: seq<Installed>): Standing {
    var matching := Named(installed, p.name);
    if matching == [] && p.ifInstalled then Settled
    else if |matching| != 1 || matching[0].architecture != p.architecture then Misfit
    else if matching[0].version == p.toVersion && matching[0].vendor == p.toVendor then Settled
    else if matching[0].version != p.fromVersion || matching[0].vendor != p.fromVendor then Misfit
    else Due
  }

  function DueIn(packages: seq<MigrationPackage>, installed: seq<Installed>): seq<MigrationPackage> {
    if packages == [] then []
    else
      var before, last := DueIn(packages[..|packages| - 1], installed), packages[|packages| - 1];
      if StandingOf(last, installed).Due? then before + [last] else before
  }

  function FirstMisfit(packages: seq<MigrationPackage>, installed: seq<Installed>): Option<MigrationPackage> {
    if packages == [] then None
    else
      var before := FirstMisfit(packages[..|packages| - 1], installed);
      if before.Some? then before
      else if StandingOf(packages[|packages| - 1], installed).Misfit? then Some(packages[|packages| - 1])
      else None
  }

  function PendingOn(manifest: Manifest, installed: seq<Installed>): Result<seq<MigrationPackage>, MigrationError> {
    if !ValidMigration(manifest) then Err(InvalidPolicy)
    else
      var packages := manifest.migration.GetOr([]);
      var misfit := FirstMisfit(packages, installed);
      if misfit.Some? then Err(InstalledIdentity(misfit.value.name)) else Ok(DueIn(packages, installed))
  }

  lemma {:induction false} MisfitPersists(packages: seq<MigrationPackage>, installed: seq<Installed>, k: nat)
    requires k <= |packages| && FirstMisfit(packages[..k], installed).Some?
    ensures FirstMisfit(packages, installed) == FirstMisfit(packages[..k], installed)
    decreases |packages| - k
  {
    hide StandingOf;
    if k < |packages| {
      assert packages[..k + 1][..k] == packages[..k];
      MisfitPersists(packages, installed, k + 1);
    } else {
      assert packages[..k] == packages;
    }
  }

  // `pending_migration`
  method PendingMigration(manifest: Manifest, installed: seq<Installed>)
    returns (r: Result<seq<MigrationPackage>, MigrationError>)
    ensures r == PendingOn(manifest, installed)
  {
    hide ValidMigration, Named;
    var ok := ValidateMigration(manifest);
    if !ok {
      return Err(InvalidPolicy);
    }
    var packages := manifest.migration.GetOr([]);
    var pending := [];
    for i := 0 to |packages|
      invariant FirstMisfit(packages[..i], installed).None? && pending == DueIn(packages[..i], installed)
    {
      var p := packages[i];
      assert packages[..i + 1][..i] == packages[..i];
      var matching := Named(installed, p.name);
      if matching == [] && p.ifInstalled {
        continue;
      }
      if |matching| != 1 || matching[0].architecture != p.architecture {
        MisfitPersists(packages, installed, i + 1);
        return Err(InstalledIdentity(p.name));
      }
      var current := matching[0];
      if current.version == p.toVersion && current.vendor == p.toVendor {
        continue;
      }
      if current.version != p.fromVersion || current.vendor != p.fromVendor {
        MisfitPersists(packages, installed, i + 1);
        return Err(InstalledIdentity(p.name));
      }
      pending := pending + [p];
    }
    assert packages[..|packages|] == packages;
    r := Ok(pending);
  }

  lemma {:induction false} NoMisfit(packages: seq<MigrationPackage>, installed: seq<Installed>)
    ensures FirstMisfit(packages, installed).None? <==>
            forall p :: p in packages ==> !StandingOf(p, installed).Misfit?
    ensures FirstMisfit(packages, installed).Some? ==>
              FirstMisfit(packages, installed).value in packages
              && StandingOf(FirstMisfit(packages, installed).value, installed).Misfit?
  {
    hide StandingOf;
    if packages != [] {
      NoMisfit(packages[..|packages| - 1], installed);
      assert packages == packages[..|packages| - 1] + [packages[|packages| - 1]];
    }
  }

  lemma {:induction false} DueAreMembers(packages: seq<MigrationPackage>, installed: seq<Installed>)
    ensures forall p :: p in DueIn(packages, installed) <==> p in packages && StandingOf(p, installed).Due?
  {
    hide StandingOf;
    if packages != [] {
      DueAreMembers(packages[..|packages| - 1], installed);
      assert packages == packages[..|packages| - 1] + [packages[|packages| - 1]];
    }
  }

  // What is pending: nothing on the inventory contradicts the policy, and exactly the
  // packages that stand at their old identity are to be changed.
  lemma PendingExactly(manifest: Manifest, installed: seq<Installed>)
    ensures PendingOn(manifest, installed).Ok? <==>
            ValidMigration(manifest)
            && forall p :: p in manifest.migration.GetOr([]) ==> !StandingOf(p, installed).Misfit?
    ensures PendingOn(manifest, installed).Ok? ==>
              forall p :: p in PendingOn(manifest, installed).value <==>
                          p in manifest.migration.GetOr([]) && StandingOf(p, installed).Due?
  {
    hide ValidMigration, StandingOf, FirstMisfit, DueIn;
    NoMisfit(manifest.migration.GetOr([]), installed);
    DueAreMembers(manifest.migration.GetOr([]), installed);
  }

  // ----------------------------------------------------------- the one transaction

  predicate Executes(change: Change, p: MigrationPackage) {
    && change.name == p.name && change.architecture == p.architecture
    && (change.action.Upgrade? || change.action.Reinstall?)
    && change.currentVersion == Some(p.fromVersion) && change.currentVendor == Some(p.fromVendor)
    && change.proposedVersion == Some(p.toVersion) && change.proposedVendor == Some(p.toVendor)
    && change.repositoryAlias == Some(p.repositoryAlias)
  }

  predicate IsExecuted(change: Change, pending: seq<MigrationPackage>) {
    exists p :: p in pending && Executes(change, p)
  }

  predicate DistinctChanges(changes: seq<Change>) {
    forall i, j :: 0 <= i < j < |changes| ==> changes[i].name != changes[j].name
  }

  predicate IsTheTransaction(changes: seq<Change>, pending: seq<MigrationPackage>) {
    && |changes| == |pending| && DistinctChanges(changes)
    && forall change :: change in changes ==> IsExecuted(change, pending)
  }

  function MigrationPlan(manifest: Manifest, installed: seq<Installed>, changes: seq<Change>): Result<(), MigrationError> {
    if manifest.migration.None? then Ok(())
    else
      var pending := PendingOn(manifest, installed);
      if pending.Err? then Err(pending.error)
      else if IsTheTransaction(changes, pending.value) then Ok(())
      else Err(UnexpectedTransaction)
  }

  // `validate_migration_plan`
  method ValidateMigrationPlan(manifest: Manifest, installed: seq<Installed>, changes: seq<Change>)
    returns (r: Result<(), MigrationError>)
    ensures r == MigrationPlan(manifest, installed, changes)
  {
    hide PendingOn, IsExecuted;
    if manifest.migration.None? {
      return Ok(());
    }
    var result := PendingMigration(manifest, installed);
    if result.Err? {
      return Err(result.error);
    }
    var pending := result.value;
    if |changes| != |pending| {
      return Err(UnexpectedTransaction);
    }
    var seen: set<string> := {};
    for i := 0 to |changes|
      invariant forall name :: name in seen <==> exists k :: 0 <= k < i && changes[k].name == name
      invariant DistinctChanges(changes[..i])
      invariant forall k :: 0 <= k < i ==> IsExecuted(changes[k], pending)
    {
      if changes[i].name in seen || !IsExecuted(changes[i], pending) {
        return Err(UnexpectedTransaction);
      }
      seen := seen + {changes[i].name};
    }
    assert changes[..|changes|] == changes;
    r := Ok(());
  }
}
