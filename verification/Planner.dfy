/** The plan a user confirms, and its revalidation before staging and before the
    offline transaction: both stand for one reviewed transaction. */
module Planner {
  import opened Wrappers
  import opened Decimal
  import opened Operation
  import opened Records
  import opened Packages
  import opened Orders
  import opened PackageOrder
  import opened Issues
  import opened VendorPolicy
  import opened Migration
  import opened Inventory
  import opened Transaction
  import opened Preflight

  const PLAN_SCHEMA_VERSION := 3

  datatype UpgradePlan = UpgradePlan(
    schemaVersion: nat, operation: OperationKind, source: ReleaseIdentity, target: Option<ReleaseIdentity>,
    manifestSha256: Option<string>, requiredBytes: u64, facts: map<string, string>,
    repositories: seq<RepositoryFact>, metadataValid: seq<string>, thirdParty: seq<string>,
    held: seq<string>, installed: seq<Installed>, orphaned: seq<string>, changes: seq<Change>, rebootRequired: bool)

  datatype PlanError = NotPassed(issues: seq<Issue>) | TargetRequired | ManifestRequired | TargetNotAllowed

  // ---------------------------------------------------------------- canonical orders

  // Repositories are ordered by alias only.
  function RepositoryKey(r: RepositoryFact): seq<Field> {
    [Text(r.alias)]
  }

  predicate UniqueAliases(repositories: seq<RepositoryFact>) {
    forall a, b :: a in repositories && b in repositories && a.alias == b.alias ==> a == b
  }

  lemma RepositoriesIdentify(s: seq<RepositoryFact>)
    requires UniqueAliases(s)
    ensures KeysIdentify(s, RepositoryKey)
  {
    forall a, b | a in s && b in s && RepositoryKey(a) == RepositoryKey(b)
      ensures a == b
    {
      assert RepositoryKey(a)[0] == RepositoryKey(b)[0];
    }
  }

  // ------------------------------------------------------------------------- the plan

  function SecureBootFact(enabled: Option<bool>): string {
    match enabled
    case None => "unknown"
    case Some(on) => if on then "true" else "false"
  }

  predicate TargetAllowed(operation: OperationKind, target: ReleaseIdentity, current: ReleaseIdentity) {
    && target.edition == current.edition && target.architecture == current.architecture
    && (operation.ReleaseUpgrade? ==> target.version != current.version)
    && (operation.PackageMigration? ==> target == current)
  }

  // `build_plan`
  function BuildPlan(operation: OperationKind, facts: HostFacts, report: Report, target: Option<ReleaseIdentity>,
                     manifestSha256: Option<string>, solver: SolverResult): Result<UpgradePlan, PlanError>
  {
    if !report.Passed() then Err(NotPassed(report.blockers))
    else if operation.IsSignedOffline() && target.None? then Err(TargetRequired)
    else if operation.IsSignedOffline() && !TargetAllowed(operation, target.value, facts.release) then Err(TargetNotAllowed)
    else if operation.IsSignedOffline() && (manifestSha256.None? || !IsSha256(manifestSha256.value)) then Err(ManifestRequired)
    else if !operation.IsSignedOffline() && (target.Some? || manifestSha256.Some?) then Err(TargetNotAllowed)
    else
      Ok(UpgradePlan(
           PLAN_SCHEMA_VERSION, operation, facts.release, target, manifestSha256, report.requiredBytes,
           map["root_filesystem" := facts.rootFilesystem, "secure_boot" := SecureBootFact(facts.secureBoot)],
           Sort(facts.repositories, RepositoryKey), SortedSet(solver.metadataValid), report.thirdParty,
           report.held, Sort(facts.installed, InstalledKey), report.orphaned, Sort(solver.changes, ChangeKey),
           solver.rebootRequired || operation.IsSignedOffline()))
  }

  lemma ListsIgnoreOrder(operation: OperationKind, facts: HostFacts, facts': HostFacts, report: Report,
                         target: Option<ReleaseIdentity>, hash: Option<string>, solver: SolverResult, solver': SolverResult)
    requires SameHost(facts, facts') && SameSolution(solver, solver') && UniqueAliases(facts.repositories)
    ensures BuildPlan(operation, facts, report, target, hash, solver)
            == BuildPlan(operation, facts', report, target, hash, solver')
  {
    hide KeysIdentify, Sort, SortedSet, IsSha256;
    RepositoriesIdentify(facts.repositories);
    SortIgnoresOrder(facts.repositories, facts'.repositories, RepositoryKey);
    InstalledIdentify(facts.installed);
    SortIgnoresOrder(facts.installed, facts'.installed, InstalledKey);
    ChangesIdentify(solver.changes);
    SortIgnoresOrder(solver.changes, solver'.changes, ChangeKey);
    SameElements(solver.metadataValid, solver'.metadataValid);
    SortedSetIgnoresOrder(solver.metadataValid, solver'.metadataValid);
  }

  // The plan of a host and a solution forgets the order of every list it is built
  // from, through the preflight report as well.
  lemma PlanIgnoresOrder(operation: OperationKind, facts: HostFacts, facts': HostFacts, policy: PreflightPolicy,
                         rules: SolverPolicy, target: Option<ReleaseIdentity>, hash: Option<string>,
                         solver: SolverResult, solver': SolverResult)
    requires SameHost(facts, facts') && SameSolution(solver, solver') && UniqueAliases(facts.repositories)
    ensures BuildPlan(operation, facts, SolverReport(facts, policy, solver, rules), target, hash, solver)
            == BuildPlan(operation, facts', SolverReport(facts', policy, solver', rules), target, hash, solver')
  {
    hide BuildPlan, SameHost, SameSolution, UniqueAliases, SolverReport;
    SolverReportIgnoresOrder(facts, facts', policy, solver, solver', rules);
    ListsIgnoreOrder(operation, facts, facts', SolverReport(facts, policy, solver, rules), target, hash, solver, solver');
  }

  // ------------------------------------------------------------------- revalidation

  datatype PlannerError =
    | PlanChanged | Migration(error: MigrationError) | Blockers(issues: seq<Issue>) | NotBuilt(cause: PlanError)

  function OperationOf(manifest: Manifest): OperationKind {
    if manifest.migration.Some? then PackageMigration else ReleaseUpgrade
  }

  // `check_confirmed_release_plan`; `digest` is the manifest's hash and `hash` that of plans
  function CheckConfirmed(manifest: Manifest, digest: string, confirmed: UpgradePlan, expected: string,
                          hash: UpgradePlan -> string): Result<(), PlannerError>
  {
    if || confirmed.operation != OperationOf(manifest) || confirmed.source != manifest.source
       || confirmed.target != Some(manifest.target) || confirmed.manifestSha256 != Some(digest)
       || hash(confirmed) != expected then Err(PlannerError.PlanChanged)
    else
      var migration := MigrationPlan(manifest, confirmed.installed, confirmed.changes);
      if migration.Err? then Err(PlannerError.Migration(migration.error))
      else
        var blockers := VendorBlockers(confirmed.changes, PolicyOf(manifest));
        if blockers != [] then Err(Blockers(blockers)) else Ok(())
  }

  const DefaultPolicy := PreflightPolicy(40, 1024 * 1024 * 1024, 0, true)

  // `revalidate_release_plan`
  function Revalidate(facts: HostFacts, solver: SolverResult, manifest: Manifest, digest: string,
                      confirmed: UpgradePlan, expected: string, hash: UpgradePlan -> string): Result<(), PlannerError>
  {
    var checked := CheckConfirmed(manifest, digest, confirmed, expected, hash);
    if checked.Err? then checked
    else
      var migration := MigrationPlan(manifest, facts.installed, solver.changes);
      if migration.Err? then Err(PlannerError.Migration(migration.error))
      else
        var report := SolverReport(facts, DefaultPolicy.(minimumFreeSpace := manifest.minimumFreeSpace), solver, PolicyOf(manifest));
        if !report.Passed() then Err(Blockers(report.blockers))
        else
          var rebuilt := BuildPlan(OperationOf(manifest), facts, report, Some(manifest.target), confirmed.manifestSha256, solver);
          if rebuilt.Err? then Err(NotBuilt(rebuilt.error))
          else if hash(rebuilt.value.(requiredBytes := confirmed.requiredBytes)) != expected then Err(PlannerError.PlanChanged)
          else Ok(())
  }

  ghost predicate Injective(hash: UpgradePlan -> string) {
    forall p, q :: hash(p) == hash(q) ==> p == q
  }

  // Success of a revalidation.
  predicate Revalidated(facts: HostFacts, solver: SolverResult, manifest: Manifest, digest: string,
                        confirmed: UpgradePlan, expected: string, hash: UpgradePlan -> string)
  {
    Revalidate(facts, solver, manifest, digest, confirmed, expected, hash).Ok?
  }

  lemma SortedElements<T(!new)>(s: seq<T>, key: T -> seq<Field>)
    ensures multiset(Sort(s, key)) == multiset(s)
  {
    hide SortedBy, Sort;
    SortKeeps(s, key);
  }

  // A revalidation succeeds exactly when the confirmed plan stands, the fresh solution
  // is the migration's, no blocker holds, and the plan rebuilt from the fresh host and
  // solution is the confirmed one but for the space estimate.
  lemma RevalidatesExactly(facts: HostFacts, solver: SolverResult, manifest: Manifest, digest: string,
                           confirmed: UpgradePlan, expected: string, hash: UpgradePlan -> string)
    requires Injective(hash)
    ensures Revalidated(facts, solver, manifest, digest, confirmed, expected, hash) <==>
            var report := SolverReport(facts, DefaultPolicy.(minimumFreeSpace := manifest.minimumFreeSpace), solver, PolicyOf(manifest));
            var rebuilt := BuildPlan(OperationOf(manifest), facts, report, Some(manifest.target), Some(digest), solver);
            && CheckConfirmed(manifest, digest, confirmed, expected, hash).Ok?
            && MigrationPlan(manifest, facts.installed, solver.changes).Ok?
            && report.Passed()
            && rebuilt.Ok? && rebuilt.value.(requiredBytes := confirmed.requiredBytes) == confirmed
  {
    hide MigrationPlan, SolverReport, BuildPlan, VendorBlockers;
  }

  // Revalidation binds the transaction: the fresh solution and the fresh inventory are
  // permutations of the confirmed ones, the source, target, repositories and every other
  // field of the plan but the space estimate coincide, and no blocker holds under the
  // manifest's policy.
  lemma RevalidationBindsTheTransaction(facts: HostFacts, solver: SolverResult, manifest: Manifest, digest: string,
                                        confirmed: UpgradePlan, expected: string, hash: UpgradePlan -> string)
    requires Injective(hash) && Revalidated(facts, solver, manifest, digest, confirmed, expected, hash)
    ensures multiset(solver.changes) == multiset(confirmed.changes)
    ensures multiset(facts.installed) == multiset(confirmed.installed)
    ensures multiset(facts.repositories) == multiset(confirmed.repositories)
    ensures facts.release == confirmed.source == manifest.source && confirmed.target == Some(manifest.target)
    ensures confirmed.metadataValid == SortedSet(solver.metadataValid)
    ensures confirmed.held == SortedSet(facts.held) && confirmed.orphaned == SortedSet(facts.orphaned)
    ensures confirmed.manifestSha256 == Some(digest) && hash(confirmed) == expected
    ensures forall change :: change in solver.changes ==> Authorised(change, PolicyOf(manifest))
    ensures forall group :: group in manifest.lockstep ==> MovesTogether(group, solver.changes)
  {
    hide Sort, SortedSet, Canonical, MigrationPlan, VendorBlockers, IsSha256, MovesTogether, HostBlockers, SolverBlockers;
    var policy := DefaultPolicy.(minimumFreeSpace := manifest.minimumFreeSpace);
    var report := SolverReport(facts, policy, solver, PolicyOf(manifest));
    PassesExactly(facts, policy, solver, PolicyOf(manifest));
    var rebuilt := BuildPlan(OperationOf(manifest), facts, report, Some(manifest.target), confirmed.manifestSha256, solver);
    assert rebuilt.value.(requiredBytes := confirmed.requiredBytes) == confirmed;
    SortedElements(solver.changes, ChangeKey);
    SortedElements(facts.installed, InstalledKey);
    SortedElements(facts.repositories, RepositoryKey);
  }

  // Staging before the download, staging after it and the offline run revalidate the
  // same confirmed plan: they agree on the transaction and on the inventory.
  lemma RevalidationsAgree(facts: HostFacts, facts': HostFacts, solver: SolverResult, solver': SolverResult,
                           manifest: Manifest, digest: string, confirmed: UpgradePlan, expected: string, hash: UpgradePlan -> string)
    requires Injective(hash)
    requires Revalidated(facts, solver, manifest, digest, confirmed, expected, hash)
    requires Revalidated(facts', solver', manifest, digest, confirmed, expected, hash)
    ensures multiset(solver.changes) == multiset(solver'.changes)
    ensures multiset(facts.installed) == multiset(facts'.installed)
    ensures multiset(facts.repositories) == multiset(facts'.repositories) && facts.release == facts'.release
  {
    hide Revalidated, Sort;
    RevalidationBindsTheTransaction(facts, solver, manifest, digest, confirmed, expected, hash);
    RevalidationBindsTheTransaction(facts', solver', manifest, digest, confirmed, expected, hash);
  }

  // From confirmation to verification: when the plan of a migration was revalidated and
  // the inventory after it was verified against that plan, nothing of it is left to do.
  lemma RevalidatedMigrationSettles(facts: HostFacts, solver: SolverResult, manifest: Manifest, digest: string,
                                    confirmed: UpgradePlan, expected: string, hash: UpgradePlan -> string,
                                    report: seq<Installed>, mode: TransactionMode)
    requires manifest.migration.Some? && Revalidated(facts, solver, manifest, digest, confirmed, expected, hash)
    requires ResultOf(Confirmed(confirmed.schemaVersion, confirmed.operation, confirmed.installed, confirmed.changes), report).Ok?
    requires DuplicateFree(report)
    ensures Arguments(manifest, report, mode) == Err(AlreadyApplied)
  {
    hide ResultOf, MigrationPlan, DuplicateFree, Arguments, VendorBlockers;
    VerifiedMigrationIsApplied(manifest,
                               Confirmed(confirmed.schemaVersion, confirmed.operation, confirmed.installed, confirmed.changes),
                               report, mode);
  }
}
