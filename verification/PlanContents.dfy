/** What a plan states and what its revalidation demands, field by field. */
module PlanContents {
  import opened Wrappers
  import opened Decimal
  import opened Operation
  import opened Records
  import opened Packages
  import opened Orders
  import opened PackageOrder
  import opened Issues
  import opened VendorPolicy
  import opened Migration
  import opened Inventory
  import opened Transaction
  import opened Preflight
  import opened Planner

  // What stands against a plan of a host without blockers.
  ghost predicate Refused(error: PlanError, operation: OperationKind, current: ReleaseIdentity,
                          target: Option<ReleaseIdentity>, digest: Option<string>)
  {
    if operation == UpdateWithinRelease then error == TargetNotAllowed && (target.Some? || digest.Some?)
    else
      match error
      case NotPassed(_) => false
      case TargetRequired => target.None?
      case TargetNotAllowed =>
        && target.Some?
        && (|| target.value.edition != current.edition || target.value.architecture != current.architecture
            || (operation == ReleaseUpgrade && target.value.version == current.version)
            || (operation == PackageMigration && target.value != current))
      case ManifestRequired => target.Some? && (digest.None? || !IsSha256(digest.value))
  }

  // A plan is made exactly if nothing blocks it and its operation has the target and the
  // manifest it needs, and no other; the first thing missing is the error.
  lemma PlanIsMade(operation: OperationKind, facts: HostFacts, report: Report, target: Option<ReleaseIdentity>,
                   digest: Option<string>, solver: SolverResult)
    ensures var plan := BuildPlan(operation, facts, report, target, digest, solver);
            && (plan.Ok? <==> report.blockers == [] && forall error :: !Refused(error, operation, facts.release, target, digest))
            && (plan.Err? ==> if report.blockers != [] then plan.error == NotPassed(report.blockers)
                              else Refused(plan.error, operation, facts.release, target, digest))
            && (plan.Err? && plan.error == ManifestRequired ==> !Refused(TargetNotAllowed, operation, facts.release, target, digest))
  {
    hide Sort, SortedSet, IsSha256;
    assert report.blockers == [] && BuildPlan(operation, facts, report, target, digest, solver).Err? ==>
             Refused(BuildPlan(operation, facts, report, target, digest, solver).error, operation, facts.release, target, digest);
  }

  // Each field of the plan: lists are those of the host and of the solution, in order.
  lemma PlanStates(operation: OperationKind, facts: HostFacts, report: Report, target: Option<ReleaseIdentity>,
                   digest: Option<string>, solver: SolverResult)
    requires BuildPlan(operation, facts, report, target, digest, solver).Ok?
    ensures var plan := BuildPlan(operation, facts, report, target, digest, solver).value;
            && plan.schemaVersion == 3 && plan.operation == operation && plan.source == facts.release && plan.target == target
            && plan.manifestSha256 == digest && plan.requiredBytes == report.requiredBytes
            && plan.facts.Keys == {"root_filesystem", "secure_boot"} && plan.facts["root_filesystem"] == facts.rootFilesystem
            && plan.facts["secure_boot"] == (if facts.secureBoot == Some(true) then "true"
                                             else if facts.secureBoot == Some(false) then "false" else "unknown")
            && multiset(plan.repositories) == multiset(facts.repositories) && SortedBy(plan.repositories, Planner.RepositoryKey)
            && multiset(plan.installed) == multiset(facts.installed) && SortedBy(plan.installed, InstalledKey)
            && multiset(plan.changes) == multiset(solver.changes) && SortedBy(plan.changes, ChangeKey)
            && (forall alias :: alias in plan.metadataValid <==> alias in solver.metadataValid)
            && plan.thirdParty == report.thirdParty && plan.held == report.held && plan.orphaned == report.orphaned
            && (plan.rebootRequired <==> solver.rebootRequired || operation == ReleaseUpgrade || operation == PackageMigration)
  {
    hide Sort, SortedSet, SortedBy, IsSha256;
    SortKeeps(facts.repositories, Planner.RepositoryKey);
    SortKeeps(facts.installed, InstalledKey);
    SortKeeps(solver.changes, ChangeKey);
    AliasesAre(solver.metadataValid);
  }

  lemma AliasesAre(s: seq<string>)
    ensures forall x :: x in SortedSet(s) <==> x in s
  {
    hide Dedup, Sort, KeysIdentify;
    StringsIdentify(s);
    CanonicalKeeps(s, StringKey);
  }

  // A confirmed plan stands exactly if it is one of the manifest's operation, source,
  // target and digest, has the hash that was confirmed, carries out the migration on its
  // own inventory, and none of its changes needs a vendor change that is not granted.
  lemma ConfirmedStands(manifest: Manifest, digest: string, confirmed: UpgradePlan, expected: string, hash: UpgradePlan -> string)
    ensures CheckConfirmed(manifest, digest, confirmed, expected, hash).Ok? <==>
            && confirmed.operation == (if manifest.migration.Some? then PackageMigration else ReleaseUpgrade)
            && confirmed.source == manifest.source && confirmed.target == Some(manifest.target)
            && confirmed.manifestSha256 == Some(digest) && hash(confirmed) == expected
            && MigrationPlan(manifest, confirmed.installed, confirmed.changes).Ok?
            && VendorBlockers(confirmed.changes, PolicyOf(manifest)) == []
  {
    hide MigrationPlan, VendorBlockers;
  }

  // The fresh host is judged by the manifest's rules and minimum, a battery of 40 percent,
  // a margin of 1 GiB, and a Secure Boot state that must be known.
  lemma FreshReportIs(facts: HostFacts, solver: SolverResult, manifest: Manifest, digest: string,
                      confirmed: UpgradePlan, expected: string, hash: UpgradePlan -> string)
    requires Revalidate(facts, solver, manifest, digest, confirmed, expected, hash).Ok?
    ensures SolverReport(facts, PreflightPolicy(40, 0x4000_0000, manifest.minimumFreeSpace, true), solver,
                         SolverPolicy(manifest.allowedRemovals, manifest.vendorTransitions, manifest.lockstep)).blockers == []
    ensures CheckConfirmed(manifest, digest, confirmed, expected, hash).Ok?
    ensures MigrationPlan(manifest, facts.installed, solver.changes).Ok?
  {
    hide MigrationPlan, SolverReport, BuildPlan, CheckConfirmed;
  }
}
