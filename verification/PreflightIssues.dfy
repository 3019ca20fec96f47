/** Every issue a preflight reports, and exactly when, on the facts themselves. */
module PreflightIssues {
  import opened Wrappers
  import opened Decimal
  import opened Packages
  import opened Orders
  import opened Issues
  import opened VendorPolicy
  import opened Preflight

  // -------------------------------------------------------------------------- space

  // The space that is needed: all that is downloaded, written and kept, and a margin, but
  // never less than the minimum; as far as a 64-bit number can say.
  function Needed(download: nat, transaction: nat, snapshot: nat, margin: nat, minimum: nat): nat {
    var sum := download + transaction + snapshot + margin;
    var needed := if minimum > sum then minimum else sum;
    if needed > 0xFFFF_FFFF_FFFF_FFFF then 0xFFFF_FFFF_FFFF_FFFF else needed
  }

  lemma HostNeeds(facts: HostFacts, policy: PreflightPolicy)
    ensures HostReport(facts, policy).requiredBytes
            == Needed(facts.downloadBytes, facts.transactionBytes, facts.snapshotBytes, policy.freeSpaceMargin, policy.minimumFreeSpace)
    ensures HostReport(facts, policy).availableBytes == facts.availableBytes
  {
    hide Canonical, SortedSet, HostBlockers, ThirdParty;
  }

  lemma SolutionNeeds(facts: HostFacts, policy: PreflightPolicy, solver: SolverResult, rules: SolverPolicy)
    ensures SolverReport(facts, policy, solver, rules).requiredBytes
            == Needed(solver.downloadBytes, solver.sizeIncrease, solver.snapshotBytes, policy.freeSpaceMargin, policy.minimumFreeSpace)
    ensures SolverReport(facts, policy, solver, rules).availableBytes == facts.availableBytes
  {
    hide Canonical, HostReport, SolverBlockers, WithMetadata;
    HostNeeds(Enriched(facts, solver), policy);
  }

  // ------------------------------------------------------------------- the host's issues

  // What stands against a host, apart from its space and its repositories.
  ghost predicate SystemIssue(issue: Issue, facts: HostFacts, policy: PreflightPolicy) {
    match issue
    case StorageLayoutUnknown => facts.storage == None
    case RootNotWritable => facts.storage.Some? && !facts.storage.value.rootWritable
    case HomeNotIsolated => facts.storage.Some? && !facts.storage.value.homeIsolated
    case InsufficientBootSpace => facts.storage.Some? && facts.storage.value.bootBytes < 256 * 1024 * 1024
    case InsufficientEspSpace =>
      facts.storage.Some? && facts.storage.value.espBytes.Some? && facts.storage.value.espBytes.value < 32 * 1024 * 1024
    case UnsupportedEdition => facts.release.edition != "desktop"
    case UnsupportedArchitecture => facts.release.architecture != "x86_64"
    case RootNotBtrfs => facts.rootFilesystem != "btrfs"
    case SnapperUnavailable => !facts.snapperConfigured
    case RpmDatabaseUnhealthy => !facts.rpmHealthy
    case PackageManagerBusy => !facts.lockFree
    case BatteryTooLow => facts.onBattery && facts.batteryPercent.Some? && facts.batteryPercent.value < policy.minimumBattery
    case BatteryStateUnknown => facts.onBattery && facts.batteryPercent == None
    case SecureBootStateUnknown => policy.requireSecureBootFact && facts.secureBoot == None
    case _ => false
  }

  ghost predicate HostIssue(issue: Issue, facts: HostFacts, policy: PreflightPolicy) {
    match issue
    case InsufficientSpace =>
      facts.availableBytes
      < Needed(facts.downloadBytes, facts.transactionBytes, facts.snapshotBytes, policy.freeSpaceMargin, policy.minimumFreeSpace)
    case RepositoryMetadataInvalid(alias) =>
      exists r :: r in facts.repositories && r.enabled && r.alias == alias && !r.metadataValid
    case RepositoryKeyUntrusted(alias) =>
      exists r :: r in facts.repositories && r.enabled && r.alias == alias && !r.keyTrusted
    case _ => SystemIssue(issue, facts, policy)
  }

  lemma StorageBlocksAre(storage: Option<StorageFacts>, issue: Issue)
    ensures issue in StorageBlockers(storage) <==>
            match issue
            case StorageLayoutUnknown => storage == None
            case RootNotWritable => storage.Some? && !storage.value.rootWritable
            case HomeNotIsolated => storage.Some? && !storage.value.homeIsolated
            case InsufficientBootSpace => storage.Some? && storage.value.bootBytes < 256 * 1024 * 1024
            case InsufficientEspSpace =>
              storage.Some? && storage.value.espBytes.Some? && storage.value.espBytes.value < 32 * 1024 * 1024
            case _ => false
  {}

  lemma SystemBlocksAre(facts: HostFacts, policy: PreflightPolicy, issue: Issue)
    ensures issue in SystemBlockers(facts, policy) <==>
            match issue
            case UnsupportedEdition => facts.release.edition != "desktop"
            case UnsupportedArchitecture => facts.release.architecture != "x86_64"
            case RootNotBtrfs => facts.rootFilesystem != "btrfs"
            case SnapperUnavailable => !facts.snapperConfigured
            case RpmDatabaseUnhealthy => !facts.rpmHealthy
            case PackageManagerBusy => !facts.lockFree
            case InsufficientSpace => facts.availableBytes < RequiredBytes(facts, policy)
            case _ => false
  {
    hide RequiredBytes;
  }

  lemma PowerBlocksAre(facts: HostFacts, policy: PreflightPolicy, issue: Issue)
    ensures issue in PowerBlockers(facts, policy) <==>
            match issue
            case BatteryTooLow => facts.onBattery && facts.batteryPercent.Some? && facts.batteryPercent.value < policy.minimumBattery
            case BatteryStateUnknown => facts.onBattery && facts.batteryPercent == None
            case SecureBootStateUnknown => policy.requireSecureBootFact && facts.secureBoot == None
            case _ => false
  {}

  // A host is reported exactly for what stands against it.
  lemma HostIssuesAre(facts: HostFacts, policy: PreflightPolicy, issue: Issue)
    ensures issue in HostReport(facts, policy).blockers <==> HostIssue(issue, facts, policy)
  {
    hide Canonical, SortedSet, StorageBlockers, SystemBlockers, PowerBlockers, RepositoryBlockers, RequiredBytes, ThirdParty;
    CanonicalIssues(HostBlockers(facts, policy), HostBlockers(facts, policy));
    StorageBlocksAre(facts.storage, issue);
    SystemBlocksAre(facts, policy, issue);
    PowerBlocksAre(facts, policy, issue);
    RepositoryBlockersAre(facts.repositories, issue);
    HostNeeds(facts, policy);
  }

  // The lists of a report: the aliases of enabled repositories that are not official, the
  // held and the orphaned packages, each once and in order.
  lemma HostListsAre(facts: HostFacts, policy: PreflightPolicy, name: string)
    ensures var report := HostReport(facts, policy);
            && (name in report.thirdParty <==> exists r :: r in facts.repositories && r.enabled && !r.official && r.alias == name)
            && (name in report.held <==> name in facts.held)
            && (name in report.orphaned <==> name in facts.orphaned)
            && Ascending(report.thirdParty, StringKey) && Ascending(report.held, StringKey) && Ascending(report.orphaned, StringKey)
  {
    hide Canonical, HostBlockers, ThirdParty, StringKey, Ascending, KeysIdentify;
    ThirdPartyAre(facts.repositories, name);
    SortedSetIs(ThirdParty(facts.repositories));
    SortedSetIs(facts.held);
    SortedSetIs(facts.orphaned);
  }

  lemma SortedSetIs(s: seq<string>)
    ensures Ascending(SortedSet(s), StringKey) && forall x :: x in SortedSet(s) <==> x in s
  {
    hide StringKey, Ascending, KeysIdentify;
    StringsIdentify(s);
    CanonicalKeeps(s, StringKey);
  }

  // --------------------------------------------------------------- the solution's issues

  ghost predicate KnownTo(vendor: Option<string>) {
    vendor.Some? && ValidVendor(vendor.value)
  }

  // The vendors of a change are in order: known on each side that it has and absent on the
  // other, and if they differ, granted from the one to the other for this package by rules
  // that hold together.
  ghost predicate VendorsInOrder(c: Change, rules: seq<VendorTransition>) {
    && (c.action == Install ==> c.currentVendor == None && KnownTo(c.proposedVendor))
    && (c.action == Remove ==> KnownTo(c.currentVendor) && c.proposedVendor == None)
    && (c.action != Install && c.action != Remove ==>
          && KnownTo(c.currentVendor) && KnownTo(c.proposedVendor)
          && (c.currentVendor != c.proposedVendor ==>
                && ValidRules(rules)
                && exists rule :: && rule in rules && Some(rule.fromVendor) == c.currentVendor && Some(rule.toVendor) == c.proposedVendor
                                  && (rule.packages == None || c.name in rule.packages.value)))
  }

  lemma PermittedIs(c: Change, rules: SolverPolicy)
    ensures Permitted(c, rules) <==> VendorsInOrder(c, rules.vendorTransitions)
  {
    hide ValidVendor, ValidRules;
    if c.currentVendor.Some? && c.proposedVendor.Some? {
      forall rule | rule in rules.vendorTransitions
        ensures Covers(rule, c.currentVendor.value, c.proposedVendor.value, c.name) <==>
                && Some(rule.fromVendor) == c.currentVendor && Some(rule.toVendor) == c.proposedVendor
                && (rule.packages == None || c.name in rule.packages.value)
      {
      }
    }
  }

  // A group of packages of which some are changed and some are not.
  ghost predicate Torn(group: seq<string>, changes: seq<Change>) {
    && (exists name :: name in group && exists c :: c in changes && c.name == name)
    && (exists name :: name in group && forall c :: c in changes ==> c.name != name)
  }

  ghost predicate SolutionIssue(issue: Issue, facts: HostFacts, policy: PreflightPolicy, solver: SolverResult, rules: SolverPolicy) {
    match issue
    case InsufficientSpace =>
      facts.availableBytes
      < Needed(solver.downloadBytes, solver.sizeIncrease, solver.snapshotBytes, policy.freeSpaceMargin, policy.minimumFreeSpace)
    case RepositoryMetadataInvalid(alias) =>
      exists r :: r in facts.repositories && r.enabled && r.alias == alias && alias !in solver.metadataValid
    case RepositoryKeyUntrusted(alias) =>
      exists r :: r in facts.repositories && r.enabled && r.alias == alias && !r.keyTrusted
    case UnsupportedSolverSchema => solver.schemaVersion != 1
    case SolverFailed => !solver.successful || solver.problems != []
    case UnauthorizedDowngrade(name) => exists c :: c in solver.changes && c.name == name && c.action == Downgrade
    case UnauthorizedRemoval(name) =>
      exists c :: c in solver.changes && c.name == name && c.action == Remove && name !in rules.allowedRemovals
    case UnauthorizedVendorChange(name) =>
      exists c :: c in solver.changes && c.name == name && !VendorsInOrder(c, rules.vendorTransitions)
    case LockstepViolation => exists group :: group in rules.lockstep && Torn(group, solver.changes)
    case _ => SystemIssue(issue, facts, policy)
  }

  lemma {:induction false} LockstepBlocksAre(groups: seq<seq<string>>, changes: seq<Change>, issue: Issue)
    ensures issue in LockstepBlockers(groups, changes) <==>
            issue == LockstepViolation && exists group :: group in groups && Torn(group, changes)
  {
    hide TornGroup, Torn;
    if groups != [] {
      var front, last := groups[..|groups| - 1], groups[|groups| - 1];
      assert groups == front + [last];
      LockstepBlocksAre(front, changes, issue);
      TornIs(last, changes);
    }
  }

  lemma TornIs(group: seq<string>, changes: seq<Change>)
    ensures TornGroup(group, changes) <==> Torn(group, changes)
  {
    TornExactly(group, changes);
    hide TornGroup;
    assert AllChanged(group, changes) <==> forall name :: name in group ==> exists c :: c in changes && c.name == name;
  }

  lemma MarkedIssues(facts: HostFacts, solver: SolverResult, alias: string)
    ensures (exists r :: r in Enriched(facts, solver).repositories && r.enabled && r.alias == alias && !r.metadataValid) <==>
            exists r :: r in facts.repositories && r.enabled && r.alias == alias && alias !in solver.metadataValid
    ensures (exists r :: r in Enriched(facts, solver).repositories && r.enabled && r.alias == alias && !r.keyTrusted) <==>
            exists r :: r in facts.repositories && r.enabled && r.alias == alias && !r.keyTrusted
  {
    var marked := WithMetadata(facts.repositories, solver.metadataValid);
    forall r | r in facts.repositories && r.enabled
      ensures r.(metadataValid := r.alias in solver.metadataValid) in marked
    {
      MarkedMembers(facts.repositories, solver.metadataValid, r.(metadataValid := r.alias in solver.metadataValid));
    }
    forall r | r in marked
      ensures exists q :: q in facts.repositories && r == if q.enabled then q.(metadataValid := q.alias in solver.metadataValid) else q
    {
      MarkedMembers(facts.repositories, solver.metadataValid, r);
    }
  }

  lemma SolverBlocksAre(solver: SolverResult, rules: SolverPolicy, issue: Issue)
    ensures issue in SolverBlockers(solver, rules) <==>
            match issue
            case UnsupportedSolverSchema => solver.schemaVersion != 1
            case SolverFailed => !solver.successful || solver.problems != []
            case UnauthorizedDowngrade(name) => exists c :: c in solver.changes && c.name == name && c.action == Downgrade
            case UnauthorizedRemoval(name) =>
              exists c :: c in solver.changes && c.name == name && c.action == Remove && name !in rules.allowedRemovals
            case UnauthorizedVendorChange(name) =>
              exists c :: c in solver.changes && c.name == name && !VendorsInOrder(c, rules.vendorTransitions)
            case LockstepViolation => exists group :: group in rules.lockstep && Torn(group, solver.changes)
            case _ => false
  {
    hide ChangeBlockers, VendorBlockers, LockstepBlockers, Permitted, VendorsInOrder, Torn;
    ChangeBlockersAre(solver.changes, rules, issue);
    NoVendorBlockers(solver.changes, rules);
    LockstepBlocksAre(rules.lockstep, solver.changes, issue);
    forall c
      ensures Permitted(c, rules) <==> VendorsInOrder(c, rules.vendorTransitions)
    {
      PermittedIs(c, rules);
    }
  }

  // Host and solution together are reported exactly for what stands against them.
  lemma SolutionIssuesAre(facts: HostFacts, policy: PreflightPolicy, solver: SolverResult, rules: SolverPolicy, issue: Issue)
    ensures issue in SolverReport(facts, policy, solver, rules).blockers <==> SolutionIssue(issue, facts, policy, solver, rules)
  {
    hide Canonical, HostReport, SolverBlockers, VendorsInOrder, Torn, WithMetadata, Needed;
    var enriched := Enriched(facts, solver);
    var all := HostReport(enriched, policy).blockers + SolverBlockers(solver, rules);
    CanonicalIssues(all, all);
    HostIssuesAre(enriched, policy, issue);
    SolverBlocksAre(solver, rules, issue);
    match issue
    case RepositoryMetadataInvalid(alias) => MarkedIssues(facts, solver, alias);
    case RepositoryKeyUntrusted(alias) => MarkedIssues(facts, solver, alias);
    case _ =>
  }

  // The preflight passes exactly if nothing at all stands against host and solution.
  lemma PassesOnTheFacts(facts: HostFacts, policy: PreflightPolicy, solver: SolverResult, rules: SolverPolicy)
    ensures SolverReport(facts, policy, solver, rules).Passed() <==>
            forall issue :: !SolutionIssue(issue, facts, policy, solver, rules)
  {
    hide SolverReport, SolutionIssue;
    var blockers := SolverReport(facts, policy, solver, rules).blockers;
    forall issue
      ensures issue in blockers <==> SolutionIssue(issue, facts, policy, solver, rules)
    {
      SolutionIssuesAre(facts, policy, solver, rules, issue);
    }
    if blockers != [] {
      assert blockers[0] in blockers;
    }
  }
}
