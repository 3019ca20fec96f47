/** Host and solver preflight: every blocker collected, sorted and deduplicated, and
    exactly when there is none. */
module Preflight {
  import opened Wrappers
  import opened Decimal
  import opened Records
  import opened Packages
  import opened Orders
  import opened Issues
  import opened VendorPolicy

  datatype StorageFacts = StorageFacts(rootWritable: bool, homeIsolated: bool, bootBytes: u64, espBytes: Option<u64>)

  datatype RepositoryFact = RepositoryFact(
    alias: string, enabled: bool, official: bool, metadataValid: bool, keyTrusted: bool)

  datatype HostFacts = HostFacts(
    release: ReleaseIdentity, rootFilesystem: string, snapperConfigured: bool, rpmHealthy: bool, lockFree: bool,
    availableBytes: u64, downloadBytes: u64, transactionBytes: u64, snapshotBytes: u64,
    onBattery: bool, batteryPercent: Option<nat>, secureBoot: Option<bool>,
    repositories: seq<RepositoryFact>, held: seq<string>, installed: seq<Installed>,
    storage: Option<StorageFacts>, orphaned: seq<string>)

  datatype PreflightPolicy = PreflightPolicy(
    minimumBattery: nat, freeSpaceMargin: u64, minimumFreeSpace: u64, requireSecureBootFact: bool)

  datatype SolverResult = SolverResult(
    schemaVersion: nat, successful: bool, problems: seq<string>, metadataValid: seq<string>,
    changes: seq<Change>, downloadBytes: u64, sizeIncrease: u64, snapshotBytes: u64, rebootRequired: bool)

  datatype Report = Report(
    requiredBytes: u64, availableBytes: u64, blockers: seq<Issue>,
    thirdParty: seq<string>, held: seq<string>, orphaned: seq<string>)
  {
    predicate Passed() {
      blockers == []
    }
  }

  const MINIMUM_BOOT_BYTES := 256 * 1024 * 1024
  const MINIMUM_ESP_BYTES := 32 * 1024 * 1024

  function StringKey(s: string): seq<Field> {
    [Text(s)]
  }

  lemma StringsIdentify(s: seq<string>)
    ensures KeysIdentify(s, StringKey)
  {
    forall a, b | a in s && b in s && StringKey(a) == StringKey(b)
      ensures a == b
    {
      assert StringKey(a)[0] == StringKey(b)[0];
    }
  }

  function SortedSet(s: seq<string>): seq<string> {
    Dedup(Sort(s, StringKey))
  }

  lemma SortedSetIgnoresOrder(a: seq<string>, b: seq<string>)
    requires forall x :: x in a <==> x in b
    ensures SortedSet(a) == SortedSet(b)
  {
    StringsIdentify(a);
    CanonicalSet(a, b, StringKey);
  }

  // ------------------------------------------------------------------------- the host

  function RequiredBytes(facts: HostFacts, policy: PreflightPolicy): u64 {
    var sum := SaturatingAdd(SaturatingAdd(SaturatingAdd(facts.downloadBytes, facts.transactionBytes), facts.snapshotBytes),
                             policy.freeSpaceMargin);
    if sum < policy.minimumFreeSpace then policy.minimumFreeSpace else sum
  }

  function When(condition: bool, issue: Issue): seq<Issue> {
    if condition then [issue] else []
  }

  function StorageBlockers(storage: Option<StorageFacts>): seq<Issue> {
    match storage
    case None => [StorageLayoutUnknown]
    case Some(s) =>
      When(!s.rootWritable, RootNotWritable) + When(!s.homeIsolated, HomeNotIsolated)
      + When(s.bootBytes < MINIMUM_BOOT_BYTES, InsufficientBootSpace)
      + When(s.espBytes.Some? && s.espBytes.value < MINIMUM_ESP_BYTES, InsufficientEspSpace)
  }

  function SystemBlockers(facts: HostFacts, policy: PreflightPolicy): seq<Issue> {
    When(facts.release.edition != "desktop", UnsupportedEdition)
    + When(facts.release.architecture != "x86_64", UnsupportedArchitecture)
    + When(facts.rootFilesystem != "btrfs", RootNotBtrfs)
    + When(!facts.snapperConfigured, SnapperUnavailable)
    + When(!facts.rpmHealthy, RpmDatabaseUnhealthy)
    + When(!facts.lockFree, PackageManagerBusy)
    + When(facts.availableBytes < RequiredBytes(facts, policy), InsufficientSpace)
  }

  function PowerBlockers(facts: HostFacts, policy: PreflightPolicy): seq<Issue> {
    When(facts.onBattery && facts.batteryPercent.Some? && facts.batteryPercent.value < policy.minimumBattery, BatteryTooLow)
    + When(facts.onBattery && facts.batteryPercent.None?, BatteryStateUnknown)
    + When(policy.requireSecureBootFact && facts.secureBoot.None?, SecureBootStateUnknown)
  }

  function RepositoryBlockers(repositories: seq<RepositoryFact>): seq<Issue> {
    if repositories == [] then []
    else
      var r := repositories[|repositories| - 1];
      RepositoryBlockers(repositories[..|repositories| - 1])
      + When(r.enabled && !r.metadataValid, RepositoryMetadataInvalid(r.alias))
      + When(r.enabled && !r.keyTrusted, RepositoryKeyUntrusted(r.alias))
  }

  function ThirdParty(repositories: seq<RepositoryFact>): seq<string> {
    if repositories == [] then []
    else
      var r := repositories[|repositories| - 1];
      ThirdParty(repositories[..|repositories| - 1]) + if r.enabled && !r.official then [r.alias] else []
  }

  function HostBlockers(facts: HostFacts, policy: PreflightPolicy): seq<Issue> {
    StorageBlockers(facts.storage) + SystemBlockers(facts, policy) + PowerBlockers(facts, policy)
    + RepositoryBlockers(facts.repositories)
  }

  function HostReport(facts: HostFacts, policy: PreflightPolicy): Report {
    Report(RequiredBytes(facts, policy), facts.availableBytes, Canonical(HostBlockers(facts, policy)),
           SortedSet(ThirdParty(facts.repositories)), SortedSet(facts.held), SortedSet(facts.orphaned))
  }

  // Collects an issue where there is one.
  method Note(blockers: seq<Issue>, condition: bool, issue: Issue) returns (r: seq<Issue>)
    ensures r == blockers + When(condition, issue)
  {
    r := blockers;
    if condition {
      r := r + [issue];
    }
  }

  method CheckStorage(storage: Option<StorageFacts>) returns (blockers: seq<Issue>)
    ensures blockers == StorageBlockers(storage)
  {
    hide When;
    match storage {
      case None => blockers := [StorageLayoutUnknown];
      case Some(s) =>
        blockers := Note([], !s.rootWritable, RootNotWritable);
        assert blockers == When(!s.rootWritable, RootNotWritable);
        blockers := Note(blockers, !s.homeIsolated, HomeNotIsolated);
        blockers := Note(blockers, s.bootBytes < MINIMUM_BOOT_BYTES, InsufficientBootSpace);
        blockers := Note(blockers, s.espBytes.Some? && s.espBytes.value < MINIMUM_ESP_BYTES, InsufficientEspSpace);
    }
  }

  method CheckSystem(facts: HostFacts, policy: PreflightPolicy) returns (blockers: seq<Issue>)
    ensures blockers == SystemBlockers(facts, policy)
  {
    hide When, RequiredBytes;
    blockers := Note([], facts.release.edition != "desktop", UnsupportedEdition);
    assert blockers == When(facts.release.edition != "desktop", UnsupportedEdition);
    blockers := Note(blockers, facts.release.architecture != "x86_64", UnsupportedArchitecture);
    blockers := Note(blockers, facts.rootFilesystem != "btrfs", RootNotBtrfs);
    blockers := Note(blockers, !facts.snapperConfigured, SnapperUnavailable);
    blockers := Note(blockers, !facts.rpmHealthy, RpmDatabaseUnhealthy);
    blockers := Note(blockers, !facts.lockFree, PackageManagerBusy);
    blockers := Note(blockers, facts.availableBytes < RequiredBytes(facts, policy), InsufficientSpace);
  }

  method CheckPower(facts: HostFacts, policy: PreflightPolicy) returns (blockers: seq<Issue>)
    ensures blockers == PowerBlockers(facts, policy)
  {
    blockers := [];
    if facts.onBattery {
      match facts.batteryPercent {
        case Some(percent) => blockers := Note(blockers, percent < policy.minimumBattery, BatteryTooLow);
        case None => blockers := blockers + [BatteryStateUnknown];
      }
    }
    blockers := Note(blockers, policy.requireSecureBootFact && facts.secureBoot.None?, SecureBootStateUnknown);
  }

  method CheckRepositories(repositories: seq<RepositoryFact>) returns (blockers: seq<Issue>, thirdParty: seq<string>)
    ensures blockers == RepositoryBlockers(repositories) && thirdParty == ThirdParty(repositories)
  {
    hide When;
    blockers, thirdParty := [], [];
    for i := 0 to |repositories|
      invariant blockers == RepositoryBlockers(repositories[..i]) && thirdParty == ThirdParty(repositories[..i])
    {
      var r := repositories[i];
      assert repositories[..i + 1][..i] == repositories[..i];
      blockers := Note(blockers, r.enabled && !r.metadataValid, RepositoryMetadataInvalid(r.alias));
      blockers := Note(blockers, r.enabled && !r.keyTrusted, RepositoryKeyUntrusted(r.alias));
      if r.enabled && !r.official {
        thirdParty := thirdParty + [r.alias];
      }
    }
    assert repositories[..|repositories|] == repositories;
  }

  // `evaluate_preflight`
  method EvaluatePreflight(facts: HostFacts, policy: PreflightPolicy) returns (report: Report)
    ensures report == HostReport(facts, policy)
  {
    hide Canonical, SortedSet, RequiredBytes, StorageBlockers, SystemBlockers, PowerBlockers, RepositoryBlockers;
    var blockers := CheckStorage(facts.storage);
    var system := CheckSystem(facts, policy);
    blockers := blockers + system;
    var power := CheckPower(facts, policy);
    blockers := blockers + power;
    var repositories, thirdParty := CheckRepositories(facts.repositories);
    blockers := blockers + repositories;
    report := Report(RequiredBytes(facts, policy), facts.availableBytes, Canonical(blockers),
                     SortedSet(thirdParty), SortedSet(facts.held), SortedSet(facts.orphaned));
  }

  // ------------------------------------------------------------------ host and solver

  function WithMetadata(repositories: seq<RepositoryFact>, valid: seq<string>): seq<RepositoryFact> {
    seq(|repositories|, i requires 0 <= i < |repositories| =>
      if repositories[i].enabled then repositories[i].(metadataValid := repositories[i].alias in valid) else repositories[i])
  }

  // The host as the solver leaves it: its metadata and its sizes are authoritative.
  function Enriched(facts: HostFacts, solver: SolverResult): HostFacts {
    facts.(repositories := WithMetadata(facts.repositories, solver.metadataValid),
           downloadBytes := solver.downloadBytes, transactionBytes := solver.sizeIncrease,
           snapshotBytes := solver.snapshotBytes)
  }

  function ChangeBlockers(changes: seq<Change>, policy: SolverPolicy): seq<Issue> {
    if changes == [] then []
    else
      var c := changes[|changes| - 1];
      ChangeBlockers(changes[..|changes| - 1], policy)
      + When(c.action.Downgrade?, UnauthorizedDowngrade(c.name))
      + When(c.action.Remove? && c.name !in policy.allowedRemovals, UnauthorizedRemoval(c.name))
  }

  predicate IsChanged(name: string, changes: seq<Change>) {
    exists c :: c in changes && c.name == name
  }

  function ChangedOf(group: seq<string>, changes: seq<Change>): seq<string> {
    if group == [] then []
    else
      ChangedOf(group[..|group| - 1], changes)
      + if IsChanged(group[|group| - 1], changes) then [group[|group| - 1]] else []
  }

  predicate TornGroup(group: seq<string>, changes: seq<Change>) {
    ChangedOf(group, changes) != [] && |ChangedOf(group, changes)| != |group|
  }

  function LockstepBlockers(groups: seq<seq<string>>, changes: seq<Change>): seq<Issue> {
    if groups == [] then []
    else
      LockstepBlockers(groups[..|groups| - 1], changes)
      + When(TornGroup(groups[|groups| - 1], changes), LockstepViolation)
  }

  function SolverBlockers(solver: SolverResult, policy: SolverPolicy): seq<Issue> {
    When(solver.schemaVersion != 1, UnsupportedSolverSchema)
    + When(!solver.successful || solver.problems != [], SolverFailed)
    + ChangeBlockers(solver.changes, policy)
    + VendorBlockers(solver.changes, policy)
    + LockstepBlockers(policy.lockstep, solver.changes)
  }

  function SolverReport(facts: HostFacts, policy: PreflightPolicy, solver: SolverResult, rules: SolverPolicy): Report {
    var host := HostReport(Enriched(facts, solver), policy);
    host.(blockers := Canonical(host.blockers + SolverBlockers(solver, rules)))
  }

  method CheckChanges(changes: seq<Change>, rules: SolverPolicy) returns (blockers: seq<Issue>)
    ensures blockers == ChangeBlockers(changes, rules)
  {
    hide When;
    blockers := [];
    for i := 0 to |changes|
      invariant blockers == ChangeBlockers(changes[..i], rules)
    {
      var c := changes[i];
      assert changes[..i + 1][..i] == changes[..i];
      blockers := Note(blockers, c.action.Downgrade?, UnauthorizedDowngrade(c.name));
      blockers := Note(blockers, c.action.Remove? && c.name !in rules.allowedRemovals, UnauthorizedRemoval(c.name));
    }
    assert changes[..|changes|] == changes;
  }

  method CheckLockstep(groups: seq<seq<string>>, changes: seq<Change>) returns (blockers: seq<Issue>)
    ensures blockers == LockstepBlockers(groups, changes)
  {
    hide IsChanged, ChangedOf, When;
    blockers := [];
    for i := 0 to |groups|
      invariant blockers == LockstepBlockers(groups[..i], changes)
    {
      assert groups[..i + 1][..i] == groups[..i];
      var changed := ChangedOf(groups[i], changes);
      blockers := Note(blockers, changed != [] && |changed| != |groups[i]|, LockstepViolation);
    }
    assert groups[..|groups|] == groups;
  }

  method MarkMetadata(facts: seq<RepositoryFact>, valid: seq<string>) returns (repositories: seq<RepositoryFact>)
    ensures repositories == WithMetadata(facts, valid)
  {
    repositories := facts;
    for i := 0 to |repositories|
      invariant |repositories| == |facts|
      invariant forall k :: i <= k < |facts| ==> repositories[k] == facts[k]
      invariant forall k :: 0 <= k < i ==> repositories[k] == WithMetadata(facts, valid)[k]
    {
      if repositories[i].enabled {
        repositories := repositories[i := repositories[i].(metadataValid := repositories[i].alias in valid)];
      }
    }
  }

  // `evaluate_solver_preflight`
  method EvaluateSolverPreflight(facts: HostFacts, policy: PreflightPolicy, solver: SolverResult, rules: SolverPolicy)
    returns (report: Report)
    ensures report == SolverReport(facts, policy, solver, rules)
  {
    hide Canonical, HostReport, When, ChangeBlockers, VendorBlockers, LockstepBlockers, WithMetadata;
    var repositories := MarkMetadata(facts.repositories, solver.metadataValid);
    var enriched := facts.(repositories := repositories, downloadBytes := solver.downloadBytes,
                           transactionBytes := solver.sizeIncrease, snapshotBytes := solver.snapshotBytes);
    report := EvaluatePreflight(enriched, policy);
    var blockers := Note([], solver.schemaVersion != 1, UnsupportedSolverSchema);
    assert blockers == When(solver.schemaVersion != 1, UnsupportedSolverSchema);
    blockers := Note(blockers, !solver.successful || solver.problems != [], SolverFailed);
    var change := CheckChanges(solver.changes, rules);
    blockers := blockers + change;
    var vendor := VendorPolicyBlockers(solver.changes, rules);
    blockers := blockers + vendor;
    var lockstep := CheckLockstep(rules.lockstep, solver.changes);
    blockers := blockers + lockstep;
    report := report.(blockers := Canonical(report.blockers + blockers));
  }

  // -------------------------------------------------------------- when there is none

  // The host alone is fit: layout, edition, health, space and power.
  predicate HostFit(facts: HostFacts, policy: PreflightPolicy) {
    && facts.storage.Some? && facts.storage.value.rootWritable && facts.storage.value.homeIsolated
    && facts.storage.value.bootBytes >= MINIMUM_BOOT_BYTES
    && (facts.storage.value.espBytes.Some? ==> facts.storage.value.espBytes.value >= MINIMUM_ESP_BYTES)
    && facts.release.edition == "desktop" && facts.release.architecture == "x86_64"
    && facts.rootFilesystem == "btrfs" && facts.snapperConfigured && facts.rpmHealthy && facts.lockFree
    && facts.availableBytes >= RequiredBytes(facts, policy)
    && (facts.onBattery ==> facts.batteryPercent.Some? && facts.batteryPercent.value >= policy.minimumBattery)
    && (policy.requireSecureBootFact ==> facts.secureBoot.Some?)
  }

  // Each group is changed as a whole or not at all.
  predicate MovesTogether(group: seq<string>, changes: seq<Change>) {
    AllChanged(group, changes) || NoneChanged(group, changes)
  }

  predicate Authorised(change: Change, rules: SolverPolicy) {
    && !change.action.Downgrade?
    && (change.action.Remove? ==> change.name in rules.allowedRemovals)
    && Permitted(change, rules)
  }

  lemma {:induction false} NoRepositoryBlockers(repositories: seq<RepositoryFact>)
    ensures RepositoryBlockers(repositories) == [] <==>
            forall r :: r in repositories && r.enabled ==> r.metadataValid && r.keyTrusted
  {
    if repositories != [] {
      NoRepositoryBlockers(repositories[..|repositories| - 1]);
      assert repositories == repositories[..|repositories| - 1] + [repositories[|repositories| - 1]];
    }
  }

  lemma {:induction false} NoChangeBlockers(changes: seq<Change>, rules: SolverPolicy)
    ensures ChangeBlockers(changes, rules) == [] <==>
            forall c :: c in changes ==> !c.action.Downgrade? && (c.action.Remove? ==> c.name in rules.allowedRemovals)
  {
    if changes != [] {
      NoChangeBlockers(changes[..|changes| - 1], rules);
      assert changes == changes[..|changes| - 1] + [changes[|changes| - 1]];
    }
  }

  lemma ChangedLast(front: seq<string>, last: string, changes: seq<Change>)
    ensures ChangedOf(front + [last], changes) == ChangedOf(front, changes) + if IsChanged(last, changes) then [last] else []
  {
    assert (front + [last])[..|front|] == front;
  }

  lemma ChangedNone(changes: seq<Change>)
    ensures ChangedOf([], changes) == []
  {}

  predicate AllChanged(group: seq<string>, changes: seq<Change>) {
    forall name :: name in group ==> IsChanged(name, changes)
  }

  predicate NoneChanged(group: seq<string>, changes: seq<Change>) {
    forall name :: name in group ==> !IsChanged(name, changes)
  }

  lemma GroupLast(front: seq<string>, last: string, changes: seq<Change>)
    ensures AllChanged(front + [last], changes) <==> AllChanged(front, changes) && IsChanged(last, changes)
    ensures NoneChanged(front + [last], changes) <==> NoneChanged(front, changes) && !IsChanged(last, changes)
  {
    hide IsChanged;
    assert last in front + [last];
  }

  lemma {:induction false} GroupIsWhole(group: seq<string>, changes: seq<Change>)
    ensures |ChangedOf(group, changes)| <= |group|
    ensures ChangedOf(group, changes) == [] <==> NoneChanged(group, changes)
    ensures |ChangedOf(group, changes)| == |group| <==> AllChanged(group, changes)
  {
    hide IsChanged, ChangedOf, AllChanged, NoneChanged;
    if group == [] {
      ChangedNone(changes);
      NothingInGroup(changes);
    } else {
      var front, last := group[..|group| - 1], group[|group| - 1];
      assert group == front + [last];
      GroupIsWhole(front, changes);
      ChangedLast(front, last, changes);
      GroupLast(front, last, changes);
    }
  }

  lemma NothingInGroup(changes: seq<Change>)
    ensures AllChanged([], changes) && NoneChanged([], changes)
  {}

  lemma TornExactly(group: seq<string>, changes: seq<Change>)
    ensures TornGroup(group, changes) <==> !MovesTogether(group, changes)
  {
    hide IsChanged, ChangedOf, AllChanged, NoneChanged;
    GroupIsWhole(group, changes);
  }

  lemma {:induction false} NoLockstepBlockers(groups: seq<seq<string>>, changes: seq<Change>)
    ensures LockstepBlockers(groups, changes) == [] <==> forall group :: group in groups ==> MovesTogether(group, changes)
  {
    hide TornGroup, MovesTogether;
    if groups != [] {
      var last := groups[|groups| - 1];
      NoLockstepBlockers(groups[..|groups| - 1], changes);
      TornExactly(last, changes);
      assert groups == groups[..|groups| - 1] + [last];
    }
  }

  lemma NoHostBlockers(facts: HostFacts, policy: PreflightPolicy)
    ensures HostReport(facts, policy).Passed() <==>
            && HostFit(facts, policy)
            && forall r :: r in facts.repositories && r.enabled ==> r.metadataValid && r.keyTrusted
  {
    hide Canonical, RequiredBytes, RepositoryBlockers, SortedSet;
    CanonicalEmpty(HostBlockers(facts, policy));
    NoRepositoryBlockers(facts.repositories);
    assert StorageBlockers(facts.storage) + SystemBlockers(facts, policy) == [] ==>
             StorageBlockers(facts.storage) == [] && SystemBlockers(facts, policy) == [];
  }

  // The preflight passes exactly when the host is fit, the metadata of every enabled
  // repository is the solver's and its key trusted, the solver succeeded without a
  // problem, no change is a downgrade, a removal not listed or an ungranted vendor
  // change, and every lockstep group moves as a whole.
  lemma PassesExactly(facts: HostFacts, policy: PreflightPolicy, solver: SolverResult, rules: SolverPolicy)
    ensures SolverReport(facts, policy, solver, rules).Passed() <==>
            && HostFit(Enriched(facts, solver), policy)
            && (forall r :: r in facts.repositories && r.enabled ==> r.alias in solver.metadataValid && r.keyTrusted)
            && solver.schemaVersion == 1 && solver.successful && solver.problems == []
            && (forall change :: change in solver.changes ==> Authorised(change, rules))
            && (forall group :: group in rules.lockstep ==> MovesTogether(group, solver.changes))
  {
    hide Canonical, HostFit, HostReport, ChangeBlockers, VendorBlockers, LockstepBlockers, MovesTogether, Permitted;
    var enriched := Enriched(facts, solver);
    CanonicalEmpty(HostReport(enriched, policy).blockers + SolverBlockers(solver, rules));
    NoHostBlockers(enriched, policy);
    MetadataFollows(facts.repositories, solver.metadataValid);
    NoChangeBlockers(solver.changes, rules);
    NoVendorBlockers(solver.changes, rules);
    NoLockstepBlockers(rules.lockstep, solver.changes);
    var head := When(solver.schemaVersion != 1, UnsupportedSolverSchema)
                + When(!solver.successful || solver.problems != [], SolverFailed);
    assert SolverBlockers(solver, rules) == [] <==>
           head == [] && ChangeBlockers(solver.changes, rules) == [] && VendorBlockers(solver.changes, rules) == []
           && LockstepBlockers(rules.lockstep, solver.changes) == [];
  }

  lemma MetadataFollows(repositories: seq<RepositoryFact>, valid: seq<string>)
    ensures (forall r :: r in WithMetadata(repositories, valid) && r.enabled ==> r.metadataValid && r.keyTrusted) <==>
            (forall r :: r in repositories && r.enabled ==> r.alias in valid && r.keyTrusted)
  {
    var marked := WithMetadata(repositories, valid);
    if forall r :: r in marked && r.enabled ==> r.metadataValid && r.keyTrusted {
      forall r | r in repositories && r.enabled
        ensures r.alias in valid && r.keyTrusted
      {
        var i :| 0 <= i < |repositories| && repositories[i] == r;
        assert marked[i] in marked;
      }
    }
  }

  // ---------------------------------------------------- the report forgets all order

  lemma {:induction false} RepositoryBlockersAre(repositories: seq<RepositoryFact>, issue: Issue)
    ensures issue in RepositoryBlockers(repositories) <==>
            exists r :: && r in repositories && r.enabled
                        && ((!r.metadataValid && issue == RepositoryMetadataInvalid(r.alias))
                            || (!r.keyTrusted && issue == RepositoryKeyUntrusted(r.alias)))
  {
    if repositories != [] {
      RepositoryBlockersAre(repositories[..|repositories| - 1], issue);
      assert repositories == repositories[..|repositories| - 1] + [repositories[|repositories| - 1]];
    }
  }

  lemma {:induction false} ThirdPartyAre(repositories: seq<RepositoryFact>, alias: string)
    ensures alias in ThirdParty(repositories) <==>
            exists r :: r in repositories && r.enabled && !r.official && r.alias == alias
  {
    if repositories != [] {
      ThirdPartyAre(repositories[..|repositories| - 1], alias);
      assert repositories == repositories[..|repositories| - 1] + [repositories[|repositories| - 1]];
    }
  }

  lemma {:induction false} ChangeBlockersAre(changes: seq<Change>, rules: SolverPolicy, issue: Issue)
    ensures issue in ChangeBlockers(changes, rules) <==>
            exists c :: && c in changes
                        && ((c.action.Downgrade? && issue == UnauthorizedDowngrade(c.name))
                            || (c.action.Remove? && c.name !in rules.allowedRemovals && issue == UnauthorizedRemoval(c.name)))
  {
    if changes != [] {
      ChangeBlockersAre(changes[..|changes| - 1], rules, issue);
      assert changes == changes[..|changes| - 1] + [changes[|changes| - 1]];
    }
  }

  lemma {:induction false} ChangedOfIgnoresOrder(group: seq<string>, a: seq<Change>, b: seq<Change>)
    requires forall c :: c in a <==> c in b
    ensures ChangedOf(group, a) == ChangedOf(group, b)
  {
    if group != [] {
      ChangedOfIgnoresOrder(group[..|group| - 1], a, b);
    }
  }

  lemma {:induction false} LockstepIgnoresOrder(groups: seq<seq<string>>, a: seq<Change>, b: seq<Change>)
    requires forall c :: c in a <==> c in b
    ensures LockstepBlockers(groups, a) == LockstepBlockers(groups, b)
  {
    hide ChangedOf;
    if groups != [] {
      LockstepIgnoresOrder(groups[..|groups| - 1], a, b);
      ChangedOfIgnoresOrder(groups[|groups| - 1], a, b);
    }
  }

  lemma MarkedMembers(repositories: seq<RepositoryFact>, valid: seq<string>, r: RepositoryFact)
    ensures r in WithMetadata(repositories, valid) <==>
            exists q :: q in repositories && r == if q.enabled then q.(metadataValid := q.alias in valid) else q
  {
    var marked := WithMetadata(repositories, valid);
    if q :| q in repositories && r == if q.enabled then q.(metadataValid := q.alias in valid) else q {
      var i :| 0 <= i < |repositories| && repositories[i] == q;
      assert marked[i] == r;
    }
  }

  // The same host and the same solution, their lists in any order.
  ghost predicate SameHost(a: HostFacts, b: HostFacts) {
    && a == b.(repositories := a.repositories, held := a.held, installed := a.installed, orphaned := a.orphaned)
    && multiset(a.repositories) == multiset(b.repositories) && multiset(a.held) == multiset(b.held)
    && multiset(a.installed) == multiset(b.installed) && multiset(a.orphaned) == multiset(b.orphaned)
  }

  ghost predicate SameSolution(a: SolverResult, b: SolverResult) {
    && a == b.(changes := a.changes, metadataValid := a.metadataValid)
    && multiset(a.changes) == multiset(b.changes) && multiset(a.metadataValid) == multiset(b.metadataValid)
  }

  lemma SameElements<T>(a: seq<T>, b: seq<T>)
    requires multiset(a) == multiset(b)
    ensures forall x :: x in a <==> x in b
  {
    forall x
      ensures x in a <==> x in b
    {
      assert x in a <==> x in multiset(a);
      assert x in b <==> x in multiset(b);
    }
  }

  lemma HostBlockersIgnoreOrder(a: HostFacts, b: HostFacts, policy: PreflightPolicy, issue: Issue)
    requires a == b.(repositories := a.repositories, held := a.held, installed := a.installed, orphaned := a.orphaned)
    requires forall r :: r in a.repositories <==> r in b.repositories
    ensures issue in HostBlockers(a, policy) <==> issue in HostBlockers(b, policy)
  {
    hide StorageBlockers, RepositoryBlockers, When;
    RepositoryBlockersAre(a.repositories, issue);
    RepositoryBlockersAre(b.repositories, issue);
    assert SystemBlockers(a, policy) == SystemBlockers(b, policy);
    assert PowerBlockers(a, policy) == PowerBlockers(b, policy);
  }

  lemma SolverBlockersIgnoreOrder(a: SolverResult, b: SolverResult, rules: SolverPolicy, issue: Issue)
    requires a == b.(changes := a.changes, metadataValid := a.metadataValid)
    requires forall c :: c in a.changes <==> c in b.changes
    ensures issue in SolverBlockers(a, rules) <==> issue in SolverBlockers(b, rules)
  {
    hide ChangeBlockers, VendorBlockers, LockstepBlockers, When, Permitted;
    ChangeBlockersAre(a.changes, rules, issue);
    ChangeBlockersAre(b.changes, rules, issue);
    NoVendorBlockers(a.changes, rules);
    NoVendorBlockers(b.changes, rules);
    LockstepIgnoresOrder(rules.lockstep, a.changes, b.changes);
  }

  // A host report depends on what its lists hold, not on their order.
  lemma HostReportIgnoresOrder(a: HostFacts, b: HostFacts, policy: PreflightPolicy)
    requires a == b.(repositories := a.repositories, held := a.held, installed := a.installed, orphaned := a.orphaned)
    requires forall r :: r in a.repositories <==> r in b.repositories
    requires (forall s :: s in a.held <==> s in b.held) && forall s :: s in a.orphaned <==> s in b.orphaned
    ensures HostReport(a, policy) == HostReport(b, policy)
  {
    hide Canonical, SortedSet, HostBlockers, ThirdParty;
    forall issue
      ensures issue in HostBlockers(a, policy) <==> issue in HostBlockers(b, policy)
    {
      HostBlockersIgnoreOrder(a, b, policy, issue);
    }
    CanonicalIssues(HostBlockers(a, policy), HostBlockers(b, policy));
    forall alias
      ensures alias in ThirdParty(a.repositories) <==> alias in ThirdParty(b.repositories)
    {
      ThirdPartyAre(a.repositories, alias);
      ThirdPartyAre(b.repositories, alias);
    }
    SortedSetIgnoresOrder(ThirdParty(a.repositories), ThirdParty(b.repositories));
    SortedSetIgnoresOrder(a.held, b.held);
    SortedSetIgnoresOrder(a.orphaned, b.orphaned);
  }

  // So does the report on host and solution together.
  lemma SolverReportIgnoresOrder(a: HostFacts, b: HostFacts, policy: PreflightPolicy,
                                 s: SolverResult, t: SolverResult, rules: SolverPolicy)
    requires SameHost(a, b) && SameSolution(s, t)
    ensures SolverReport(a, policy, s, rules) == SolverReport(b, policy, t, rules)
  {
    hide Canonical, HostReport, SolverBlockers, WithMetadata;
    SameElements(a.repositories, b.repositories);
    SameElements(a.held, b.held);
    SameElements(a.orphaned, b.orphaned);
    SameElements(s.changes, t.changes);
    SameElements(s.metadataValid, t.metadataValid);
    var x, y := Enriched(a, s), Enriched(b, t);
    forall r
      ensures r in x.repositories <==> r in y.repositories
    {
      MarkedMembers(a.repositories, s.metadataValid, r);
      MarkedMembers(b.repositories, t.metadataValid, r);
    }
    HostReportIgnoresOrder(x, y, policy);
    var host := HostReport(x, policy).blockers;
    forall issue
      ensures issue in host + SolverBlockers(s, rules) <==> issue in host + SolverBlockers(t, rules)
    {
      SolverBlockersIgnoreOrder(s, t, rules, issue);
    }
    CanonicalIssues(host + SolverBlockers(s, rules), host + SolverBlockers(t, rules));
  }
}
