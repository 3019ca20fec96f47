/** The blockers a preflight can report, in their derived order. */
module Issues {
  import opened Orders

  datatype Issue =
    | StorageLayoutUnknown | RootNotWritable | HomeNotIsolated | InsufficientBootSpace | InsufficientEspSpace
    | UnsupportedEdition | UnsupportedArchitecture | RootNotBtrfs | SnapperUnavailable | RpmDatabaseUnhealthy
    | PackageManagerBusy | InsufficientSpace | BatteryTooLow | BatteryStateUnknown | SecureBootStateUnknown
    | RepositoryMetadataInvalid(alias: string) | RepositoryKeyUntrusted(alias: string)
    | UnsupportedSolverSchema | SolverFailed
    | UnauthorizedDowngrade(package: string) | UnauthorizedRemoval(package: string)
    | UnauthorizedVendorChange(package: string) | LockstepViolation

  function Rank(issue: Issue): nat {
    match issue
    case StorageLayoutUnknown => 0
    case RootNotWritable => 1
    case HomeNotIsolated => 2
    case InsufficientBootSpace => 3
    case InsufficientEspSpace => 4
    case UnsupportedEdition => 5
    case UnsupportedArchitecture => 6
    case RootNotBtrfs => 7
    case SnapperUnavailable => 8
    case RpmDatabaseUnhealthy => 9
    case PackageManagerBusy => 10
    case InsufficientSpace => 11
    case BatteryTooLow => 12
    case BatteryStateUnknown => 13
    case SecureBootStateUnknown => 14
    case RepositoryMetadataInvalid(_) => 15
    case RepositoryKeyUntrusted(_) => 16
    case UnsupportedSolverSchema => 17
    case SolverFailed => 18
    case UnauthorizedDowngrade(_) => 19
    case UnauthorizedRemoval(_) => 20
    case UnauthorizedVendorChange(_) => 21
    case LockstepViolation => 22
  }

  function IssueKey(issue: Issue): seq<Field> {
    match issue
    case RepositoryMetadataInvalid(alias) => [Number(Rank(issue)), Text(alias)]
    case RepositoryKeyUntrusted(alias) => [Number(Rank(issue)), Text(alias)]
    case UnauthorizedDowngrade(package) => [Number(Rank(issue)), Text(package)]
    case UnauthorizedRemoval(package) => [Number(Rank(issue)), Text(package)]
    case UnauthorizedVendorChange(package) => [Number(Rank(issue)), Text(package)]
    case _ => [Number(Rank(issue))]
  }

  lemma IssueKeyIdentifies(a: Issue, b: Issue)
    requires IssueKey(a) == IssueKey(b)
    ensures a == b
  {
    assert IssueKey(a)[0] == IssueKey(b)[0];
    if |IssueKey(a)| == 2 {
      assert IssueKey(a)[1] == IssueKey(b)[1];
    }
  }

  // `sort` and `dedup` on the blockers collected
  function Canonical(issues: seq<Issue>): seq<Issue> {
    Dedup(Sort(issues, IssueKey))
  }

  lemma IssueKeysIdentify(issues: seq<Issue>)
    ensures KeysIdentify(issues, IssueKey)
  {
    hide IssueKey;
    forall a, b | a in issues && b in issues && IssueKey(a) == IssueKey(b)
      ensures a == b
    {
      IssueKeyIdentifies(a, b);
    }
  }

  // The canonical list holds the same issues, and depends on nothing else.
  lemma CanonicalIssues(a: seq<Issue>, b: seq<Issue>)
    ensures forall issue :: issue in Canonical(a) <==> issue in a
    ensures (forall issue :: issue in a <==> issue in b) ==> Canonical(a) == Canonical(b)
  {
    hide KeysIdentify, Dedup, Sort;
    IssueKeysIdentify(a);
    CanonicalKeeps(a, IssueKey);
    if forall issue :: issue in a <==> issue in b {
      CanonicalSet(a, b, IssueKey);
    }
  }

  lemma CanonicalEmpty(a: seq<Issue>)
    ensures Canonical(a) == [] <==> a == []
  {
    hide Canonical;
    CanonicalIssues(a, a);
    EmptyTogether(Canonical(a), a);
  }
}
