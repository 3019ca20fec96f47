/** One command policy for planning, download and offline package maintenance, and the
    payloads it accepts. */
module Transaction {
  import opened Wrappers
  import opened Packages
  import opened Migration
  import opened Inventory

  datatype TransactionMode = Plan | Download | Apply

  function PackageArgument(p: MigrationPackage): string {
    p.name + "." + p.architecture + "=" + p.toVersion
  }

  function PackageArguments(pending: seq<MigrationPackage>): seq<string> {
    if pending == [] then []
    else PackageArguments(pending[..|pending| - 1]) + [PackageArgument(pending[|pending| - 1])]
  }

  function ModeArguments(mode: TransactionMode): seq<string> {
    match mode
    case Plan => ["--dry-run"]
    case Download => ["--download-only"]
    case Apply => []
  }

  const PolicyArguments := ["--details", "--no-allow-downgrade", "--no-allow-name-change", "--no-allow-arch-change", "--allow-vendor-change"]

  // The command line: for a migration, exactly the pending packages by name,
  // architecture and version, from their one repository.
  function Arguments(manifest: Manifest, installed: seq<Installed>, mode: TransactionMode): Result<seq<string>, MigrationError> {
    if manifest.migration.None? then Ok(["dist-upgrade"] + ModeArguments(mode) + PolicyArguments)
    else
      var pending := PendingOn(manifest, installed);
      if pending.Err? then Err(pending.error)
      else if pending.value == [] then Err(AlreadyApplied)
      else Ok(["install", "--name", "--no-recommends", "--from", pending.value[0].repositoryAlias]
              + ModeArguments(mode) + PolicyArguments + ["--"] + PackageArguments(pending.value))
  }

  // `transaction_arguments`
  method TransactionArguments(manifest: Manifest, installed: seq<Installed>, mode: TransactionMode)
    returns (r: Result<seq<string>, MigrationError>)
    ensures r == Arguments(manifest, installed, mode)
  {
    hide PendingOn;
    var args: seq<string> := [];
    var pending: seq<MigrationPackage> := [];
    if manifest.migration.Some? {
      var result := PendingMigration(manifest, installed);
      if result.Err? {
        return Err(result.error);
      }
      pending := result.value;
      if pending == [] {
        return Err(AlreadyApplied);
      }
      args := args + ["install", "--name", "--no-recommends", "--from", pending[0].repositoryAlias];
    } else {
      args := args + ["dist-upgrade"];
    }
    ghost var command := args;
    match mode {
      case Plan => args := args + ["--dry-run"];
      case Download => args := args + ["--download-only"];
      case Apply =>
    }
    assert args == command + ModeArguments(mode);
    args := args + PolicyArguments;
    if manifest.migration.Some? {
      args := args + ["--"];
      ghost var head := args;
      for i := 0 to |pending|
        invariant args == head + PackageArguments(pending[..i])
      {
        assert pending[..i + 1][..i] == pending[..i];
        args := args + [PackageArgument(pending[i])];
      }
      assert pending[..|pending|] == pending;
      assert command == ["install", "--name", "--no-recommends", "--from", pending[0].repositoryAlias];
    } else {
      assert command == ["dist-upgrade"];
    }
    r := Ok(args);
  }

  // What the words of a package argument are made of.
  predicate NoMark(s: string, mark: char) {
    forall k :: 0 <= k < |s| ==> s[k] != mark
  }

  lemma WordsHaveNoMarks(p: MigrationPackage, manifest: Manifest, alias: string)
    requires WellFormed(p, manifest, alias)
    ensures NoMark(p.name, '=') && NoMark(p.architecture, '=') && NoMark(p.architecture, '.')
  {
    hide ValidVendor, ValidEdition;
    forall k | 0 <= k < |p.name|
      ensures p.name[k] != '='
    {
      assert p.name[k] in p.name;
    }
  }

  // A text is split in one way only at the first, and at the last, of a mark.
  lemma SplitOnce(a: string, b: string, c: string, d: string, mark: char)
    requires a + [mark] + b == c + [mark] + d
    requires (NoMark(a, mark) && NoMark(c, mark)) || (NoMark(b, mark) && NoMark(d, mark))
    ensures a == c && b == d
  {
    var s := a + [mark] + b;
    assert s[|a|] == mark && s[|c|] == mark;
    assert forall k :: 0 <= k < |a| ==> s[k] == a[k];
    assert forall k :: 0 <= k < |c| ==> s[k] == c[k];
    assert forall k :: |a| < k < |s| ==> s[k] == b[k - |a| - 1];
    assert forall k :: |c| < k < |s| ==> s[k] == d[k - |c| - 1];
    assert |a| == |c|;
    assert a == s[..|a|] && c == s[..|c|] && b == s[|a| + 1..] && d == s[|c| + 1..];
  }

  // A package argument can be read back.
  lemma ArgumentNamesOnePackage(p: MigrationPackage, q: MigrationPackage, manifest: Manifest, alias: string)
    requires WellFormed(p, manifest, alias) && WellFormed(q, manifest, alias)
    requires PackageArgument(p) == PackageArgument(q)
    ensures p.name == q.name && p.architecture == q.architecture && p.toVersion == q.toVersion
  {
    hide WellFormed;
    WordsHaveNoMarks(p, manifest, alias);
    WordsHaveNoMarks(q, manifest, alias);
    var x, y := p.name + "." + p.architecture, q.name + "." + q.architecture;
    assert PackageArgument(p) == x + ['='] + p.toVersion && PackageArgument(q) == y + ['='] + q.toVersion;
    assert NoMark(x, '=') && NoMark(y, '=');
    SplitOnce(x, p.toVersion, y, q.toVersion, '=');
    SplitOnce(p.name, p.architecture, q.name, q.architecture, '.');
  }

  lemma {:induction false} ArgumentsInOrder(pending: seq<MigrationPackage>)
    ensures |PackageArguments(pending)| == |pending|
    ensures forall i :: 0 <= i < |pending| ==> PackageArguments(pending)[i] == PackageArgument(pending[i])
  {
    if pending != [] {
      ArgumentsInOrder(pending[..|pending| - 1]);
    }
  }

  // The command line of a migration ends, after its only double dash, in one argument for
  // each pending package, and names no other package of the policy; all pending packages
  // come from the one repository it names.
  lemma CommandNamesExactlyThePending(manifest: Manifest, installed: seq<Installed>, mode: TransactionMode)
    requires manifest.migration.Some? && Arguments(manifest, installed, mode).Ok?
    ensures PendingOn(manifest, installed).Ok?
    ensures var args, pending := Arguments(manifest, installed, mode).value, PendingOn(manifest, installed).value;
            var dashes := |args| - |pending| - 1;
            && dashes > 4 && args[dashes] == "--" && (forall j :: 0 <= j < dashes && j != 4 ==> args[j] != "--")
            && args[0] == "install" && args[3] == "--from" && (forall p :: p in pending ==> p.repositoryAlias == args[4])
            && (forall i :: 0 <= i < |pending| ==> args[dashes + 1 + i] == PackageArgument(pending[i]))
            && (forall p :: p in manifest.migration.value ==> (PackageArgument(p) in args[dashes + 1..] <==> p in pending))
  {
    hide PendingOn, PackageArgument, PackageArguments, ValidMigration, Arguments, Options;
    var options := CommandParts(manifest, installed, mode);
    var args, pending := Arguments(manifest, installed, mode).value, PendingOn(manifest, installed).value;
    ArgumentsInOrder(pending);
    OptionsHaveNoDashes(pending[0].repositoryAlias, mode);
    assert args[|options| + 1..] == PackageArguments(pending);
    assert forall j :: 0 <= j < |options| ==> args[j] == options[j];
    assert forall i :: 0 <= i < |pending| ==> args[|options| + 1 + i] == PackageArguments(pending)[i];
    PendingFromOneRepository(manifest, installed);
    OnlyThePending(manifest, installed);
  }

  function Options(alias: string, mode: TransactionMode): seq<string> {
    ["install", "--name", "--no-recommends", "--from", alias] + ModeArguments(mode) + PolicyArguments
  }

  lemma OptionsHaveNoDashes(alias: string, mode: TransactionMode)
    ensures var options := Options(alias, mode);
            && |options| > 4 && options[0] == "install" && options[3] == "--from" && options[4] == alias
            && forall j :: 0 <= j < |options| && j != 4 ==> options[j] != "--"
  {
    assert forall word :: word in ModeArguments(mode) || word in PolicyArguments ==> |word| > 2;
    var options := Options(alias, mode);
    forall j | 0 <= j < |options| && j != 4
      ensures options[j] != "--"
    {
      assert j >= 5 ==> options[j] in ModeArguments(mode) || options[j] in PolicyArguments;
    }
  }

  lemma CommandParts(manifest: Manifest, installed: seq<Installed>, mode: TransactionMode) returns (options: seq<string>)
    requires manifest.migration.Some? && Arguments(manifest, installed, mode).Ok?
    ensures PendingOn(manifest, installed).Ok? && PendingOn(manifest, installed).value != []
    ensures var pending := PendingOn(manifest, installed).value;
            && options == Options(pending[0].repositoryAlias, mode)
            && Arguments(manifest, installed, mode).value == options + ["--"] + PackageArguments(pending)
  {
    hide PendingOn, PackageArguments;
    options := Options(PendingOn(manifest, installed).value[0].repositoryAlias, mode);
  }

  lemma PendingFromOneRepository(manifest: Manifest, installed: seq<Installed>)
    requires manifest.migration.Some? && PendingOn(manifest, installed).Ok?
    ensures forall p :: p in PendingOn(manifest, installed).value ==>
              p in manifest.migration.value && p.repositoryAlias == manifest.migration.value[0].repositoryAlias
  {
    hide WellFormed, StandingOf, GrantsAreUsed, FirstMisfit, DueIn;
    var packages := manifest.migration.value;
    DueAreMembers(packages, installed);
    forall p | p in PendingOn(manifest, installed).value
      ensures p.repositoryAlias == packages[0].repositoryAlias
    {
      WellFormedAlias(p, manifest, packages[0].repositoryAlias);
    }
  }

  lemma OnlyThePending(manifest: Manifest, installed: seq<Installed>)
    requires manifest.migration.Some? && PendingOn(manifest, installed).Ok?
    ensures var pending := PendingOn(manifest, installed).value;
            forall p :: p in manifest.migration.value ==> (PackageArgument(p) in PackageArguments(pending) <==> p in pending)
  {
    hide WellFormed, StandingOf, PackageArgument, GrantsAreUsed, FirstMisfit, DueIn, PackageArguments;
    var packages, pending := manifest.migration.value, PendingOn(manifest, installed).value;
    PendingFromOneRepository(manifest, installed);
    ArgumentsInOrder(pending);
    forall p | p in packages && PackageArgument(p) in PackageArguments(pending)
      ensures p in pending
    {
      var i :| 0 <= i < |pending| && PackageArguments(pending)[i] == PackageArgument(p);
      assert pending[i] in pending;
      ArgumentNamesOnePackage(p, pending[i], manifest, packages[0].repositoryAlias);
      var m :| 0 <= m < |packages| && packages[m] == p;
      var n :| 0 <= n < |packages| && packages[n] == pending[i];
      assert m == n;
    }
    forall p | p in pending
      ensures PackageArgument(p) in PackageArguments(pending)
    {
      var i :| 0 <= i < |pending| && pending[i] == p;
      assert PackageArguments(pending)[i] == PackageArgument(p);
    }
  }

  lemma WellFormedAlias(p: MigrationPackage, manifest: Manifest, alias: string)
    requires WellFormed(p, manifest, alias)
    ensures p.repositoryAlias == alias
  {}

  // Nothing is left to run after a migration whose result was verified.
  lemma VerifiedMigrationIsApplied(manifest: Manifest, plan: Confirmed, report: seq<Installed>, mode: TransactionMode)
    requires Verified(manifest, plan, report)
    ensures Arguments(manifest, report, mode) == Err(AlreadyApplied)
  {
    VerifiedMigrationIsFixedPoint(manifest, plan, report);
  }

  // -------------------------------------------------------------------------- payloads

  datatype PayloadError = Policy(error: MigrationError) | InvalidSet | Unexpected | Missing

  function Digests(pending: seq<MigrationPackage>): seq<string> {
    seq(|pending|, i requires 0 <= i < |pending| => pending[i].sha256)
  }

  // `verify_payloads`: `files` are the digests of the files found, in directory order
  method VerifyPayloads(manifest: Manifest, installed: seq<Installed>, files: seq<string>)
    returns (r: Result<(), PayloadError>)
    requires manifest.migration.Some?
    ensures PendingOn(manifest, installed).Err? ==> r.Err?
    ensures PendingOn(manifest, installed).Ok? ==>
              var wanted := Digests(PendingOn(manifest, installed).value);
              r.Ok? <==> wanted != [] && Distinct(wanted) && multiset(files) == multiset(wanted)
  {
    hide PendingOn;
    var pending := PendingMigration(manifest, installed);
    if pending.Err? {
      return Err(PayloadError.Policy(pending.error));
    }
    var wanted := Digests(pending.value);
    var remaining := set d | d in wanted;
    DistinctExactly(wanted);
    if |remaining| != |wanted| || |remaining| == 0 {
      return Err(InvalidSet);
    }
    DistinctMultiset(wanted);
    for i := 0 to |files|
      invariant multiset(files[..i]) + multiset(remaining) == multiset(wanted)
      invariant forall d :: d in remaining ==> d in wanted
    {
      assert files[..i + 1] == files[..i] + [files[i]];
      if files[i] !in remaining {
        TooMany(files, i, multiset(remaining), multiset(wanted));
        return Err(Unexpected);
      }
      assert multiset(remaining - {files[i]}) == multiset(remaining) - multiset{files[i]};
      remaining := remaining - {files[i]};
    }
    assert files[..|files|] == files;
    if remaining != {} {
      var d :| d in remaining;
      assert multiset(remaining)[d] == 1;
      assert multiset(wanted)[d] == multiset(files)[d] + 1;
      return Err(Missing);
    }
    r := Ok(());
  }

  predicate Distinct(s: seq<string>) {
    forall i, j :: 0 <= i < j < |s| ==> s[i] != s[j]
  }

  lemma {:induction false} DistinctExactly(s: seq<string>)
    ensures |set d | d in s| <= |s|
    ensures Distinct(s) <==> |set d | d in s| == |s|
  {
    if s != [] {
      var front, last := s[..|s| - 1], s[|s| - 1];
      assert s == front + [last];
      DistinctExactly(front);
      var before := set d | d in front;
      assert (set d | d in s) == before + {last};
      if last in before {
        var k :| 0 <= k < |front| && front[k] == last;
        assert (set d | d in s) == before;
        assert s[k] == s[|s| - 1];
      } else {
        assert Distinct(front) ==> Distinct(s);
      }
    }
  }

  lemma {:induction false} DistinctMultiset(s: seq<string>)
    requires Distinct(s)
    ensures multiset(s) == multiset(set d | d in s)
  {
    forall d
      ensures multiset(s)[d] == multiset(set d' | d' in s)[d]
    {
      if d in s {
        CountsOne(s, d);
      }
    }
  }

  lemma {:induction false} CountsOne(s: seq<string>, d: string)
    requires Distinct(s) && d in s
    ensures multiset(s)[d] == 1
  {
    var front, last := s[..|s| - 1], s[|s| - 1];
    assert s == front + [last];
    if last != d {
      CountsOne(front, d);
    } else {
      assert d !in front;
    }
  }

  lemma TooMany(files: seq<string>, i: nat, rest: multiset<string>, wanted: multiset<string>)
    requires i < |files| && multiset(files[..i]) + rest == wanted && files[i] !in rest
    ensures multiset(files) != wanted
  {
    assert files == files[..i] + [files[i]] + files[i + 1..];
    assert multiset(files)[files[i]] >= multiset(files[..i])[files[i]] + 1;
    assert rest[files[i]] == 0;
  }
}
