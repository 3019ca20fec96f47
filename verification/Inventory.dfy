/** Checking the installed packages against the confirmed plan, and what a verified
    migration leaves to be done: nothing. */
module Inventory {
  import opened Wrappers
  import opened Operation
  import opened Records
  import opened Packages
  import opened Migration

  datatype ResultError = MissingInventory | MissingVendor | UnknownPrevious | Differs

  // The part of a plan that the result is checked against.
  datatype Confirmed = Confirmed(
    schemaVersion: nat, operation: OperationKind, installed: seq<Installed>, changes: seq<Change>)

  datatype Expected = Expected(required: set<Installed>, allowed: set<Installed>)

  function Elements<T>(s: seq<T>): set<T> {
    set x | x in s
  }

  // The package a change replaces, and the one it proposes.
  function Previous(c: Change): Installed
    requires c.currentVersion.Some? && c.currentVendor.Some?
  {
    Installed(c.name, c.currentVersion.value, c.architecture, c.currentVendor.value)
  }

  function Proposed(c: Change): Installed
    requires c.proposedVersion.Some? && c.proposedVendor.Some?
  {
    Installed(c.name, c.proposedVersion.value, c.architecture, c.proposedVendor.value)
  }

  // What one change makes of the expectation.
  function Expect(e: Expected, c: Change): Result<Expected, ResultError> {
    if c.currentVersion.Some? && c.currentVendor.None? then Err(MissingVendor)
    else if c.currentVersion.Some? && Previous(c) !in e.required then Err(UnknownPrevious)
    else if c.proposedVersion.Some? && c.proposedVendor.None? then Err(MissingVendor)
    else
      var removed :=
        if c.currentVersion.None? then e
        else Expected(e.required - {Previous(c)}, if c.action.Remove? then e.allowed - {Previous(c)} else e.allowed);
      Ok(if c.proposedVersion.None? then removed
         else Expected(removed.required + {Proposed(c)}, removed.allowed + {Proposed(c)}))
  }

  function ExpectAll(installed: seq<Installed>, changes: seq<Change>): Result<Expected, ResultError> {
    if changes == [] then Ok(Expected(Elements(installed), Elements(installed)))
    else
      var before := ExpectAll(installed, changes[..|changes| - 1]);
      if before.Err? then before else Expect(before.value, changes[|changes| - 1])
  }

  predicate Meets(operation: OperationKind, actual: set<Installed>, e: Expected) {
    && (operation.PackageMigration? ==> actual == e.required)
    && e.required <= actual && actual <= e.allowed
  }

  function ResultOf(plan: Confirmed, report: seq<Installed>): Result<(), ResultError> {
    if plan.schemaVersion != 3 || plan.installed == [] then Err(MissingInventory)
    else
      var e := ExpectAll(plan.installed, plan.changes);
      if e.Err? then Err(e.error)
      else if Meets(plan.operation, Elements(report), e.value) then Ok(())
      else Err(Differs)
  }

  lemma {:induction false} ExpectationFails(installed: seq<Installed>, changes: seq<Change>, k: nat)
    requires k <= |changes| && ExpectAll(installed, changes[..k]).Err?
    ensures ExpectAll(installed, changes) == ExpectAll(installed, changes[..k])
    decreases |changes| - k
  {
    hide Expect;
    if k < |changes| {
      assert changes[..k + 1][..k] == changes[..k];
      ExpectationFails(installed, changes, k + 1);
    } else {
      assert changes[..k] == changes;
    }
  }

  // `verify_result`
  method VerifyResult(plan: Confirmed, report: seq<Installed>) returns (r: Result<(), ResultError>)
    ensures r == ResultOf(plan, report)
  {
    if plan.schemaVersion != 3 || plan.installed == [] {
      return Err(MissingInventory);
    }
    var required := Elements(plan.installed);
    var allowed := required;
    for i := 0 to |plan.changes|
      invariant ExpectAll(plan.installed, plan.changes[..i]) == Ok(Expected(required, allowed))
    {
      var change := plan.changes[i];
      assert plan.changes[..i + 1][..i] == plan.changes[..i];
      if change.currentVersion.Some? {
        if change.currentVendor.None? {
          ExpectationFails(plan.installed, plan.changes, i + 1);
          return Err(MissingVendor);
        }
        var previous := Previous(change);
        if previous !in required {
          ExpectationFails(plan.installed, plan.changes, i + 1);
          return Err(UnknownPrevious);
        }
        required := required - {previous};
        if change.action.Remove? {
          allowed := allowed - {previous};
        }
      }
      if change.proposedVersion.Some? {
        if change.proposedVendor.None? {
          ExpectationFails(plan.installed, plan.changes, i + 1);
          return Err(MissingVendor);
        }
        var proposed := Proposed(change);
        required := required + {proposed};
        allowed := allowed + {proposed};
      }
    }
    assert plan.changes[..|plan.changes|] == plan.changes;
    var actual := Elements(report);
    if (plan.operation.PackageMigration? && actual != required) || !(required <= actual) || !(actual <= allowed) {
      return Err(Differs);
    }
    r := Ok(());
  }

  // -------------------------------------------------- what is kept, removed and added

  predicate Replaces(c: Change, x: Installed) {
    c.currentVersion.Some? && c.currentVendor.Some? && Previous(c) == x
  }

  predicate Proposes(c: Change, x: Installed) {
    c.proposedVersion.Some? && c.proposedVendor.Some? && Proposed(c) == x
  }

  // For changes of distinct names, the packages required in the end are those that no
  // change replaces, together with those that some change proposes.
  lemma {:induction false} RequiredInTheEnd(installed: seq<Installed>, changes: seq<Change>, x: Installed)
    requires DistinctChanges(changes) && ExpectAll(installed, changes).Ok?
    ensures x in ExpectAll(installed, changes).value.required <==>
            || (exists c :: c in changes && Proposes(c, x))
            || (x in installed && forall c :: c in changes ==> !Replaces(c, x))
  {
    if changes != [] {
      var front, last := changes[..|changes| - 1], changes[|changes| - 1];
      assert changes == front + [last];
      RequiredInTheEnd(installed, front, x);
      assert forall c :: c in changes <==> c in front || c == last;
      var before := ExpectAll(installed, front).value.required;
      assert x in ExpectAll(installed, changes).value.required
             <==> Proposes(last, x) || (x in before && !Replaces(last, x));
      if Replaces(last, x) {
        forall c | c in front
          ensures !Proposes(c, x)
        {
          var k :| 0 <= k < |front| && front[k] == c;
          assert changes[k].name != changes[|changes| - 1].name;
        }
        assert !Proposes(last, x) ==> !exists c :: c in changes && Proposes(c, x);
      }
    }
  }

  // ------------------------------------------------------------------- the pigeonhole

  function NamesOf(changes: seq<Change>): set<string> {
    set c | c in changes :: c.name
  }

  function NamesDue(packages: seq<MigrationPackage>): set<string> {
    set p | p in packages :: p.name
  }

  lemma {:induction false} DistinctChangesCount(changes: seq<Change>)
    requires DistinctChanges(changes)
    ensures |NamesOf(changes)| == |changes|
  {
    if changes != [] {
      var front, last := changes[..|changes| - 1], changes[|changes| - 1];
      assert changes == front + [last];
      DistinctChangesCount(front);
      assert NamesOf(changes) == NamesOf(front) + {last.name};
      assert last.name !in NamesOf(front);
    }
  }

  lemma {:induction false} DistinctPackagesCount(packages: seq<MigrationPackage>)
    requires DistinctNames(packages)
    ensures |NamesDue(packages)| == |packages|
  {
    if packages != [] {
      var front, last := packages[..|packages| - 1], packages[|packages| - 1];
      assert packages == front + [last];
      DistinctPackagesCount(front);
      assert NamesDue(packages) == NamesDue(front) + {last.name};
      assert last.name !in NamesDue(front);
    }
  }

  lemma SubsetOfSameSize<T>(a: set<T>, b: set<T>)
    requires a <= b && |a| == |b|
    ensures a == b
  {
    assert |b - a| == |b| - |a|;
    assert b == a + (b - a);
  }

  // An accepted transaction executes every pending package: as many changes of
  // distinct names, each executing a pending package, leave none out.
  lemma EveryPendingIsExecuted(changes: seq<Change>, pending: seq<MigrationPackage>, p: MigrationPackage)
    requires IsTheTransaction(changes, pending) && DistinctNames(pending) && p in pending
    ensures exists c :: c in changes && Executes(c, p)
  {
    hide Executes;
    DistinctChangesCount(changes);
    DistinctPackagesCount(pending);
    forall name | name in NamesOf(changes)
      ensures name in NamesDue(pending)
    {
      var c :| c in changes && c.name == name;
      assert IsExecuted(c, pending);
      var q :| q in pending && Executes(c, q);
      ExecutesName(c, q);
    }
    SubsetOfSameSize(NamesOf(changes), NamesDue(pending));
    assert p.name in NamesOf(changes);
    var c :| c in changes && c.name == p.name;
    assert IsExecuted(c, pending);
    var q :| q in pending && Executes(c, q);
    ExecutesName(c, q);
    SameName(pending, p, q);
  }

  lemma ExecutesName(c: Change, p: MigrationPackage)
    requires Executes(c, p)
    ensures c.name == p.name
  {}

  lemma SameName(packages: seq<MigrationPackage>, p: MigrationPackage, q: MigrationPackage)
    requires DistinctNames(packages) && p in packages && q in packages && p.name == q.name
    ensures p == q
  {
    var i :| 0 <= i < |packages| && packages[i] == p;
    var j :| 0 <= j < |packages| && packages[j] == q;
  }

  // ------------------------------------------------------------------ the fixed point

  predicate DuplicateFree(s: seq<Installed>) {
    forall i, j :: 0 <= i < j < |s| ==> s[i] != s[j]
  }

  lemma {:induction false} NamedMembers(s: seq<Installed>, name: string)
    ensures forall x :: x in Named(s, name) <==> x in s && x.name == name
    ensures |Named(s, name)| <= |s|
  {
    if s != [] {
      NamedMembers(s[..|s| - 1], name);
      assert s == s[..|s| - 1] + [s[|s| - 1]];
    }
  }

  lemma {:induction false} NamedOnlyOne(s: seq<Installed>, x: Installed)
    requires DuplicateFree(s) && x in s && forall y :: y in s && y.name == x.name ==> y == x
    ensures Named(s, x.name) == [x]
  {
    var front, last := s[..|s| - 1], s[|s| - 1];
    assert s == front + [last];
    if last == x {
      LastIsNew(s);
      NamedNone(front, x.name);
    } else {
      NamedOnlyOne(front, x);
    }
  }

  lemma NamedNone(s: seq<Installed>, name: string)
    requires forall y :: y in s ==> y.name != name
    ensures Named(s, name) == []
  {
    NamedMembers(s, name);
    EmptyOrFirst(Named(s, name));
  }

  lemma EmptyOrFirst<T>(s: seq<T>)
    ensures s == [] || s[0] in s
  {}

  lemma LastIsNew(s: seq<Installed>)
    requires s != [] && DuplicateFree(s)
    ensures s[|s| - 1] !in s[..|s| - 1]
  {}

  // The situation after a migration whose result was verified.
  predicate Verified(manifest: Manifest, plan: Confirmed, report: seq<Installed>) {
    && manifest.migration.Some? && plan.operation.PackageMigration?
    && MigrationPlan(manifest, plan.installed, plan.changes).Ok?
    && ResultOf(plan, report).Ok?
    && DuplicateFree(report)
  }

  lemma VerifiedRequires(manifest: Manifest, plan: Confirmed, report: seq<Installed>, y: Installed)
    requires Verified(manifest, plan, report)
    ensures y in report <==>
            || (exists c :: c in plan.changes && Proposes(c, y))
            || (y in plan.installed && forall c :: c in plan.changes ==> !Replaces(c, y))
  {
    hide ExpectAll, Replaces, Proposes, PendingOn;
    RequiredInTheEnd(plan.installed, plan.changes, y);
    assert y in report <==> y in Elements(report);
  }

  lemma SameChange(changes: seq<Change>, c: Change, c': Change)
    requires DistinctChanges(changes) && c in changes && c' in changes && c.name == c'.name
    ensures c == c'
  {
    var i :| 0 <= i < |changes| && changes[i] == c;
    var j :| 0 <= j < |changes| && changes[j] == c';
  }

  // A package that was due is at its new identity, and only there.
  lemma DueIsDone(manifest: Manifest, plan: Confirmed, report: seq<Installed>, p: MigrationPackage)
    requires Verified(manifest, plan, report)
    requires p in manifest.migration.value && StandingOf(p, plan.installed).Due?
    ensures Named(report, p.name) == [Installed(p.name, p.toVersion, p.architecture, p.toVendor)]
  {
    hide ValidMigration, ResultOf, FirstMisfit, DueIn;
    PendingExactly(manifest, plan.installed);
    var pending := PendingOn(manifest, plan.installed).value;
    PendingIsDistinct(manifest, plan.installed);
    assert p in pending;
    EveryPendingIsExecuted(plan.changes, pending, p);
    var c :| c in plan.changes && Executes(c, p);
    var x := Installed(p.name, p.toVersion, p.architecture, p.toVendor);
    assert Proposes(c, x);
    VerifiedRequires(manifest, plan, report, x);
    forall y | y in report && y.name == p.name
      ensures y == x
    {
      VerifiedRequires(manifest, plan, report, y);
      if c' :| c' in plan.changes && Proposes(c', y) {
        SameChange(plan.changes, c, c');
      } else {
        WasReplaced(p, plan.installed, c, y);
      }
    }
    NamedOnlyOne(report, x);
  }

  lemma WasReplaced(p: MigrationPackage, installed: seq<Installed>, c: Change, y: Installed)
    requires StandingOf(p, installed).Due? && Executes(c, p)
    ensures y in installed && y.name == p.name ==> Replaces(c, y)
  {
    NamedMembers(installed, p.name);
  }

  lemma {:induction false} DueKeepsNames(packages: seq<MigrationPackage>, installed: seq<Installed>)
    requires DistinctNames(packages)
    ensures DistinctNames(DueIn(packages, installed))
  {
    hide StandingOf;
    if packages != [] {
      var front, last := packages[..|packages| - 1], packages[|packages| - 1];
      DueKeepsNames(front, installed);
      DueAreMembers(front, installed);
      var due := DueIn(front, installed);
      forall i | 0 <= i < |due|
        ensures due[i].name != last.name
      {
        assert due[i] in front;
        var j :| 0 <= j < |front| && front[j] == due[i];
        assert packages[j].name != packages[|packages| - 1].name;
      }
    }
  }

  lemma PendingIsDistinct(manifest: Manifest, installed: seq<Installed>)
    requires PendingOn(manifest, installed).Ok?
    ensures DistinctNames(PendingOn(manifest, installed).value)
  {
    hide WellFormed, GrantsAreUsed, StandingOf;
    DueKeepsNames(manifest.migration.GetOr([]), installed);
  }

  // A package that was settled is untouched.
  lemma SettledIsKept(manifest: Manifest, plan: Confirmed, report: seq<Installed>, p: MigrationPackage, y: Installed)
    requires Verified(manifest, plan, report)
    requires p in manifest.migration.value && StandingOf(p, plan.installed).Settled? && y.name == p.name
    ensures y in report <==> y in plan.installed
  {
    hide WellFormed, GrantsAreUsed, ResultOf, FirstMisfit, DueIn, StandingOf;
    PendingExactly(manifest, plan.installed);
    VerifiedRequires(manifest, plan, report, y);
    forall c | c in plan.changes
      ensures c.name != p.name
    {
      assert IsExecuted(c, PendingOn(manifest, plan.installed).value);
      var q :| q in PendingOn(manifest, plan.installed).value && Executes(c, q);
      if q.name == p.name {
        SameName(manifest.migration.value, p, q);
      }
    }
  }

  lemma SettledAfter(manifest: Manifest, plan: Confirmed, report: seq<Installed>, p: MigrationPackage)
    requires Verified(manifest, plan, report)
    requires p in manifest.migration.value
    ensures StandingOf(p, report).Settled?
  {
    hide ValidMigration, ResultOf, FirstMisfit, DueIn, Verified, Named, DuplicateFree;
    VerifiedIsPending(manifest, plan, report);
    PendingExactly(manifest, plan.installed);
    match StandingOf(p, plan.installed)
    case Due => DueIsDone(manifest, plan, report, p);
    case Settled =>
      NamedMembers(plan.installed, p.name);
      NamedMembers(report, p.name);
      var matching := Named(plan.installed, p.name);
      if matching == [] {
        forall y | y in report
          ensures y.name != p.name
        {
          if y.name == p.name {
            SettledIsKept(manifest, plan, report, p, y);
          }
        }
        NamedNone(report, p.name);
      } else {
        var x := matching[0];
        SettledIsKept(manifest, plan, report, p, x);
        forall y | y in report && y.name == p.name
          ensures y == x
        {
          SettledIsKept(manifest, plan, report, p, y);
          assert y in matching;
        }
        VerifiedIsDuplicateFree(manifest, plan, report);
        NamedOnlyOne(report, x);
      }
  }

  lemma VerifiedIsPending(manifest: Manifest, plan: Confirmed, report: seq<Installed>)
    requires Verified(manifest, plan, report)
    ensures manifest.migration.Some? && PendingOn(manifest, plan.installed).Ok?
  {}

  lemma VerifiedIsDuplicateFree(manifest: Manifest, plan: Confirmed, report: seq<Installed>)
    requires Verified(manifest, plan, report)
    ensures DuplicateFree(report)
  {}

  // A verified migration is a fixed point: on the reported inventory nothing is pending.
  lemma VerifiedMigrationIsFixedPoint(manifest: Manifest, plan: Confirmed, report: seq<Installed>)
    requires Verified(manifest, plan, report)
    ensures PendingOn(manifest, report) == Ok([])
  {
    hide StandingOf, ValidMigration, Verified, DuplicateFree;
    VerifiedIsPending(manifest, plan, report);
    var packages := manifest.migration.value;
    forall p | p in packages
      ensures StandingOf(p, report).Settled?
    {
      SettledAfter(manifest, plan, report, p);
    }
    NoMisfit(packages, report);
    DueAreMembers(packages, report);
    EmptyOrFirst(DueIn(packages, report));
  }
}
