/** What the rules of exact package maintenance answer, on the packages themselves: what is
    due, which plan is accepted, which command is run, which result is accepted. */
module MigrationAnswers {
  import opened Wrappers
  import opened Operation
  import opened Packages
  import opened Migration
  import opened Inventory
  import opened Transaction

  // The package of that name that is installed is exactly this one.
  ghost predicate OnlyInstalled(installed: seq<Installed>, x: Installed) {
    exists i :: 0 <= i < |installed| && installed[i] == x && forall j :: 0 <= j < |installed| && j != i ==> installed[j].name != x.name
  }

  ghost predicate NotInstalled(installed: seq<Installed>, name: string) {
    forall x :: x in installed ==> x.name != name
  }

  lemma {:induction false} NoneNamed(installed: seq<Installed>, name: string)
    ensures Named(installed, name) == [] <==> NotInstalled(installed, name)
  {
    if installed != [] {
      var front, last := installed[..|installed| - 1], installed[|installed| - 1];
      assert installed == front + [last];
      NoneNamed(front, name);
      assert last in installed;
      assert forall y :: y in installed <==> y in front || y == last;
    }
  }

  lemma {:induction false} NamedIsOnly(installed: seq<Installed>, x: Installed)
    ensures Named(installed, x.name) == [x] <==> OnlyInstalled(installed, x)
  {
    hide OnlyInstalled, NotInstalled;
    if installed == [] {
      NoneIsOnly(x);
    } else {
      var front, last := installed[..|installed| - 1], installed[|installed| - 1];
      assert installed == front + [last];
      if last.name == x.name {
        var before := Named(front, x.name);
        assert Named(installed, x.name) == before + [last];
        EndsAlone(before, last, x);
        NoneNamed(front, x.name);
        OnlyLast(front, last, x);
      } else {
        NamedIsOnly(front, x);
        OnlyInFront(front, last, x);
      }
    }
  }

  lemma EndsAlone<T>(front: seq<T>, last: T, x: T)
    ensures front + [last] == [x] <==> front == [] && last == x
  {
    if front + [last] == [x] {
      assert |front + [last]| == 1;
      assert (front + [last])[0] == x;
    }
  }

  lemma NoneIsOnly(x: Installed)
    ensures !OnlyInstalled([], x)
  {}

  lemma OnlyLast(front: seq<Installed>, last: Installed, x: Installed)
    requires last.name == x.name
    ensures OnlyInstalled(front + [last], x) <==> last == x && NotInstalled(front, x.name)
  {
    var all := front + [last];
    assert all[|front|] == last && forall j :: 0 <= j < |front| ==> all[j] == front[j];
    if i :| 0 <= i < |all| && all[i] == x && forall j :: 0 <= j < |all| && j != i ==> all[j].name != x.name {
      assert i == |front|;
      forall y | y in front
        ensures y.name != x.name
      {
        var j :| 0 <= j < |front| && front[j] == y;
        assert all[j] == y;
      }
    }
    if last == x && NotInstalled(front, x.name) {
      assert forall j :: 0 <= j < |front| ==> front[j] in front;
      assert all[|front|] == x;
    }
  }

  lemma OnlyInFront(front: seq<Installed>, last: Installed, x: Installed)
    requires last.name != x.name
    ensures OnlyInstalled(front + [last], x) <==> OnlyInstalled(front, x)
  {
    var all := front + [last];
    if i :| 0 <= i < |front| && front[i] == x && forall j :: 0 <= j < |front| && j != i ==> front[j].name != x.name {
      assert all[i] == x;
    }
    if i :| 0 <= i < |all| && all[i] == x && forall j :: 0 <= j < |all| && j != i ==> all[j].name != x.name {
      assert front[i] == x;
      assert forall j :: 0 <= j < |front| ==> front[j] == all[j];
    }
  }

  // How a package of the policy stands: due where exactly its old identity is installed,
  // settled where exactly its new one is, or where it is optional and absent.
  lemma StandingIs(p: MigrationPackage, installed: seq<Installed>)
    requires p.fromVersion != p.toVersion
    ensures var before := Installed(p.name, p.fromVersion, p.architecture, p.fromVendor);
            var after := Installed(p.name, p.toVersion, p.architecture, p.toVendor);
            && (StandingOf(p, installed) == Due <==> OnlyInstalled(installed, before))
            && (StandingOf(p, installed) == Settled <==>
                  OnlyInstalled(installed, after) || (p.ifInstalled && NotInstalled(installed, p.name)))
  {
    hide OnlyInstalled, NotInstalled;
    NoneNamed(installed, p.name);
    NamedIsOnly(installed, Installed(p.name, p.fromVersion, p.architecture, p.fromVendor));
    NamedIsOnly(installed, Installed(p.name, p.toVersion, p.architecture, p.toVendor));
    var matching := Named(installed, p.name);
    if matching != [] {
      NamedMembers(installed, p.name);
      assert matching[0] in matching;
      assert |matching| == 1 ==> matching == [matching[0]];
    }
  }

  // A plan is accepted for a migration exactly if it has one change for each package that
  // is due, and nothing else: each from the old identity to the new one, from the named
  // repository, as an upgrade or a reinstall.
  lemma PlanIs(manifest: Manifest, installed: seq<Installed>, changes: seq<Change>)
    requires manifest.migration.Some? && PendingOn(manifest, installed).Ok?
    ensures var pending := PendingOn(manifest, installed).value;
            MigrationPlan(manifest, installed, changes) == Ok(()) <==>
              && |changes| == |pending| && (forall i, j :: 0 <= i < j < |changes| ==> changes[i].name != changes[j].name)
              && forall c :: c in changes ==>
                   exists p :: && p in pending && c.name == p.name && c.architecture == p.architecture
                               && (c.action == Upgrade || c.action == Reinstall)
                               && c.currentVersion == Some(p.fromVersion) && c.currentVendor == Some(p.fromVendor)
                               && c.proposedVersion == Some(p.toVersion) && c.proposedVendor == Some(p.toVendor)
                               && c.repositoryAlias == Some(p.repositoryAlias)
  {
    hide PendingOn;
    assert forall c :: IsExecuted(c, PendingOn(manifest, installed).value) <==>
             exists p :: p in PendingOn(manifest, installed).value && Executes(c, p);
  }

  // ----------------------------------------------------------------------- the command

  // The command of an upgrade, and that of a migration up to its packages, mode by mode.
  lemma CommandIs(manifest: Manifest, installed: seq<Installed>, mode: TransactionMode)
    requires Arguments(manifest, installed, mode).Ok?
    ensures var args := Arguments(manifest, installed, mode).value;
            var how := if mode == Plan then ["--dry-run"] else if mode == Download then ["--download-only"] else [];
            var policy := ["--details", "--no-allow-downgrade", "--no-allow-name-change", "--no-allow-arch-change", "--allow-vendor-change"];
            && (manifest.migration == None ==> args == ["dist-upgrade"] + how + policy)
            && (manifest.migration.Some? ==>
                  && PendingOn(manifest, installed).Ok? && PendingOn(manifest, installed).value != []
                  && args == ["install", "--name", "--no-recommends", "--from", PendingOn(manifest, installed).value[0].repositoryAlias]
                             + how + policy + ["--"] + PackageArguments(PendingOn(manifest, installed).value))
  {
    hide PendingOn, PackageArguments;
  }

  // Only planning is a dry run, only downloading stops there, and a downgrade is never
  // allowed.
  lemma ModesAre(manifest: Manifest, installed: seq<Installed>, mode: TransactionMode)
    requires manifest.migration == None
    ensures var args := Arguments(manifest, installed, mode);
            && args.Ok? && args.value[0] == "dist-upgrade"
            && ("--dry-run" in args.value <==> mode == Plan)
            && ("--download-only" in args.value <==> mode == Download)
            && "--no-allow-downgrade" in args.value && "--no-allow-name-change" in args.value && "--no-allow-arch-change" in args.value
  {
    var args := Arguments(manifest, installed, mode).value;
    var n := |args|;
    assert args[n - 4] == "--no-allow-downgrade" && args[n - 3] == "--no-allow-name-change" && args[n - 2] == "--no-allow-arch-change";
    assert mode == Plan ==> args[1] == "--dry-run";
    assert mode == Download ==> args[1] == "--download-only";
    assert forall word :: word in args ==> word in ["dist-upgrade"] || word in ModeArguments(mode) || word in PolicyArguments;
  }

  // ------------------------------------------------------------------------ the result

  // Allowed in the end are the packages that were installed and not removed, and those
  // that some change proposes.
  lemma {:induction false} AllowedInTheEnd(installed: seq<Installed>, changes: seq<Change>, x: Installed)
    requires DistinctChanges(changes) && ExpectAll(installed, changes).Ok?
    ensures x in ExpectAll(installed, changes).value.allowed <==>
            || (exists c :: c in changes && Proposes(c, x))
            || (x in installed && forall c :: c in changes && Replaces(c, x) ==> c.action != Remove)
  {
    if changes != [] {
      var front, last := changes[..|changes| - 1], changes[|changes| - 1];
      assert changes == front + [last];
      AllowedInTheEnd(installed, front, x);
      assert forall c :: c in changes <==> c in front || c == last;
      var before := ExpectAll(installed, front).value.allowed;
      assert x in ExpectAll(installed, changes).value.allowed
             <==> Proposes(last, x) || (x in before && !(Replaces(last, x) && last.action.Remove?));
      if Replaces(last, x) && last.action.Remove? {
        forall c | c in front
          ensures !Proposes(c, x)
        {
          var k :| 0 <= k < |front| && front[k] == c;
          assert changes[k].name != changes[|changes| - 1].name;
        }
        assert !Proposes(last, x) ==> !exists c :: c in changes && Proposes(c, x);
      }
    }
  }

  // A change that the check can follow: it names its vendors, and what it replaces was
  // installed.
  predicate Followable(c: Change, installed: seq<Installed>) {
    && (c.currentVersion.Some? ==>
          c.currentVendor.Some? && Installed(c.name, c.currentVersion.value, c.architecture, c.currentVendor.value) in installed)
    && (c.proposedVersion.Some? ==> c.proposedVendor.Some?)
  }

  // Why a change cannot be followed: a vendor is missing, or what it replaces is unknown.
  predicate Objection(error: ResultError, c: Change, installed: seq<Installed>) {
    match error
    case MissingVendor => (c.currentVersion.Some? && c.currentVendor.None?) || (c.proposedVersion.Some? && c.proposedVendor.None?)
    case UnknownPrevious =>
      c.currentVersion.Some? && c.currentVendor.Some?
      && Installed(c.name, c.currentVersion.value, c.architecture, c.currentVendor.value) !in installed
    case _ => false
  }

  // The changes can be followed one after another exactly if each can by itself.
  lemma {:induction false} ExpectationIs(installed: seq<Installed>, changes: seq<Change>)
    requires DistinctChanges(changes)
    ensures ExpectAll(installed, changes).Ok? <==> forall c :: c in changes ==> Followable(c, installed)
    ensures ExpectAll(installed, changes).Err? ==>
              exists c :: c in changes && Objection(ExpectAll(installed, changes).error, c, installed)
  {
    hide Followable, Objection;
    if changes != [] {
      var front, last := changes[..|changes| - 1], changes[|changes| - 1];
      assert changes == front + [last];
      ExpectationIs(installed, front);
      assert forall c :: c in changes <==> c in front || c == last;
      if ExpectAll(installed, front).Ok? {
        LastIsFollowed(installed, front, last);
      }
    }
  }

  lemma LastIsFollowed(installed: seq<Installed>, front: seq<Change>, last: Change)
    requires DistinctChanges(front + [last]) && ExpectAll(installed, front).Ok?
    ensures Expect(ExpectAll(installed, front).value, last).Ok? <==> Followable(last, installed)
    ensures var next := Expect(ExpectAll(installed, front).value, last);
            next.Err? ==> Objection(next.error, last, installed)
  {
    hide ExpectAll;
    if last.currentVersion.Some? && last.currentVendor.Some? {
      var x := Previous(last);
      assert DistinctChanges(front) by {
        assert forall i :: 0 <= i < |front| ==> (front + [last])[i] == front[i];
      }
      RequiredInTheEnd(installed, front, x);
      forall c | c in front
        ensures c.name != last.name
      {
        var k :| 0 <= k < |front| && front[k] == c;
        assert (front + [last])[k].name != (front + [last])[|front|].name;
      }
    }
  }

  // A result is accepted for distinct changes exactly if they can be followed, every
  // package that was installed and that no change replaces, and every one proposed, is
  // installed, and nothing is but what was installed and not removed, or proposed; after a
  // migration nothing that was replaced either.
  lemma ResultIs(plan: Confirmed, report: seq<Installed>)
    requires DistinctChanges(plan.changes)
    ensures ResultOf(plan, report) == Err(MissingInventory) <==> plan.schemaVersion != 3 || plan.installed == []
    ensures ResultOf(plan, report) == Ok(()) <==>
            && plan.schemaVersion == 3 && plan.installed != []
            && (forall c :: c in plan.changes ==> Followable(c, plan.installed))
            && (forall x :: (|| (exists c :: c in plan.changes && Proposes(c, x))
                             || (x in plan.installed && forall c :: c in plan.changes ==> !Replaces(c, x))) ==> x in report)
            && (forall x :: x in report ==>
                  || (exists c :: c in plan.changes && Proposes(c, x))
                  || (x in plan.installed
                      && forall c :: c in plan.changes && Replaces(c, x) ==> c.action != Remove && plan.operation != PackageMigration))
    ensures ResultOf(plan, report) == Err(Differs) ==> forall c :: c in plan.changes ==> Followable(c, plan.installed)
  {
    hide ExpectAll, Proposes, Replaces, Followable;
    ExpectationIs(plan.installed, plan.changes);
    if ExpectAll(plan.installed, plan.changes).Ok? {
      MeetsIs(plan, report);
    }
  }

  lemma MeetsIs(plan: Confirmed, report: seq<Installed>)
    requires DistinctChanges(plan.changes) && ExpectAll(plan.installed, plan.changes).Ok?
    ensures Meets(plan.operation, Elements(report), ExpectAll(plan.installed, plan.changes).value) <==>
            && (forall x :: (|| (exists c :: c in plan.changes && Proposes(c, x))
                             || (x in plan.installed && forall c :: c in plan.changes ==> !Replaces(c, x))) ==> x in report)
            && (forall x :: x in report ==>
                  || (exists c :: c in plan.changes && Proposes(c, x))
                  || (x in plan.installed
                      && forall c :: c in plan.changes && Replaces(c, x) ==> c.action != Remove && plan.operation != PackageMigration))
  {
    hide ExpectAll, Proposes, Replaces;
    var e := ExpectAll(plan.installed, plan.changes).value;
    forall x
      ensures x in e.required <==>
              (exists c :: c in plan.changes && Proposes(c, x)) || (x in plan.installed && forall c :: c in plan.changes ==> !Replaces(c, x))
      ensures x in e.allowed <==>
              || (exists c :: c in plan.changes && Proposes(c, x))
              || (x in plan.installed && forall c :: c in plan.changes && Replaces(c, x) ==> c.action != Remove)
    {
      RequiredInTheEnd(plan.installed, plan.changes, x);
      AllowedInTheEnd(plan.installed, plan.changes, x);
    }
    assert forall x :: x in Elements(report) <==> x in report;
  }
}
