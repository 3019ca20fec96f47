/** What a report of the solver says, name by name, and what comes of it: the changes it
    lists, the amounts it announces, and that a downgrade never passes. */
module SolverDocument {
  import opened Wrappers
  import opened Decimal
  import opened Packages
  import opened PackageOrder
  import opened Orders
  import opened Issues
  import opened VendorPolicy
  import opened Preflight
  import opened Xml
  import opened SolverSummary
  import Utf8 = Text

  // The sections of the summary and the action each stands for.
  const Sections: map<string, Action> :=
    map["to-install" := Install, "to-remove" := Remove,
        "to-upgrade" := Upgrade, "to-upgrade-change-arch" := Upgrade,
        "to-downgrade" := Downgrade, "to-downgrade-change-arch" := Downgrade,
        "to-reinstall" := Reinstall, "to-change-arch" := Reinstall, "to-change-vendor" := Reinstall]

  lemma SectionsAre(section: string)
    ensures SectionAction(section) == if section in Sections then Some(Sections[section]) else None
  {}

  // The same, name by name.
  lemma SectionNames(section: string)
    ensures SectionAction(section) == Some(Install) <==> section == "to-install"
    ensures SectionAction(section) == Some(Remove) <==> section == "to-remove"
    ensures SectionAction(section) == Some(Upgrade) <==> section == "to-upgrade" || section == "to-upgrade-change-arch"
    ensures SectionAction(section) == Some(Downgrade) <==> section == "to-downgrade" || section == "to-downgrade-change-arch"
    ensures SectionAction(section) == Some(Reinstall) <==>
              section == "to-reinstall" || section == "to-change-arch" || section == "to-change-vendor"
  {}

  // ------------------------------------------------------------- one package solvable

  // The attributes that describe a package in a section: a name, one architecture, an
  // edition, and the edition before unless the package is installed or removed.
  predicate Described(a: map<string, string>, action: Action) {
    && "type" in a && a["type"] == "package"
    && "name" in a && a["name"] != "" && "arch" in a && a["arch"] != "" && "edition" in a && a["edition"] != ""
    && ("arch-old" in a ==> a["arch-old"] == a["arch"])
    && (action == Install || action == Remove || "edition-old" in a)
  }

  // The change that such a solvable stands for.
  function ChangeOf(a: map<string, string>, action: Action): Change
    requires Described(a, action)
  {
    Change(a["name"], a["arch"], action,
           if action == Install then None else if action == Remove then Some(a["edition"]) else Some(a["edition-old"]),
           if action == Remove then None else Some(a["edition"]),
           None, None,
           if action == Remove || "repository" !in a then None else Some(a["repository"]),
           0, 0, 0)
  }

  // The tag stands in a section of a summary and describes the change.
  predicate Yields(tag: Tag, path: seq<string>, c: Change) {
    && tag.name == "solvable" && |path| == 3 && path[1] == "install-summary" && path[2] in Sections
    && tag.attributes.Some? && Described(tag.attributes.value, Sections[path[2]])
    && c == ChangeOf(tag.attributes.value, Sections[path[2]])
  }

  // A solvable in a section is unacceptable unless it describes a package or is of one of
  // the kinds that are passed over.
  predicate Unacceptable(tag: Tag, path: seq<string>) {
    && tag.name == "solvable" && |path| == 3 && path[1] == "install-summary" && path[2] in Sections
    && (tag.attributes.Some? ==>
          var a := tag.attributes.value;
          && !Described(a, Sections[path[2]])
          && !("type" in a && a["type"] in ["pattern", "product", "patch", "application"]))
  }

  lemma ParsesDescribed(tag: Tag, action: Action)
    ensures tag.attributes.Some? && Described(tag.attributes.value, action) ==>
              ParseSolvable(tag, action) == Found(ChangeOf(tag.attributes.value, action))
    ensures ParseSolvable(tag, action).Found? ==> tag.attributes.Some? && Described(tag.attributes.value, action)
    ensures ParseSolvable(tag, action).Skipped? <==>
              && tag.attributes.Some? && "type" in tag.attributes.value
              && tag.attributes.value["type"] in ["pattern", "product", "patch", "application"]
  {}

  lemma SolvableYields(tag: Tag, path: seq<string>)
    ensures forall c :: SolvableAt(tag, path) == Found(c) <==> Yields(tag, path, c)
    ensures SolvableAt(tag, path).Broken? <==> Unacceptable(tag, path)
  {
    hide ParseSolvable, SectionAction, ChangeOf, Described;
    if |path| == 3 {
      SectionsAre(path[2]);
      if path[2] in Sections {
        ParsesDescribed(tag, Sections[path[2]]);
        if tag.attributes.Some? {
          SkippedIsNotDescribed(tag.attributes.value, Sections[path[2]]);
        }
      }
    }
  }

  lemma SkippedIsNotDescribed(a: map<string, string>, action: Action)
    ensures "type" in a && a["type"] in ["pattern", "product", "patch", "application"] ==> !Described(a, action)
  {}

  // ----------------------------------------------------------------- the whole document

  ghost predicate Holds(tags: seq<Placed>, c: Change) {
    exists p :: p in tags && Yields(p.tag, p.path, c)
  }

  lemma HoldsBoth(a: seq<Placed>, b: seq<Placed>, c: Change)
    ensures Holds(a + b, c) <==> Holds(a, c) || Holds(b, c)
  {
    hide Yields;
    if p :| p in a && Yields(p.tag, p.path, c) {
      assert p in a + b;
    }
    if p :| p in b && Yields(p.tag, p.path, c) {
      assert p in a + b;
    }
  }

  lemma HoldsOne(tag: Tag, path: seq<string>, open: bool, c: Change)
    ensures Holds([Placed(tag, path, open)], c) <==> c in EntryOf(tag, path)
  {
    hide Yields;
    SolvableYields(tag, path);
    var tags := [Placed(tag, path, open)];
    assert forall p :: p in tags <==> p == tags[0];
  }

  lemma {:induction false} EntriesAre(forest: seq<Node>, path: seq<string>, c: Change)
    ensures c in AllEntriesOf(forest, path) <==> Holds(AllTagsOf(forest, path), c)
    decreases forest
  {
    hide Entries, TagsOf, Holds;
    if forest == [] {
      NothingHolds(c);
    } else {
      NodeEntries(forest[0], path, c);
      EntriesAre(forest[1..], path, c);
      HoldsBoth(TagsOf(forest[0], path), AllTagsOf(forest[1..], path), c);
    }
  }

  lemma NothingHolds(c: Change)
    ensures !Holds([], c)
  {}

  lemma {:induction false} NodeEntries(node: Node, path: seq<string>, c: Change)
    ensures c in Entries(node, path) <==> Holds(TagsOf(node, path), c)
    decreases node
  {
    hide AllEntriesOf, AllTagsOf, Holds, EntryOf;
    match node
    case Element(tag, children) =>
      EntriesAre(children, path + [tag.name], c);
      HoldsOne(tag, path, true, c);
      HoldsBoth([Placed(tag, path, true)], AllTagsOf(children, path + [tag.name]), c);
    case Brief(tag) => HoldsOne(tag, path, false, c);
    case Leaf(_) => NothingHolds(c);
  }

  // The list of an accepted report, change by change: what its solvables describe, a
  // reinstall only where no other action is described for the same package.
  lemma ListHoldsExactly(forest: seq<Node>, merged: Merged, changes: seq<Change>, c: Change)
    requires AcceptableDocument(forest, merged) && IsListing(changes, merged)
    ensures c in changes <==>
              && Holds(AllTagsOf(forest, []), c)
              && (c.action == Reinstall ==>
                    forall d :: Holds(AllTagsOf(forest, []), d) && KeyOf(d) == KeyOf(c) ==> d.action == Reinstall)
  {
    hide AllTagsOf, Holds, AllEntriesOf, SoundForest, AllSummaryTags, Proper, ParseSummary, Conflict, KeepsVersions, Ascending;
    var entries := AllEntriesOf(forest, []);
    forall d
      ensures d in entries <==> Holds(AllTagsOf(forest, []), d)
    {
      EntriesAre(forest, [], d);
    }
    EntriesAreSound(forest, merged);
    var key := KeyOf(c);
    if c in changes && !c.action.Reinstall? {
      var d :| d in entries && KeyOf(d) == key && d.action == c.action;
      assert IsEntry(d);
    }
    if c in changes && c.action.Reinstall? {
      var d :| d in entries && KeyOf(d) == key;
      assert IsEntry(d) && d.action.Reinstall?;
    }
    if c in entries && (c.action.Reinstall? ==> forall d :: d in entries && KeyOf(d) == key ==> d.action.Reinstall?) {
      assert Listed(entries, key) && ComesTo(entries, key, c.action);
      SameAction(entries, key, c.action, merged[key].action);
    }
  }

  lemma EntriesAreSound(forest: seq<Node>, merged: Merged)
    requires AcceptableDocument(forest, merged)
    ensures AllEntries(AllEntriesOf(forest, []))
  {
    hide AllEntriesOf, SoundForest, AllSummaryTags, ParseSummary, AllEntries, IsMerge, Conflicting, KeepsVersions, SerialiseAll, Run;
    DocumentRuns(forest);
  }

  // --------------------------------------------------------------------- soundness

  // A tag may stand where it does: a summary directly in the stream and with its numbers,
  // no unacceptable solvable, no message whose attributes are malformed; none with an end
  // tag below 32 others.
  predicate MayStand(p: Placed) {
    && (p.tag.name == "install-summary" ==> p.path == ["stream"] && ParseSummary(p.tag).Some?)
    && !Unacceptable(p.tag, p.path)
    && (p.tag.name == "message" ==> p.tag.attributes.Some?)
    && (p.open ==> |p.path| < 32)
  }

  ghost predicate AllStand(tags: seq<Placed>, leaves: seq<PlacedLeaf>) {
    && (forall p :: p in tags ==> MayStand(p))
    && (forall leaf :: leaf in leaves ==> leaf.event != DocType && leaf.event != Malformed)
  }

  lemma StandBoth(a: seq<Placed>, b: seq<Placed>, leaves: seq<PlacedLeaf>, leaves': seq<PlacedLeaf>)
    ensures AllStand(a + b, leaves + leaves') <==> AllStand(a, leaves) && AllStand(b, leaves')
  {
    hide MayStand;
    assert forall p :: p in a + b <==> p in a || p in b;
    assert forall leaf :: leaf in leaves + leaves' <==> leaf in leaves || leaf in leaves';
  }

  lemma OneStands(tag: Tag, path: seq<string>, open: bool)
    ensures AllStand([Placed(tag, path, open)], []) <==> SoundTag(tag, path) && (open ==> |path| < 32)
  {
    hide ParseSummary, SolvableAt, Unacceptable;
    SolvableYields(tag, path);
    var p := Placed(tag, path, open);
    assert p in [p] && forall q :: q in [p] ==> q == p;
    assert MayStand(p) <==> SoundTag(tag, path) && (open ==> |path| < 32);
  }

  // A document is sound exactly if each of its tags may stand where it does, and it has no
  // document type and no text that cannot be read.
  lemma {:induction false} SoundIs(forest: seq<Node>, path: seq<string>)
    ensures SoundForest(forest, path) <==> AllStand(AllTagsOf(forest, path), AllLeavesOf(forest, path))
    decreases forest
  {
    hide SoundNode, TagsOf, LeavesOf, MayStand;
    if forest != [] {
      SoundCons(forest, path);
      NodeSoundIs(forest[0], path);
      SoundIs(forest[1..], path);
      StandBoth(TagsOf(forest[0], path), AllTagsOf(forest[1..], path), LeavesOf(forest[0], path), AllLeavesOf(forest[1..], path));
    }
  }

  lemma {:induction false} NodeSoundIs(node: Node, path: seq<string>)
    ensures SoundNode(node, path) <==> AllStand(TagsOf(node, path), LeavesOf(node, path))
    decreases node
  {
    hide AllTagsOf, AllLeavesOf, SoundForest, SoundTag, AllStand, MayStand;
    match node
    case Element(tag, children) =>
      var inner := path + [tag.name];
      SoundIs(children, inner);
      OneStands(tag, path, true);
      StandBoth([Placed(tag, path, true)], AllTagsOf(children, inner), [], AllLeavesOf(children, inner));
      assert [] + AllLeavesOf(children, inner) == AllLeavesOf(children, inner);
    case Brief(tag) => OneStands(tag, path, false);
    case Leaf(e) => LeafStands(e, path);
  }

  lemma LeafStands(e: Event, path: seq<string>)
    ensures AllStand([], [PlacedLeaf(e, path)]) <==> e != DocType && e != Malformed
  {
    assert forall leaf :: leaf in [PlacedLeaf(e, path)] <==> leaf == PlacedLeaf(e, path);
  }

  // Its summaries are its tags of that name.
  lemma {:induction false} SummariesAre(forest: seq<Node>, path: seq<string>)
    ensures var named := TagsNamed(AllTagsOf(forest, path), "install-summary");
            |AllSummaryTags(forest)| == |named| && forall i :: 0 <= i < |named| ==> AllSummaryTags(forest)[i] == named[i].tag
    decreases forest
  {
    hide SummaryTags, TagsOf, TagsNamed;
    if forest == [] {
      NothingNamed("install-summary");
    } else {
      NodeSummariesAre(forest[0], path);
      SummariesAre(forest[1..], path);
      TagsNamedBoth(TagsOf(forest[0], path), AllTagsOf(forest[1..], path), "install-summary");
    }
  }

  lemma NothingNamed(name: string)
    ensures TagsNamed([], name) == []
  {}

  lemma {:induction false} NodeSummariesAre(node: Node, path: seq<string>)
    ensures var named := TagsNamed(TagsOf(node, path), "install-summary");
            |SummaryTags(node)| == |named| && forall i :: 0 <= i < |named| ==> SummaryTags(node)[i] == named[i].tag
    decreases node
  {
    hide AllSummaryTags, AllTagsOf, TagsNamed;
    match node
    case Element(tag, children) =>
      var inner := path + [tag.name];
      SummariesAre(children, inner);
      TagsNamedOne(Placed(tag, path, true), "install-summary");
      TagsNamedBoth([Placed(tag, path, true)], AllTagsOf(children, inner), "install-summary");
    case Brief(tag) => TagsNamedOne(Placed(tag, path, false), "install-summary");
    case Leaf(_) => NothingNamed("install-summary");
  }

  // ---------------------------------------------------------------------- the problems

  predicate IsError(tag: Tag) {
    tag.name == "message" && tag.attributes.Some? && "type" in tag.attributes.value && tag.attributes.value["type"] == "error"
  }

  ghost predicate HoldsError(tags: seq<Placed>) {
    exists p :: p in tags && IsError(p.tag)
  }

  lemma ErrorBoth(a: seq<Placed>, b: seq<Placed>)
    ensures HoldsError(a + b) <==> HoldsError(a) || HoldsError(b)
  {
    if p :| p in a && IsError(p.tag) {
      assert p in a + b;
    }
    if p :| p in b && IsError(p.tag) {
      assert p in a + b;
    }
  }

  lemma ErrorOne(p: Placed)
    ensures HoldsError([p]) <==> IsError(p.tag)
  {
    assert p in [p];
  }

  // A document has problems exactly if it holds a message of an error, and then this is
  // the first of them to be said of it.
  lemma {:induction false} ProblemsAre(forest: seq<Node>, path: seq<string>)
    ensures HoldsError(AllTagsOf(forest, path)) ==> forall inError :: "zypper reported an error" in AllProblems(forest, inError)
    ensures !HoldsError(AllTagsOf(forest, path)) ==> AllProblems(forest, false) == [] && !AllRaisedAfter(forest, false)
    decreases forest
  {
    hide Problems, RaisedAfter, TagsOf, HoldsError;
    if forest == [] {
      NoError();
    } else {
      NodeProblemsAre(forest[0], path);
      ProblemsAre(forest[1..], path);
      ErrorBoth(TagsOf(forest[0], path), AllTagsOf(forest[1..], path));
    }
  }

  lemma NoError()
    ensures !HoldsError([])
  {}

  lemma {:induction false} NodeProblemsAre(node: Node, path: seq<string>)
    ensures HoldsError(TagsOf(node, path)) ==> forall inError :: "zypper reported an error" in Problems(node, inError)
    ensures !HoldsError(TagsOf(node, path)) ==> Problems(node, false) == [] && !RaisedAfter(node, false)
    decreases node
  {
    hide AllProblems, AllRaisedAfter, AllTagsOf, HoldsError;
    match node
    case Element(tag, children) =>
      ProblemsAre(children, path + [tag.name]);
      ErrorOne(Placed(tag, path, true));
      ErrorBoth([Placed(tag, path, true)], AllTagsOf(children, path + [tag.name]));
    case Brief(tag) => ErrorOne(Placed(tag, path, false));
    case Leaf(_) => NoError();
  }

  // The text of an error message is a problem, without the white space around it.
  lemma MessageIsReported(tag: Tag, text: string, inError: bool)
    requires IsError(tag)
    ensures Problems(Element(tag, [Leaf(Event.Text(text))]), inError)
            == ["zypper reported an error"] + if Trim(text) == "" then [] else [Trim(text)]
  {
    hide Trim;
    var leaf := [Leaf(Event.Text(text))];
    assert AllProblems(leaf, true) == Problems(leaf[0], true) + AllProblems(leaf[1..], true);
    assert AllProblems([], true) == [];
  }

  predicate Blank(s: string) {
    forall k :: 0 <= k < |s| ==> Utf8.IsWhitespace(s[k])
  }

  lemma {:induction false} TrimIs(s: string) returns (front: string, back: string)
    ensures s == front + Trim(s) + back && Blank(front) && Blank(back)
    ensures var t := Trim(s);
            t != "" ==> !Utf8.IsWhitespace(t[0]) && !Utf8.IsWhitespace(t[|t| - 1])
  {
    hide Utf8.IsWhitespace;
    front := TrimStartIs(s);
    var middle := TrimStart(s);
    back := TrimEndIs(middle);
    assert front + (Trim(s) + back) == front + Trim(s) + back;
  }

  lemma {:induction false} TrimStartIs(s: string) returns (front: string)
    ensures s == front + TrimStart(s) && Blank(front)
    ensures TrimStart(s) != "" ==> !Utf8.IsWhitespace(TrimStart(s)[0])
  {
    hide Utf8.IsWhitespace;
    if s != "" && Utf8.IsWhitespace(s[0]) {
      var rest := TrimStartIs(s[1..]);
      front := [s[0]] + rest;
      assert s == [s[0]] + s[1..];
    } else {
      front := "";
    }
  }

  lemma {:induction false} TrimEndIs(s: string) returns (back: string)
    ensures s == TrimEnd(s) + back && Blank(back)
    ensures TrimEnd(s) != "" ==> !Utf8.IsWhitespace(TrimEnd(s)[|TrimEnd(s)| - 1]) && TrimEnd(s)[0] == s[0]
  {
    hide Utf8.IsWhitespace;
    if s != "" && Utf8.IsWhitespace(s[|s| - 1]) {
      var rest := TrimEndIs(s[..|s| - 1]);
      back := rest + [s[|s| - 1]];
      assert s == s[..|s| - 1] + [s[|s| - 1]];
    } else {
      back := "";
    }
  }

  // ------------------------------------------------------------------ the announcement

  function SignedText(n: int): string {
    if n < 0 then "-" + ToDecimal(-n) else ToDecimal(n)
  }

  lemma SignedIsRead(n: int)
    requires -0x8000_0000_0000_0000 <= n < 0x8000_0000_0000_0000
    ensures ParseI64(SignedText(n)) == Some(n)
  {
    hide DigitsValue;
    if n < 0 {
      DecimalDigits(-n);
      assert SignedText(n)[1..] == ToDecimal(-n);
    } else {
      DecimalDigits(n);
    }
  }

  // What a summary announces, attribute by attribute.
  lemma SummaryIsRead(tag: Tag, packages: u64, download: u64, installed: u64, removed: u64, difference: int, reboot: string)
    requires -0x8000_0000_0000_0000 <= difference < 0x8000_0000_0000_0000 && tag.attributes.Some?
    requires var a := tag.attributes.value;
             && "packages-to-change" in a && a["packages-to-change"] == ToDecimal(packages)
             && "download-size" in a && a["download-size"] == ToDecimal(download)
             && "space-usage-installed" in a && a["space-usage-installed"] == ToDecimal(installed)
             && "space-usage-removed" in a && a["space-usage-removed"] == ToDecimal(removed)
             && "space-usage-diff" in a && a["space-usage-diff"] == SignedText(difference)
             && "need-reboot" in a && a["need-reboot"] == reboot
    ensures ParseSummary(tag) == Some(Summary(packages, download, difference, SaturatingAdd(installed, removed),
                                              reboot == "true" || reboot == "1"))
  {
    hide ToDecimal, ParseU64, ParseI64, SignedText;
    ParseOfDecimal(packages);
    ParseOfDecimal(download);
    ParseOfDecimal(installed);
    ParseOfDecimal(removed);
    SignedIsRead(difference);
  }

  // A summary without one of its five numbers is refused.
  lemma SummaryIsComplete(tag: Tag)
    requires ParseSummary(tag).Some?
    ensures tag.attributes.Some?
    ensures var a := tag.attributes.value;
            && "packages-to-change" in a && "download-size" in a && "space-usage-diff" in a
            && "space-usage-installed" in a && "space-usage-removed" in a
  {
    hide ParseU64, ParseI64;
  }

  // --------------------------------------------------------------------- what comes of it

  // The actions and names of a list, which adding the vendors keeps.
  predicate SameActions(a: seq<Change>, b: seq<Change>) {
    |a| == |b| && forall i :: 0 <= i < |a| ==> a[i].action == b[i].action && a[i].name == b[i].name
  }

  // A document with a package solvable in a section of downgrades: if it is accepted, a
  // downgrade of that package is on its list, and no preflight of it passes, whatever the
  // host, the vendors and the policy.
  lemma DowngradeNeverPasses(forest: seq<Node>, merged: Merged, changes: seq<Change>, p: Placed, c: Change,
                             facts: HostFacts, policy: PreflightPolicy, solver: SolverResult, rules: SolverPolicy)
    requires AcceptableDocument(forest, merged) && IsListing(changes, merged) && SameActions(solver.changes, changes)
    requires p in AllTagsOf(forest, []) && Yields(p.tag, p.path, c)
    requires p.path[2] == "to-downgrade" || p.path[2] == "to-downgrade-change-arch"
    ensures c in changes && c.action == Downgrade
    ensures UnauthorizedDowngrade(c.name) in SolverReport(facts, policy, solver, rules).blockers
  {
    hide AllTagsOf, AcceptableDocument, IsListing, SolverReport, Described;
    ListHoldsExactly(forest, merged, changes, c);
    var i :| 0 <= i < |changes| && changes[i] == c;
    assert solver.changes[i] in solver.changes;
    DowngradeIsReported(facts, policy, solver, rules, solver.changes[i]);
  }

  lemma DowngradeIsReported(facts: HostFacts, policy: PreflightPolicy, solver: SolverResult, rules: SolverPolicy, c: Change)
    requires c in solver.changes && c.action == Downgrade
    ensures UnauthorizedDowngrade(c.name) in SolverReport(facts, policy, solver, rules).blockers
  {
    hide Canonical, HostReport, ChangeBlockers, VendorBlockers, LockstepBlockers;
    ChangeBlockersAre(solver.changes, rules, UnauthorizedDowngrade(c.name));
    var all := HostReport(Enriched(facts, solver), policy).blockers + SolverBlockers(solver, rules);
    CanonicalIssues(all, all);
    assert UnauthorizedDowngrade(c.name) in SolverBlockers(solver, rules);
  }
}
