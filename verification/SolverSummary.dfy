/** Reading the package manager's solver summary: the event loop that collects package
    entries from the sections of the summary, and the merging of repeated entries. */
module SolverSummary {
  import opened Wrappers
  import opened Decimal
  import opened Packages
  import opened PackageOrder
  import opened Orders
  import opened Preflight
  import opened Xml
  import Utf8 = Text

  const SUMMARY := "install-summary"
  const MAX_DEPTH := 32

  // `section_action`
  function SectionAction(section: string): Option<Action> {
    if section == "to-install" then Some(Install)
    else if section == "to-remove" then Some(Remove)
    else if section == "to-upgrade" || section == "to-upgrade-change-arch" then Some(Upgrade)
    else if section == "to-downgrade" || section == "to-downgrade-change-arch" then Some(Downgrade)
    else if section == "to-reinstall" || section == "to-change-arch" || section == "to-change-vendor" then Some(Reinstall)
    else None
  }

  // ------------------------------------------------------------------ merging entries

  // What tells two entries apart.
  datatype Key = Key(name: string, architecture: string, current: Option<string>, proposed: Option<string>, repository: Option<string>)

  function KeyOf(c: Change): Key {
    Key(c.name, c.architecture, c.currentVersion, c.proposedVersion, c.repositoryAlias)
  }

  // An entry as it is read: nothing but its key and its action.
  function Entry(key: Key, action: Action): Change {
    Change(key.name, key.architecture, action, key.current, key.proposed, None, None, key.repository, 0, 0, 0)
  }

  predicate IsEntry(c: Change) {
    c == Entry(KeyOf(c), c.action)
  }

  type Merged = map<Key, Change>

  // One more entry: a reinstall yields to any other action, and two others conflict.
  function Merge(merged: Merged, c: Change): Option<Merged> {
    var key := KeyOf(c);
    if key !in merged then Some(merged[key := c])
    else if merged[key].action == c.action || c.action.Reinstall? then Some(merged)
    else if merged[key].action.Reinstall? then Some(merged[key := merged[key].(action := c.action)])
    else None
  }

  function MergeAll(merged: Merged, entries: seq<Change>): Option<Merged>
    decreases |entries|
  {
    if entries == [] then Some(merged)
    else
      var next := Merge(merged, entries[0]);
      if next.None? then None else MergeAll(next.value, entries[1..])
  }

  // Two entries of one key that ask for different things, neither a reinstall.
  predicate Conflict(a: Change, b: Change) {
    KeyOf(a) == KeyOf(b) && a.action != b.action && !a.action.Reinstall? && !b.action.Reinstall?
  }

  predicate Conflicting(entries: seq<Change>) {
    exists a, b :: a in entries && b in entries && Conflict(a, b)
  }

  // The action that a key comes to: its one action that is not a reinstall, or else a
  // reinstall.
  predicate ComesTo(entries: seq<Change>, key: Key, action: Action) {
    if action.Reinstall? then forall c :: c in entries && KeyOf(c) == key ==> c.action.Reinstall?
    else exists c :: c in entries && KeyOf(c) == key && c.action == action
  }

  predicate Listed(entries: seq<Change>, key: Key) {
    exists c :: c in entries && KeyOf(c) == key
  }

  // The merge of entries without a conflict: each key once, with what it comes to.
  ghost predicate IsMerge(merged: Merged, entries: seq<Change>) {
    && (forall key :: key in merged <==> Listed(entries, key))
    && (forall key :: key in merged ==>
          merged[key] == Entry(key, merged[key].action) && ComesTo(entries, key, merged[key].action))
  }

  predicate AllEntries(entries: seq<Change>) {
    forall c :: c in entries ==> IsEntry(c)
  }

  lemma MergeConflicts(merged: Merged, before: seq<Change>, c: Change)
    requires IsMerge(merged, before) && !Conflicting(before) && IsEntry(c)
    ensures Merge(merged, c).None? <==> Conflicting(before + [c])
  {
    hide IsEntry;
    var key := KeyOf(c);
    assert forall d :: d in before + [c] <==> d in before || d == c;
    if key in merged && !merged[key].action.Reinstall? {
      var d :| d in before && KeyOf(d) == key && d.action == merged[key].action;
      assert Conflict(d, c) <==> c.action != d.action && !c.action.Reinstall?;
    }
  }

  lemma MergeGoesOn(merged: Merged, before: seq<Change>, c: Change)
    requires IsMerge(merged, before) && IsEntry(c) && Merge(merged, c).Some?
    ensures IsMerge(Merge(merged, c).value, before + [c])
  {
    assert forall d :: d in before + [c] <==> d in before || d == c;
    assert c in before + [c];
  }

  lemma MergeStep(merged: Merged, before: seq<Change>, c: Change)
    requires IsMerge(merged, before) && !Conflicting(before) && IsEntry(c)
    ensures Merge(merged, c).None? <==> Conflicting(before + [c])
    ensures Merge(merged, c).Some? ==> IsMerge(Merge(merged, c).value, before + [c])
  {
    hide IsMerge, Merge, IsEntry, Conflicting;
    MergeConflicts(merged, before, c);
    if Merge(merged, c).Some? {
      MergeGoesOn(merged, before, c);
    }
  }

  lemma {:induction false} MergeAllExactly(merged: Merged, before: seq<Change>, entries: seq<Change>)
    requires IsMerge(merged, before) && !Conflicting(before) && AllEntries(before + entries)
    ensures MergeAll(merged, entries).None? <==> Conflicting(before + entries)
    ensures MergeAll(merged, entries).Some? ==> IsMerge(MergeAll(merged, entries).value, before + entries)
    decreases |entries|
  {
    hide IsMerge, Merge, IsEntry;
    if entries == [] {
      assert before + [] == before;
    } else {
      var c := entries[0];
      assert before + entries == before + [c] + entries[1..];
      assert c in before + entries;
      MergeStep(merged, before, c);
      if Merge(merged, c).Some? {
        MergeAllExactly(Merge(merged, c).value, before + [c], entries[1..]);
      } else {
        MoreConflicting(before + [c], entries[1..]);
      }
    }
  }

  lemma MoreConflicting(a: seq<Change>, b: seq<Change>)
    requires Conflicting(a)
    ensures Conflicting(a + b)
  {
    var c, d :| c in a && d in a && Conflict(c, d);
    assert c in a + b && d in a + b;
  }

  lemma MergeOfEntries(entries: seq<Change>)
    requires AllEntries(entries)
    ensures MergeAll(map[], entries).None? <==> Conflicting(entries)
    ensures MergeAll(map[], entries).Some? ==> IsMerge(MergeAll(map[], entries).value, entries)
  {
    assert [] + entries == entries;
    MergeAllExactly(map[], [], entries);
  }

  lemma MergeIsUnique(a: Merged, b: Merged, entries: seq<Change>)
    requires IsMerge(a, entries) && IsMerge(b, entries) && !Conflicting(entries)
    ensures a == b
  {
    forall key | key in a
      ensures a[key] == b[key]
    {
      var x, y := a[key].action, b[key].action;
      if x != y {
        SameAction(entries, key, x, y);
      }
    }
    assert a.Keys == b.Keys;
  }

  lemma SameAction(entries: seq<Change>, key: Key, x: Action, y: Action)
    requires Listed(entries, key) && ComesTo(entries, key, x) && ComesTo(entries, key, y) && !Conflicting(entries)
    ensures x == y
  {
    if !x.Reinstall? && !y.Reinstall? {
      var c :| c in entries && KeyOf(c) == key && c.action == x;
      var d :| d in entries && KeyOf(d) == key && d.action == y;
      assert !Conflict(c, d);
    }
  }

  // Merging forgets the order of the entries, and how often each is repeated.
  lemma MergeIgnoresOrder(a: seq<Change>, b: seq<Change>)
    requires AllEntries(a) && forall c :: c in a <==> c in b
    ensures MergeAll(map[], a) == MergeAll(map[], b)
  {
    hide IsEntry, Conflict, MergeAll;
    MergeOfEntries(a);
    MergeOfEntries(b);
    assert Conflicting(a) <==> Conflicting(b);
    if !Conflicting(a) {
      SameMerge(MergeAll(map[], a).value, a, b);
      MergeIsUnique(MergeAll(map[], a).value, MergeAll(map[], b).value, b);
    }
  }

  lemma SameMerge(merged: Merged, a: seq<Change>, b: seq<Change>)
    requires IsMerge(merged, a) && forall c :: c in a <==> c in b
    ensures IsMerge(merged, b)
  {
    forall key
      ensures Listed(a, key) <==> Listed(b, key)
    {
    }
    forall key, action: Action
      ensures ComesTo(a, key, action) <==> ComesTo(b, key, action)
    {
    }
  }

  // ----------------------------------------------------------- one element of the report

  // An attribute of a tag whose attributes are sound.
  function AttributeOf(tag: Tag, name: string): Option<string>
    requires tag.attributes.Some?
  {
    if name in tag.attributes.value then Some(tag.attributes.value[name]) else None
  }

  // A present, nonempty attribute.
  function Filled(tag: Tag, name: string): Option<string>
    requires tag.attributes.Some?
  {
    var value := AttributeOf(tag, name);
    if value.Some? && value.value != "" then value else None
  }

  // `s.parse::<i64>().ok()`
  function ParseI64(s: string): Option<int> {
    var negative := s != "" && s[0] == '-';
    var digits := if s != "" && (s[0] == '-' || s[0] == '+') then s[1..] else s;
    if digits == "" || !AllDigits(digits) then None
    else
      var magnitude: int := DigitsValue(digits);
      var value := if negative then -magnitude else magnitude;
      if -0x8000_0000_0000_0000 <= value < 0x8000_0000_0000_0000 then Some(value) else None
  }

  function NumberOf(tag: Tag, name: string): Option<u64>
    requires tag.attributes.Some?
  {
    var value := AttributeOf(tag, name);
    if value.None? then None else ParseU64(value.value)
  }

  datatype Summary = Summary(packagesToChange: u64, downloadBytes: u64, spaceDifference: int, snapshotBytes: u64, needReboot: bool)

  // `parse_summary`
  function ParseSummary(tag: Tag): Option<Summary> {
    if tag.attributes.None? then None
    else
      var packages, download := NumberOf(tag, "packages-to-change"), NumberOf(tag, "download-size");
      var installed, removed := NumberOf(tag, "space-usage-installed"), NumberOf(tag, "space-usage-removed");
      var difference := AttributeOf(tag, "space-usage-diff");
      var reboot := AttributeOf(tag, "need-reboot");
      if packages.None? || download.None? || installed.None? || removed.None? || difference.None? || ParseI64(difference.value).None?
      then None
      else Some(Summary(packages.value, download.value, ParseI64(difference.value).value,
                        SaturatingAdd(installed.value, removed.value), reboot == Some("true") || reboot == Some("1")))
  }

  // What a solvable in a section is: malformed, of no interest, or an entry.
  datatype Solvable = Broken | Skipped | Found(entry: Change)

  // `parse_solvable`
  function ParseSolvable(tag: Tag, action: Action): Solvable {
    if tag.attributes.None? then Broken
    else
      var kind := AttributeOf(tag, "type");
      if kind == Some("pattern") || kind == Some("product") || kind == Some("patch") || kind == Some("application") then Skipped
      else if kind != Some("package") then Broken
      else
        var name, architecture, version := Filled(tag, "name"), Filled(tag, "arch"), Filled(tag, "edition");
        var oldArchitecture, oldVersion := AttributeOf(tag, "arch-old"), AttributeOf(tag, "edition-old");
        if name.None? || architecture.None? || version.None?
           || (oldArchitecture.Some? && oldArchitecture != architecture)
           || (!action.Remove? && !action.Install? && oldVersion.None?) then Broken
        else
          var current := if action.Remove? then version else if action.Install? then None else oldVersion;
          var proposed := if action.Remove? then None else version;
          var repository := if action.Remove? then None else AttributeOf(tag, "repository");
          Found(Entry(Key(name.value, architecture.value, current, proposed, repository), action))
  }

  lemma FoundIsEntry(tag: Tag, action: Action)
    ensures ParseSolvable(tag, action).Found? ==>
              IsEntry(ParseSolvable(tag, action).entry) && ParseSolvable(tag, action).entry.action == action
  {}

  // The section that a path is in, if it is directly in one of the summary.
  function SectionOf(path: seq<string>): Option<Action> {
    if |path| == 3 && path[1] == SUMMARY then SectionAction(path[2]) else None
  }

  // The solvable that a tag at a path is.
  function SolvableAt(tag: Tag, path: seq<string>): Solvable {
    if tag.name != "solvable" || SectionOf(path).None? then Skipped else ParseSolvable(tag, SectionOf(path).value)
  }

  // ------------------------------------------------------------------------- the loop

  datatype State = State(path: seq<string>, summary: Option<Summary>, entries: seq<Change>, problems: seq<string>, inError: bool)

  const Start0 := State([], None, [], [], false)

  function TrimStart(s: string): string {
    if s != "" && Utf8.IsWhitespace(s[0]) then TrimStart(s[1..]) else s
  }

  function TrimEnd(s: string): string {
    if s != "" && Utf8.IsWhitespace(s[|s| - 1]) then TrimEnd(s[..|s| - 1]) else s
  }

  function Trim(s: string): string {
    TrimEnd(TrimStart(s))
  }

  // A summary may stand only once, directly in the stream.
  function WithSummary(s: State, tag: Tag): Option<State> {
    if tag.name != SUMMARY then Some(s)
    else if s.summary.Some? || s.path != ["stream"] || ParseSummary(tag).None? then None
    else Some(s.(summary := ParseSummary(tag)))
  }

  function WithSolvable(s: State, tag: Tag): Option<State> {
    match SolvableAt(tag, s.path)
    case Broken => None
    case Skipped => Some(s)
    case Found(entry) => Some(s.(entries := s.entries + [entry]))
  }

  function WithMessage(s: State, tag: Tag): Option<State> {
    if tag.name != "message" then Some(s)
    else if tag.attributes.None? then None
    else
      var isError := AttributeOf(tag, "type") == Some("error");
      Some(s.(inError := isError, problems := if isError then s.problems + ["zypper reported an error"] else s.problems))
  }

  function Opened(s: State, tag: Tag): Option<State> {
    var a := WithSummary(s, tag);
    if a.None? then None
    else
      var b := WithSolvable(a.value, tag);
      if b.None? then None else WithMessage(b.value, tag)
  }

  // One event; the reader itself checks that end tags match.
  function Step(s: State, e: Event): Option<State> {
    match e
    case Start(tag) =>
      var next := Opened(s, tag);
      if next.None? || |s.path| >= MAX_DEPTH then None else Some(next.value.(path := s.path + [tag.name]))
    case Empty(tag) => Opened(s, tag)
    case End(name) =>
      if s.path == [] || s.path[|s.path| - 1] != name then None
      else Some(s.(path := s.path[..|s.path| - 1], inError := s.inError && name != "message"))
    case Text(content) =>
      if s.inError && Trim(content) != "" then Some(s.(problems := s.problems + [Trim(content)])) else Some(s)
    case DocType => None
    case Malformed => None
    case _ => Some(s)
  }

  function Run(s: State, events: seq<Event>): Option<State>
    decreases |events|
  {
    if events == [] then Some(s)
    else
      var next := Step(s, events[0]);
      if next.None? then None else Run(next.value, events[1..])
  }

  // ------------------------------------------------------------------- the whole parse

  // A sorted list of the changes of a merge.
  ghost predicate IsListing(changes: seq<Change>, merged: Merged) {
    && Ascending(changes, ChangeKey)
    && |changes| == |merged|
    && forall c :: c in changes <==> KeyOf(c) in merged && merged[KeyOf(c)] == c
  }

  // A reinstall keeps its version.
  predicate KeepsVersions(merged: Merged) {
    forall key :: key in merged && merged[key].action.Reinstall? ==> key.current == key.proposed
  }

  // What makes a report acceptable.
  predicate Acceptable(events: seq<Event>) {
    var end := Run(Start0, events);
    && end.Some? && end.value.summary.Some? && end.value.path == []
    && var merged := MergeAll(map[], end.value.entries);
       && merged.Some? && |merged.value| == end.value.summary.value.packagesToChange && KeepsVersions(merged.value)
  }

  lemma RunFirst(s: State, e: Event, rest: seq<Event>)
    ensures Run(s, [e] + rest) == if Step(s, e).None? then None else Run(Step(s, e).value, rest)
  {
    assert ([e] + rest)[1..] == rest;
  }

  lemma RunNothing(s: State)
    ensures Run(s, []) == Some(s)
  {}

  lemma MergeLast(merged: Merged, entries: seq<Change>, c: Change)
    ensures MergeAll(merged, entries + [c]) ==
            if MergeAll(merged, entries).None? then None else Merge(MergeAll(merged, entries).value, c)
    decreases |entries|
  {
    if entries == [] {
      assert [] + [c] == [c] && [c][1..] == [];
    } else {
      assert (entries + [c])[1..] == entries[1..] + [c];
      var next := Merge(merged, entries[0]);
      if next.Some? {
        MergeLast(next.value, entries[1..], c);
      }
    }
  }

  lemma {:induction false} RunAdds(s: State, events: seq<Event>)
    requires Run(s, events).Some?
    ensures s.entries <= Run(s, events).value.entries
    decreases |events|
  {
    hide ParseSolvable, ParseSummary, Trim;
    if events != [] {
      RunAdds(Step(s, events[0]).value, events[1..]);
    }
  }

  lemma {:induction false} ConflictStays(merged: Merged, a: seq<Change>, b: seq<Change>)
    requires MergeAll(merged, a).None?
    ensures MergeAll(merged, a + b).None?
    decreases |a|
  {
    hide Merge;
    var next := Merge(merged, a[0]);
    assert (a + b)[1..] == a[1..] + b;
    if next.Some? {
      ConflictStays(next.value, a[1..], b);
    }
  }

  // `parse_solver_xml`: entries are merged as they are read
  method ParseSolverXml(events: seq<Event>, metadataValid: seq<string>, estimated: u64) returns (r: Option<SolverResult>)
    ensures r.Some? <==> Acceptable(events)
    ensures r.Some? ==>
              var end := Run(Start0, events).value;
              var summary := end.summary.value;
              && IsListing(r.value.changes, MergeAll(map[], end.entries).value)
              && r.value.schemaVersion == 1 && r.value.metadataValid == metadataValid
              && r.value.problems == SortedSet(end.problems) && (r.value.successful <==> end.problems == [])
              && r.value.downloadBytes == summary.downloadBytes && r.value.rebootRequired == summary.needReboot
              && r.value.sizeIncrease == (if summary.spaceDifference > 0 then summary.spaceDifference else 0)
              && r.value.snapshotBytes == (if summary.snapshotBytes > estimated then summary.snapshotBytes else estimated)
  {
    hide SortedSet, Run, WithSummary, WithMessage, SolvableAt, IsListing;
    var s, merged := Start0, map[];
    for i := 0 to |events|
      invariant Run(Start0, events) == Run(s, events[i..])
      invariant MergeAll(map[], s.entries) == Some(merged)
    {
      hide Step, Opened, MergeAll, Merge;
      var e := events[i];
      assert events[i..] == [e] + events[i + 1..];
      RunFirst(s, e, events[i + 1..]);
      var next := Step(s, e);
      if next.None? {
        return None;
      }
      StepAdds(s, e);
      if |next.value.entries| > |s.entries| {
        var c := next.value.entries[|s.entries|];
        assert next.value.entries == s.entries + [c];
        MergeLast(map[], s.entries, c);
        var result := Merge(merged, c);
        if result.None? {
          ghost var end := Run(next.value, events[i + 1..]);
          if end.Some? {
            RunAdds(next.value, events[i + 1..]);
            ConflictStays(map[], next.value.entries, end.value.entries[|next.value.entries|..]);
            assert end.value.entries == next.value.entries + end.value.entries[|next.value.entries|..];
          }
          return None;
        }
        merged := result.value;
      } else {
        assert next.value.entries == s.entries;
      }
      s := next.value;
    }
    assert events[|events|..] == [];
    RunNothing(s);
    if s.summary.None? || s.path != [] || |merged| != s.summary.value.packagesToChange || !KeepsVersions(merged) {
      return None;
    }
    EntriesAreEntries(events);
    MergeOfEntries(s.entries);
    var changes := List(merged);
    var problems := SortedSet(s.problems);
    NoProblems(s.problems);
    var summary := s.summary.value;
    DifferenceFits(events);
    r := Some(SolverResult(1, problems == [], problems, metadataValid, changes, summary.downloadBytes,
                           if summary.spaceDifference > 0 then summary.spaceDifference else 0,
                           if summary.snapshotBytes > estimated then summary.snapshotBytes else estimated, summary.needReboot));
  }

  lemma NoProblems(problems: seq<string>)
    ensures SortedSet(problems) == [] <==> problems == []
  {
    hide StringKey;
    StringsIdentify(problems);
    CanonicalKeeps(problems, StringKey);
    EmptyTogether(SortedSet(problems), problems);
  }

  // The announced difference in space is a signed 64-bit number.
  predicate Fits64(s: State) {
    s.summary.Some? ==> -0x8000_0000_0000_0000 <= s.summary.value.spaceDifference < 0x8000_0000_0000_0000
  }

  lemma StepFits(s: State, e: Event)
    requires Fits64(s)
    ensures Step(s, e).Some? ==> Fits64(Step(s, e).value)
  {
    hide Trim, ParseSolvable, NumberOf;
  }

  lemma {:induction false} RunFits(s: State, events: seq<Event>)
    requires Fits64(s)
    ensures Run(s, events).Some? ==> Fits64(Run(s, events).value)
    decreases |events|
  {
    hide Step, Fits64;
    if events != [] && Step(s, events[0]).Some? {
      StepFits(s, events[0]);
      RunFits(Step(s, events[0]).value, events[1..]);
    }
  }

  lemma DifferenceFits(events: seq<Event>)
    ensures Run(Start0, events).Some? ==> Fits64(Run(Start0, events).value)
  {
    hide Run;
    RunFits(Start0, events);
  }

  lemma StepAdds(s: State, e: Event)
    ensures Step(s, e).Some? ==>
              && s.entries <= Step(s, e).value.entries && |Step(s, e).value.entries| <= |s.entries| + 1
              && forall c :: c in Step(s, e).value.entries && c !in s.entries ==> IsEntry(c)
  {
    hide ParseSummary, Trim, ParseSolvable, IsEntry;
    if e.Start? || e.Empty? {
      if SectionOf(s.path).Some? {
        FoundIsEntry(e.tag, SectionOf(s.path).value);
      }
    }
  }

  lemma {:induction false} RunKeepsEntries(s: State, events: seq<Event>)
    requires AllEntries(s.entries) && Run(s, events).Some?
    ensures AllEntries(Run(s, events).value.entries)
    decreases |events|
  {
    hide Step, IsEntry;
    if events != [] {
      StepAdds(s, events[0]);
      RunKeepsEntries(Step(s, events[0]).value, events[1..]);
    }
  }

  lemma EntriesAreEntries(events: seq<Event>)
    ensures Run(Start0, events).Some? ==> AllEntries(Run(Start0, events).value.entries)
  {
    hide Run;
    if Run(Start0, events).Some? {
      RunKeepsEntries(Start0, events);
    }
  }

  // The values of a merge, sorted.
  method List(merged: Merged) returns (changes: seq<Change>)
    requires forall key :: key in merged ==> KeyOf(merged[key]) == key
    ensures IsListing(changes, merged)
  {
    hide KeyOf, ChangeKey, Sort, Ascending;
    var rest := merged.Keys;
    var values: seq<Change> := [];
    while rest != {}
      invariant rest <= merged.Keys && |values| + |rest| == |merged|
      invariant forall c :: c in values <==> KeyOf(c) in merged && KeyOf(c) !in rest && merged[KeyOf(c)] == c
      invariant forall i, j :: 0 <= i < j < |values| ==> values[i] != values[j]
      decreases |rest|
    {
      var key :| key in rest;
      values := values + [merged[key]];
      rest := rest - {key};
    }
    changes := Sort(values, ChangeKey);
    DistinctSortAscends(values);
  }

  lemma DistinctSortAscends(values: seq<Change>)
    requires forall i, j :: 0 <= i < j < |values| ==> values[i] != values[j]
    ensures Ascending(Sort(values, ChangeKey), ChangeKey) && |Sort(values, ChangeKey)| == |values|
    ensures forall c :: c in Sort(values, ChangeKey) <==> c in values
  {
    hide ChangeKey, Sort, KeyLe;
    var sorted := Sort(values, ChangeKey);
    SortKeeps(values, ChangeKey);
    SameElements(sorted, values);
    assert |multiset(sorted)| == |multiset(values)|;
    forall i, j | 0 <= i < j < |sorted|
      ensures ChangeKey(sorted[i]) != ChangeKey(sorted[j])
    {
      if ChangeKey(sorted[i]) == ChangeKey(sorted[j]) {
        ChangeKeyIdentifies(sorted[i], sorted[j]);
        TwiceIn(sorted, i, j);
        OnceIn(values, sorted[i]);
      }
    }
  }

  lemma TwiceIn(s: seq<Change>, i: nat, j: nat)
    requires i < j < |s| && s[i] == s[j]
    ensures multiset(s)[s[i]] >= 2
  {
    assert s == s[..j] + [s[j]] + s[j + 1..];
    assert s[i] in s[..j];
    assert multiset(s)[s[i]] >= multiset(s[..j])[s[i]] + multiset([s[j]])[s[i]];
  }

  lemma {:induction false} OnceIn(s: seq<Change>, c: Change)
    requires forall i, j :: 0 <= i < j < |s| ==> s[i] != s[j]
    ensures multiset(s)[c] <= 1
  {
    if s != [] {
      var front := s[..|s| - 1];
      assert s == front + [s[|s| - 1]];
      OnceIn(front, c);
      if s[|s| - 1] == c {
        assert c !in front;
      }
    }
  }

  // ----------------------------------------------------------------- on the tree

  // The entries of a tree, in document order: the package solvables directly in the
  // sections of the summary.
  function EntryOf(tag: Tag, path: seq<string>): seq<Change> {
    if SolvableAt(tag, path).Found? then [SolvableAt(tag, path).entry] else []
  }

  function Entries(node: Node, path: seq<string>): seq<Change> {
    match node
    case Element(tag, children) => EntryOf(tag, path) + AllEntriesOf(children, path + [tag.name])
    case Brief(tag) => EntryOf(tag, path)
    case Leaf(_) => []
  }

  function AllEntriesOf(forest: seq<Node>, path: seq<string>): seq<Change> {
    if forest == [] then [] else Entries(forest[0], path) + AllEntriesOf(forest[1..], path)
  }

  lemma RunOne(s: State, e: Event)
    ensures Run(s, [e]) == Step(s, e)
  {
    hide Run, Step;
    RunFirst(s, e, []);
    assert [e] + [] == [e];
    if Step(s, e).Some? {
      RunNothing(Step(s, e).value);
    }
  }

  lemma {:induction false} RunSplit(s: State, a: seq<Event>, b: seq<Event>)
    ensures Run(s, a + b) == if Run(s, a).None? then None else Run(Run(s, a).value, b)
    decreases |a|
  {
    hide Run, Step;
    if a == [] {
      assert a + b == b;
      RunNothing(s);
    } else {
      var e, tail := a[0], a[1..];
      assert a == [e] + tail && a + b == [e] + (tail + b);
      RunFirst(s, e, tail);
      RunFirst(s, e, tail + b);
      if Step(s, e).Some? {
        RunSplit(Step(s, e).value, tail, b);
      }
    }
  }

  // What makes a tag unacceptable where it stands: a summary elsewhere than directly in
  // the stream or with a bad number, a broken solvable, a message with broken attributes.
  predicate SoundTag(tag: Tag, path: seq<string>) {
    && (tag.name == SUMMARY ==> path == ["stream"] && ParseSummary(tag).Some?)
    && !SolvableAt(tag, path).Broken?
    && (tag.name == "message" ==> tag.attributes.Some?)
  }

  // No tag is unacceptable, nothing is nested too deep, there is no DTD and no broken text.
  predicate SoundNode(node: Node, path: seq<string>) {
    match node
    case Element(tag, children) => |path| < MAX_DEPTH && SoundTag(tag, path) && SoundForest(children, path + [tag.name])
    case Brief(tag) => SoundTag(tag, path)
    case Leaf(e) => !e.DocType? && !e.Malformed?
  }

  predicate SoundForest(forest: seq<Node>, path: seq<string>) {
    forall node :: node in forest ==> SoundNode(node, path)
  }

  // The summaries of a tree, wherever they are.
  function SummaryTag(tag: Tag): seq<Tag> {
    if tag.name == SUMMARY then [tag] else []
  }

  function SummaryTags(node: Node): seq<Tag> {
    match node
    case Element(tag, children) => SummaryTag(tag) + AllSummaryTags(children)
    case Brief(tag) => SummaryTag(tag)
    case Leaf(_) => []
  }

  function AllSummaryTags(forest: seq<Node>): seq<Tag> {
    if forest == [] then [] else SummaryTags(forest[0]) + AllSummaryTags(forest[1..])
  }

  // Text counts as a problem from the tag of an error message to the end of any message,
  // or to the tag of one that is no error.
  function Raised(tag: Tag, inError: bool): bool {
    if tag.name == "message" then tag.attributes.Some? && AttributeOf(tag, "type") == Some("error") else inError
  }

  function RaisedAfter(node: Node, inError: bool): bool {
    match node
    case Element(tag, children) => AllRaisedAfter(children, Raised(tag, inError)) && tag.name != "message"
    case Brief(tag) => Raised(tag, inError)
    case Leaf(_) => inError
  }

  function AllRaisedAfter(forest: seq<Node>, inError: bool): bool {
    if forest == [] then inError else AllRaisedAfter(forest[1..], RaisedAfter(forest[0], inError))
  }

  function ProblemOf(tag: Tag): seq<string> {
    if tag.name == "message" && Raised(tag, false) then ["zypper reported an error"] else []
  }

  function Problems(node: Node, inError: bool): seq<string> {
    match node
    case Element(tag, children) => ProblemOf(tag) + AllProblems(children, Raised(tag, inError))
    case Brief(tag) => ProblemOf(tag)
    case Leaf(e) => if e.Text? && inError && Trim(e.content) != "" then [Trim(e.content)] else []
  }

  function AllProblems(forest: seq<Node>, inError: bool): seq<string> {
    if forest == [] then [] else Problems(forest[0], inError) + AllProblems(forest[1..], RaisedAfter(forest[0], inError))
  }

  // Where the loop stands after a part of the document, seen from where it stood before.
  function Reached(s: State, tags: seq<Tag>, entries: seq<Change>, problems: seq<string>, inError: bool): State {
    State(s.path, if tags == [] then s.summary else ParseSummary(tags[0]), s.entries + entries, s.problems + problems, inError)
  }

  function Held(s: State): nat {
    if s.summary.Some? then 1 else 0
  }

  predicate AllParse(tags: seq<Tag>) {
    forall tag :: tag in tags ==> ParseSummary(tag).Some?
  }

  lemma ReachedTwice(s: State, tags: seq<Tag>, entries: seq<Change>, problems: seq<string>, inError: bool,
                     tags': seq<Tag>, entries': seq<Change>, problems': seq<string>, inError': bool)
    requires AllParse(tags) && |tags| + Held(s) <= 1
    ensures var t := Reached(s, tags, entries, problems, inError);
            && Held(t) == |tags| + Held(s)
            && (|tags'| + Held(t) <= 1 ==>
                  Reached(t, tags', entries', problems', inError')
                  == Reached(s, tags + tags', entries + entries', problems + problems', inError'))
  {
    hide ParseSummary;
    assert s.entries + entries + entries' == s.entries + (entries + entries');
    assert s.problems + problems + problems' == s.problems + (problems + problems');
    if tags != [] {
      assert tags[0] in tags && (tags + tags')[0] == tags[0];
    }
  }

  lemma ReachedNothing(s: State)
    ensures Reached(s, [], [], [], s.inError) == s
  {
    assert s.entries + [] == s.entries && s.problems + [] == s.problems;
  }

  lemma OpenedExactly(s: State, tag: Tag)
    ensures Opened(s, tag) ==
              if SoundTag(tag, s.path) && |SummaryTag(tag)| + Held(s) <= 1
              then Some(Reached(s, SummaryTag(tag), EntryOf(tag, s.path), ProblemOf(tag), Raised(tag, s.inError)))
              else None
    ensures SoundTag(tag, s.path) ==> AllParse(SummaryTag(tag))
  {
    hide ParseSummary, ParseSolvable, SectionOf;
    assert s.entries + [] == s.entries && s.problems + [] == s.problems;
  }

  lemma SoundCons(forest: seq<Node>, path: seq<string>)
    requires forest != []
    ensures SoundForest(forest, path) <==> SoundNode(forest[0], path) && SoundForest(forest[1..], path)
  {
    hide SoundNode;
    assert forest == [forest[0]] + forest[1..];
  }

  // The loop comes through a forest exactly if it is sound and adds no second summary,
  // and then it has collected what the forest holds.
  lemma {:induction false} ForestRuns(s: State, forest: seq<Node>)
    requires AllProper(forest)
    ensures Run(s, SerialiseAll(forest)) ==
              if SoundForest(forest, s.path) && |AllSummaryTags(forest)| + Held(s) <= 1
              then Some(Reached(s, AllSummaryTags(forest), AllEntriesOf(forest, s.path), AllProblems(forest, s.inError),
                                AllRaisedAfter(forest, s.inError)))
              else None
    ensures SoundForest(forest, s.path) ==> AllParse(AllSummaryTags(forest))
    decreases forest
  {
    hide Run, Serialise, SerialiseAll, Proper, Entries, SoundNode, SoundForest, SummaryTags, Problems, RaisedAfter, Reached, ParseSummary;
    if forest == [] {
      SerialiseNil();
      RunNothing(s);
      ReachedNothing(s);
      assert SoundForest([], s.path) by {
        NothingIsSound(s.path);
      }
    } else {
      var first, rest := forest[0], forest[1..];
      SerialiseFirst(forest);
      SoundCons(forest, s.path);
      RunSplit(s, Serialise(first), SerialiseAll(rest));
      NodeRuns(s, first);
      if SoundNode(first, s.path) && |SummaryTags(first)| + Held(s) <= 1 {
        var t := Reached(s, SummaryTags(first), Entries(first, s.path), Problems(first, s.inError), RaisedAfter(first, s.inError));
        ReachedTwice(s, SummaryTags(first), Entries(first, s.path), Problems(first, s.inError), RaisedAfter(first, s.inError),
                     AllSummaryTags(rest), AllEntriesOf(rest, s.path), AllProblems(rest, RaisedAfter(first, s.inError)),
                     AllRaisedAfter(rest, RaisedAfter(first, s.inError)));
        ReachedKeeps(s, SummaryTags(first), Entries(first, s.path), Problems(first, s.inError), RaisedAfter(first, s.inError));
        ForestRuns(t, rest);
      } else if SoundNode(first, s.path) {
        ForestRuns(s, rest);
      }
    }
  }

  lemma NothingIsSound(path: seq<string>)
    ensures SoundForest([], path)
  {}

  lemma ReachedKeeps(s: State, tags: seq<Tag>, entries: seq<Change>, problems: seq<string>, inError: bool)
    ensures var t := Reached(s, tags, entries, problems, inError);
            t.path == s.path && t.inError == inError
  {}

  lemma {:induction false} NodeRuns(s: State, node: Node)
    requires Proper(node)
    ensures Run(s, Serialise(node)) ==
              if SoundNode(node, s.path) && |SummaryTags(node)| + Held(s) <= 1
              then Some(Reached(s, SummaryTags(node), Entries(node, s.path), Problems(node, s.inError), RaisedAfter(node, s.inError)))
              else None
    ensures SoundNode(node, s.path) ==> AllParse(SummaryTags(node))
    decreases node
  {
    match node
    case Element(tag, children) => ElementRuns(s, tag, children);
    case Brief(tag) =>
      hide Run, Opened, SoundTag, ParseSummary, ProblemOf, Raised;
      RunOne(s, Empty(tag));
      OpenedExactly(s, tag);
    case Leaf(e) =>
      hide Run, Trim;
      RunOne(s, e);
      ReachedNothing(s);
  }

  lemma {:induction false} ElementRuns(s: State, tag: Tag, children: seq<Node>)
    requires Proper(Element(tag, children))
    ensures var node := Element(tag, children);
            && Run(s, Serialise(node)) ==
                 (if SoundNode(node, s.path) && |SummaryTags(node)| + Held(s) <= 1
                  then Some(Reached(s, SummaryTags(node), Entries(node, s.path), Problems(node, s.inError), RaisedAfter(node, s.inError)))
                  else None)
            && (SoundNode(node, s.path) ==> AllParse(SummaryTags(node)))
    decreases Element(tag, children), 0
  {
    hide Run, Opened, SoundTag, SoundForest, ParseSummary, ProblemOf, EntryOf, SummaryTag, Raised, Reached, SerialiseAll, AllRaisedAfter, AllProblems, AllEntriesOf, AllSummaryTags;
    var node := Element(tag, children);
    var inside := SerialiseAll(children) + [End(tag.name)];
    assert Serialise(node) == [Start(tag)] + inside;
    RunFirst(s, Start(tag), inside);
    OpenedExactly(s, tag);
    var tagged := Reached(s, SummaryTag(tag), EntryOf(tag, s.path), ProblemOf(tag), Raised(tag, s.inError));
    var t := tagged.(path := s.path + [tag.name]);
    ReachedKeeps(s, SummaryTag(tag), EntryOf(tag, s.path), ProblemOf(tag), Raised(tag, s.inError));
    RunSplit(t, SerialiseAll(children), [End(tag.name)]);
    ForestRuns(t, children);
    if SoundTag(tag, s.path) && |SummaryTag(tag)| + Held(s) <= 1 && |s.path| < MAX_DEPTH {
      var raised := AllRaisedAfter(children, t.inError);
      ReachedTwice(s, SummaryTag(tag), EntryOf(tag, s.path), ProblemOf(tag), Raised(tag, s.inError),
                   AllSummaryTags(children), AllEntriesOf(children, t.path), AllProblems(children, t.inError),
                   raised && tag.name != "message");
      if SoundForest(children, t.path) && |AllSummaryTags(children)| + Held(t) <= 1 {
        ClosedExactly(s, tagged, tag.name, AllSummaryTags(children), AllEntriesOf(children, t.path), AllProblems(children, t.inError), raised);
      }
    }
  }

  lemma ClosedExactly(s: State, tagged: State, name: string, tags: seq<Tag>, entries: seq<Change>, problems: seq<string>, inError: bool)
    requires tagged.path == s.path
    ensures var t := Reached(tagged.(path := s.path + [name]), tags, entries, problems, inError);
            Run(t, [End(name)]) == Some(Reached(tagged, tags, entries, problems, inError && name != "message"))
  {
    hide Run;
    var t := Reached(tagged.(path := s.path + [name]), tags, entries, problems, inError);
    RunOne(t, End(name));
    assert t.path[..|t.path| - 1] == s.path;
  }

  lemma {:induction false} RunNests(s: State, events: seq<Event>)
    requires Run(s, events).Some?
    ensures Nest(s.path, events) == Some(Run(s, events).value.path)
    decreases |events|
  {
    hide Run, Nest, Opened, Trim;
    if events == [] {
      RunNothing(s);
      NestNothing(s.path);
    } else {
      var e, tail := events[0], events[1..];
      assert events == [e] + tail;
      RunFirst(s, e, tail);
      NestFirst(s.path, e, tail);
      if e.Start? || e.Empty? {
        OpenedExactly(s, e.tag);
      }
      RunNests(Step(s, e).value, tail);
    }
  }

  lemma ListingIsUnique(a: seq<Change>, b: seq<Change>, merged: Merged)
    requires IsListing(a, merged) && IsListing(b, merged)
    ensures a == b
  {
    hide Ascending, ChangeKey;
    forall c
      ensures c in a <==> c in b
    {
    }
    AscendingIsUnique(a, b, ChangeKey);
  }

  // A document that the loop accepts: sound, with one summary, whose package solvables
  // come to as many changes as the summary announces, each reinstall keeping its version.
  ghost predicate AcceptableDocument(forest: seq<Node>, merged: Merged) {
    && AllProper(forest) && SoundForest(forest, [])
    && |AllSummaryTags(forest)| == 1
    && !Conflicting(AllEntriesOf(forest, [])) && IsMerge(merged, AllEntriesOf(forest, []))
    && (var summary := ParseSummary(AllSummaryTags(forest)[0]);
        summary.Some? && |merged| == summary.value.packagesToChange)
    && KeepsVersions(merged)
  }

  // Sound, with at most one summary: the loop comes to the end of the document.
  predicate Readable(forest: seq<Node>) {
    AllProper(forest) && SoundForest(forest, []) && |AllSummaryTags(forest)| <= 1
  }

  lemma DocumentRuns(forest: seq<Node>)
    requires AllProper(forest)
    ensures Run(Start0, SerialiseAll(forest)).Some? <==> Readable(forest)
    ensures Readable(forest) ==>
              var end := Run(Start0, SerialiseAll(forest)).value;
              && end.path == [] && end.entries == AllEntriesOf(forest, []) && end.problems == AllProblems(forest, false)
              && end.summary == (if AllSummaryTags(forest) == [] then None else ParseSummary(AllSummaryTags(forest)[0]))
              && AllParse(AllSummaryTags(forest)) && AllEntries(end.entries)
  {
    hide Run, SerialiseAll, AllEntriesOf, AllProblems, AllSummaryTags, AllRaisedAfter, SoundForest, ParseSummary, AllEntries;
    ForestRuns(Start0, forest);
    EntriesAreEntries(SerialiseAll(forest));
    var entries, problems := AllEntriesOf(forest, []), AllProblems(forest, false);
    assert [] + entries == entries && [] + problems == problems;
  }

  // Acceptance, on the document.
  lemma DocumentIsAccepted(forest: seq<Node>)
    requires AllProper(forest)
    ensures Acceptable(SerialiseAll(forest)) <==> exists merged :: AcceptableDocument(forest, merged)
    ensures forall merged :: AcceptableDocument(forest, merged) ==> MergeAll(map[], AllEntriesOf(forest, [])) == Some(merged)
  {
    hide Run, SerialiseAll, AllEntriesOf, AllProblems, AllSummaryTags, SoundForest, ParseSummary, IsMerge, Conflicting, MergeAll, AllEntries, KeepsVersions;
    DocumentRuns(forest);
    var entries := AllEntriesOf(forest, []);
    if Readable(forest) {
      MergeOfEntries(entries);
      forall merged | AcceptableDocument(forest, merged)
        ensures MergeAll(map[], entries) == Some(merged)
      {
        MergeIsUnique(MergeAll(map[], entries).value, merged, entries);
      }
      if Acceptable(SerialiseAll(forest)) {
        assert AcceptableDocument(forest, MergeAll(map[], entries).value);
      }
    }
  }

  // The loop accepts an event stream exactly when it serialises an acceptable document.
  lemma AcceptsExactlySoundReports(events: seq<Event>)
    ensures Acceptable(events) <==>
              exists forest, merged :: events == SerialiseAll(forest) && AcceptableDocument(forest, merged)
  {
    hide Run, SerialiseAll, AcceptableDocument, Nest, MergeAll, Proper, KeepsVersions;
    if Acceptable(events) {
      RunNests(Start0, events);
      var forest := WellNestedIsForest(events);
      DocumentIsAccepted(forest);
    }
    forall forest, merged | events == SerialiseAll(forest) && AcceptableDocument(forest, merged)
      ensures Acceptable(events)
    {
      ProperDocument(forest, merged);
      DocumentIsAccepted(forest);
    }
  }

  lemma ProperDocument(forest: seq<Node>, merged: Merged)
    requires AcceptableDocument(forest, merged)
    ensures AllProper(forest)
  {}

  // What the loop makes of an accepted report is what the document says.
  lemma AcceptedReport(forest: seq<Node>, merged: Merged)
    requires AcceptableDocument(forest, merged)
    ensures Acceptable(SerialiseAll(forest))
    ensures var end := Run(Start0, SerialiseAll(forest)).value;
            && MergeAll(map[], end.entries) == Some(merged)
            && end.problems == AllProblems(forest, false)
            && end.summary == ParseSummary(AllSummaryTags(forest)[0])
  {
    hide Run, SerialiseAll, AllEntriesOf, AllProblems, AllSummaryTags, SoundForest, ParseSummary, IsMerge, Conflicting, MergeAll, KeepsVersions;
    DocumentIsAccepted(forest);
    DocumentRuns(forest);
  }

  // Arranging the same entries otherwise, in documents that are sound and announce the
  // same number of changes, changes neither the verdict nor the list of changes.
  lemma ArrangementIsIrrelevant(a: seq<Node>, b: seq<Node>)
    requires AllProper(a) && SoundForest(a, []) && |AllSummaryTags(a)| == 1
    requires AllProper(b) && SoundForest(b, []) && |AllSummaryTags(b)| == 1
    requires ParseSummary(AllSummaryTags(a)[0]) == ParseSummary(AllSummaryTags(b)[0])
    requires forall c :: c in AllEntriesOf(a, []) <==> c in AllEntriesOf(b, [])
    ensures Acceptable(SerialiseAll(a)) <==> Acceptable(SerialiseAll(b))
    ensures forall merged :: AcceptableDocument(a, merged) <==> AcceptableDocument(b, merged)
  {
    hide Run, SerialiseAll, AllEntriesOf, AllSummaryTags, SoundForest, Proper, ParseSummary, IsMerge, Conflict, Acceptable, KeepsVersions;
    DocumentIsAccepted(a);
    DocumentIsAccepted(b);
    var x, y := AllEntriesOf(a, []), AllEntriesOf(b, []);
    assert Conflicting(x) <==> Conflicting(y);
    forall merged
      ensures IsMerge(merged, x) <==> IsMerge(merged, y)
    {
      if IsMerge(merged, x) {
        SameMerge(merged, x, y);
      }
      if IsMerge(merged, y) {
        SameMerge(merged, y, x);
      }
    }
    assert forall merged :: AcceptableDocument(a, merged) <==> AcceptableDocument(b, merged);
  }

  // Two accepted documents of the same entries list the same changes, whatever else
  // they say.
  lemma SameEntriesSameChanges(a: seq<Node>, b: seq<Node>, m: Merged, n: Merged, x: seq<Change>, y: seq<Change>)
    requires AcceptableDocument(a, m) && AcceptableDocument(b, n)
    requires forall c :: c in AllEntriesOf(a, []) <==> c in AllEntriesOf(b, [])
    requires IsListing(x, m) && IsListing(y, n)
    ensures x == y
  {
    hide AllEntriesOf, AllSummaryTags, SoundForest, Proper, ParseSummary, KeepsVersions, IsMerge, Conflict, IsListing;
    SameMerge(m, AllEntriesOf(a, []), AllEntriesOf(b, []));
    MergeIsUnique(m, n, AllEntriesOf(b, []));
    ListingIsUnique(x, y, m);
  }
}
