/** The verifier's acceptor of a package manager report that proposes no repair: an
    event loop with a path stack and three flags, and the documents it accepts. */
module HealthyOutput {
  import opened Wrappers
  import opened Xml

  const MAX_OUTPUT := 1024 * 1024
  const SUMMARY := "install-summary"
  const MAX_DEPTH := 32

  // `u8::is_ascii_whitespace`
  predicate IsBlank(text: string) {
    forall c :: c in text ==> c == ' ' || c == '\t' || c == '\n' || c as int == 12 || c == '\r'
  }

  // A decimal integer whose value is zero, as `i64` parses it.
  predicate IsZero(value: string) {
    var digits := if value != "" && (value[0] == '+' || value[0] == '-') then value[1..] else value;
    digits != "" && forall c :: c in digits ==> c == '0'
  }

  const Counters := ["packages-to-change", "download-size", "space-usage-diff", "space-usage-installed", "space-usage-removed"]

  predicate AllZero(attributes: map<string, string>) {
    forall field :: field in Counters ==> field in attributes && IsZero(attributes[field])
  }

  // Elements that ask, act or report an error.
  predicate Objects(name: string, attributes: map<string, string>) {
    || name == "prompt" || name == "solvable" || "to-" <= name
    || (name == "message" && "type" in attributes && attributes["type"] == "error")
  }

  datatype State = State(path: seq<string>, rootSeen: bool, declarationSeen: bool, summarySeen: bool)

  const Initial := State([], false, false, false)

  // What is required of an element at a path, apart from what was seen before it.
  predicate ElementFits(tag: Tag, path: seq<string>) {
    && (path == [] ==> tag.name == "stream")
    && SUMMARY !in path
    && tag.attributes.Some?
    && (tag.name == SUMMARY ==> path == ["stream"] && AllZero(tag.attributes.value))
    && !Objects(tag.name, tag.attributes.value)
  }

  predicate InSummary(path: seq<string>) {
    path != [] && path[|path| - 1] == SUMMARY
  }

  function StepElement(s: State, tag: Tag): Option<State> {
    if ElementFits(tag, s.path) && !(s.path == [] && s.rootSeen) && !(tag.name == SUMMARY && s.summarySeen) then
      Some(s.(rootSeen := true, summarySeen := s.summarySeen || tag.name == SUMMARY))
    else None
  }

  function Step(s: State, e: Event): Option<State>
    requires s.path != [] ==> s.rootSeen
  {
    match e
    case Start(tag) =>
      var next := StepElement(s, tag);
      if next.None? || |s.path| >= MAX_DEPTH then None else Some(next.value.(path := s.path + [tag.name]))
    case Empty(tag) => StepElement(s, tag)
    case End(name) =>
      if s.path == [] || s.path[|s.path| - 1] != name then None else Some(s.(path := s.path[..|s.path| - 1]))
    case Text(content) => if (s.path == [] || InSummary(s.path)) && !IsBlank(content) then None else Some(s)
    case Reference(resolved) => if s.path == [] || InSummary(s.path) || resolved.None? then None else Some(s)
    case Declaration => if s.declarationSeen || s.rootSeen then None else Some(s.(declarationSeen := true))
    case Comment => Some(s)
    case _ => None
  }

  predicate Rooted(s: State) {
    s.path != [] ==> s.rootSeen
  }

  lemma StepKeepsRoot(s: State, e: Event)
    requires Rooted(s)
    ensures Step(s, e).Some? ==> Rooted(Step(s, e).value)
  {}

  function Run(s: State, events: seq<Event>): Option<State>
    requires Rooted(s)
    decreases |events|
  {
    if events == [] then Some(s)
    else
      var next := Step(s, events[0]);
      StepKeepsRoot(s, events[0]);
      if next.None? then None else Run(next.value, events[1..])
  }

  predicate Accepts(events: seq<Event>) {
    var end := Run(Initial, events);
    end.Some? && end.value.rootSeen && end.value.summarySeen && end.value.path == []
  }

  lemma RunFirst(s: State, e: Event, rest: seq<Event>)
    requires Rooted(s)
    ensures Step(s, e).Some? ==> Rooted(Step(s, e).value) && Run(s, [e] + rest) == Run(Step(s, e).value, rest)
    ensures Step(s, e).None? ==> Run(s, [e] + rest) == None
  {
    StepKeepsRoot(s, e);
    assert ([e] + rest)[1..] == rest;
  }

  lemma RunNothing(s: State)
    requires Rooted(s)
    ensures Run(s, []) == Some(s)
  {}

  lemma {:induction false} RunRooted(s: State, events: seq<Event>)
    requires Rooted(s)
    ensures Run(s, events).Some? ==> Rooted(Run(s, events).value)
    decreases |events|
  {
    if events != [] && Step(s, events[0]).Some? {
      StepKeepsRoot(s, events[0]);
      RunRooted(Step(s, events[0]).value, events[1..]);
    }
  }

  lemma {:induction false} RunSplit(s: State, a: seq<Event>, b: seq<Event>)
    requires Rooted(s)
    ensures Run(s, a).None? ==> Run(s, a + b) == None
    ensures Run(s, a).Some? ==> Rooted(Run(s, a).value) && Run(s, a + b) == Run(Run(s, a).value, b)
    decreases |a|
  {
    hide Run, Step;
    RunRooted(s, a);
    if a == [] {
      assert a + b == b;
      RunNothing(s);
    } else {
      var e, tail := a[0], a[1..];
      assert a == [e] + tail && a + b == [e] + (tail + b);
      RunFirst(s, e, tail);
      RunFirst(s, e, tail + b);
      if Step(s, e).Some? {
        RunSplit(Step(s, e).value, tail, b);
      }
    }
  }

  // `healthy_output`
  method HealthyOutput(success: bool, size: nat, events: seq<Event>) returns (ok: bool)
    ensures ok <==> success && size <= MAX_OUTPUT && Accepts(events)
  {
    hide ElementFits;
    if !success || size > MAX_OUTPUT {
      return false;
    }
    var path: seq<string>, rootSeen, declarationSeen, summarySeen := [], false, false, false;
    for i := 0 to |events|
      invariant Rooted(State(path, rootSeen, declarationSeen, summarySeen))
      invariant Run(Initial, events) == Run(State(path, rootSeen, declarationSeen, summarySeen), events[i..])
    {
      var e := events[i];
      ghost var before := State(path, rootSeen, declarationSeen, summarySeen);
      assert events[i..] == [e] + events[i + 1..];
      RunFirst(before, e, events[i + 1..]);
      match e {
        case Start(tag) =>
          var next := StepElement(State(path, rootSeen, declarationSeen, summarySeen), tag);
          if next.None? || |path| >= MAX_DEPTH {
            return false;
          }
          rootSeen, summarySeen := next.value.rootSeen, next.value.summarySeen;
          path := path + [tag.name];
        case Empty(tag) =>
          var next := StepElement(State(path, rootSeen, declarationSeen, summarySeen), tag);
          if next.None? {
            return false;
          }
          rootSeen, summarySeen := next.value.rootSeen, next.value.summarySeen;
        case End(name) =>
          if path == [] || path[|path| - 1] != name {
            return false;
          }
          path := path[..|path| - 1];
        case Text(content) =>
          if (path == [] || path[|path| - 1] == SUMMARY) && !IsBlank(content) {
            return false;
          }
        case Reference(resolved) =>
          if path == [] || path[|path| - 1] == SUMMARY || resolved.None? {
            return false;
          }
        case Declaration =>
          if declarationSeen || rootSeen {
            return false;
          }
          declarationSeen := true;
        case Comment =>
        case _ => return false;
      }
      assert Step(before, e) == Some(State(path, rootSeen, declarationSeen, summarySeen));
    }
    assert events[|events|..] == [];
    ok := rootSeen && summarySeen && path == [];
  }

  // --------------------------------------------------------------- healthy documents

  // What a healthy document may hold at a path, elements and everything between them.
  predicate Fits(node: Node, path: seq<string>) {
    match node
    case Element(tag, children) =>
      && ElementFits(tag, path) && |path| < MAX_DEPTH
      && forall child :: child in children ==> Fits(child, path + [tag.name])
    case Brief(tag) => ElementFits(tag, path)
    case Leaf(e) =>
      match e
      case Text(content) => InSummary(path) ==> IsBlank(content)
      case Reference(resolved) => resolved.Some? && !InSummary(path)
      case Comment => true
      case _ => false
  }

  predicate AllFit(forest: seq<Node>, path: seq<string>) {
    forall node :: node in forest ==> Fits(node, path)
  }

  // The number of summaries in a tree.
  function Summaries(node: Node): nat {
    match node
    case Element(tag, children) => (if tag.name == SUMMARY then 1 else 0) + AllSummaries(children)
    case Brief(tag) => if tag.name == SUMMARY then 1 else 0
    case Leaf(_) => 0
  }

  function AllSummaries(forest: seq<Node>): nat {
    if forest == [] then 0 else Summaries(forest[0]) + AllSummaries(forest[1..])
  }

  // Between the elements of the top level: white space and comments.
  predicate IsMisc(node: Node) {
    node == Leaf(Comment) || (node.Leaf? && node.event.Text? && IsBlank(node.event.content))
  }

  function Declarations(forest: seq<Node>): nat {
    if forest == [] then 0 else (if forest[0] == Leaf(Declaration) then 1 else 0) + Declarations(forest[1..])
  }

  // One `stream` tree with exactly one summary in it, at most one declaration before
  // it, and nothing else of note around it.
  predicate HealthyDocument(before: seq<Node>, root: Node, after: seq<Node>) {
    && (forall node :: node in before ==> IsMisc(node) || node == Leaf(Declaration)) && Declarations(before) <= 1
    && root.Element? && Proper(root) && Fits(root, []) && Summaries(root) == 1
    && (forall node :: node in after ==> IsMisc(node))
  }

  // ------------------------------------------------- the loop decides exactly these

  lemma {:induction false} RunNests(s: State, events: seq<Event>)
    requires Rooted(s) && Run(s, events).Some?
    ensures Nest(s.path, events) == Some(Run(s, events).value.path)
    decreases |events|
  {
    hide Run, Nest;
    if events == [] {
      RunNothing(s);
      NestNothing(s.path);
    } else {
      var e, tail := events[0], events[1..];
      assert events == [e] + tail;
      RunFirst(s, e, tail);
      NestFirst(s.path, e, tail);
      RunNests(Step(s, e).value, tail);
    }
  }

  function Count(seen: bool): nat {
    if seen then 1 else 0
  }

  // A forest inside the root is accepted exactly if it fits and adds no second summary.
  lemma {:induction false} ForestRuns(s: State, forest: seq<Node>)
    requires s.path != [] && s.rootSeen && AllProper(forest)
    ensures Run(s, SerialiseAll(forest)) ==
            if AllFit(forest, s.path) && AllSummaries(forest) + Count(s.summarySeen) <= 1
            then Some(s.(summarySeen := s.summarySeen || AllSummaries(forest) > 0)) else None
    decreases forest
  {
    hide Run, Step, Fits, Serialise, SerialiseAll, Proper;
    if forest == [] {
      SerialiseNil();
      RunNothing(s);
    } else {
      var first, rest := forest[0], forest[1..];
      assert forest == [first] + rest;
      SerialiseFirst(forest);
      NodeRuns(s, first);
      RunSplit(s, Serialise(first), SerialiseAll(rest));
      assert AllFit(forest, s.path) <==> Fits(first, s.path) && AllFit(rest, s.path);
      if Run(s, Serialise(first)).Some? {
        ForestRuns(Run(s, Serialise(first)).value, rest);
      }
    }
  }

  lemma {:induction false} NodeRuns(s: State, node: Node)
    requires s.path != [] && s.rootSeen && Proper(node)
    ensures Run(s, Serialise(node)) ==
            if Fits(node, s.path) && Summaries(node) + Count(s.summarySeen) <= 1
            then Some(s.(summarySeen := s.summarySeen || Summaries(node) > 0)) else None
    decreases node
  {
    match node
    case Element(tag, children) => ElementRuns(s, tag, children);
    case Brief(tag) =>
      hide Run;
      RunFirst(s, Empty(tag), []);
      assert [Empty(tag)] + [] == [Empty(tag)];
      if Step(s, Empty(tag)).Some? {
        RunNothing(Step(s, Empty(tag)).value);
      }
    case Leaf(e) =>
      hide Run;
      RunFirst(s, e, []);
      assert [e] + [] == [e];
      if Step(s, e).Some? {
        RunNothing(Step(s, e).value);
      }
  }

  lemma StartSteps(s: State, tag: Tag)
    requires Rooted(s) && !(s.path == [] && s.rootSeen)
    ensures Step(s, Start(tag)) ==
            if ElementFits(tag, s.path) && |s.path| < MAX_DEPTH && !(tag.name == SUMMARY && s.summarySeen)
            then Some(State(s.path + [tag.name], true, s.declarationSeen, s.summarySeen || tag.name == SUMMARY)) else None
  {}

  lemma ElementShape(tag: Tag, children: seq<Node>, path: seq<string>)
    ensures Fits(Element(tag, children), path) <==>
            ElementFits(tag, path) && |path| < MAX_DEPTH && AllFit(children, path + [tag.name])
    ensures Summaries(Element(tag, children)) == Count(tag.name == SUMMARY) + AllSummaries(children)
    ensures Proper(Element(tag, children)) <==> AllProper(children)
  {}

  lemma EndRuns(s: State, path: seq<string>, name: string)
    requires s.path == path + [name] && s.rootSeen
    ensures Run(s, [End(name)]) == Some(s.(path := path))
  {
    hide Run;
    RunFirst(s, End(name), []);
    assert [End(name)] + [] == [End(name)];
    RunNothing(s.(path := path));
    assert s.path[..|s.path| - 1] == path;
  }

  // An element, at the top or inside the root.
  lemma {:induction false} ElementRuns(s: State, tag: Tag, children: seq<Node>)
    requires Rooted(s) && !(s.path == [] && s.rootSeen) && Proper(Element(tag, children))
    ensures var node := Element(tag, children);
            Run(s, Serialise(node)) ==
            if Fits(node, s.path) && Summaries(node) + Count(s.summarySeen) <= 1
            then Some(s.(rootSeen := true, summarySeen := s.summarySeen || Summaries(node) > 0)) else None
    decreases Element(tag, children), 0
  {
    hide Run, Step, ElementFits, AllSummaries, Summaries, Fits, AllFit, Proper, AllProper, Serialise, SerialiseAll;
    var inside := SerialiseAll(children) + [End(tag.name)];
    SerialiseElement(tag, children);
    ElementShape(tag, children, s.path);
    assert Serialise(Element(tag, children)) == [Start(tag)] + inside;
    RunFirst(s, Start(tag), inside);
    StartSteps(s, tag);
    if Step(s, Start(tag)).Some? {
      var t := Step(s, Start(tag)).value;
      ForestRuns(t, children);
      RunSplit(t, SerialiseAll(children), [End(tag.name)]);
      if Run(t, SerialiseAll(children)).Some? {
        EndRuns(Run(t, SerialiseAll(children)).value, s.path, tag.name);
      }
    }
  }

  lemma LeafRuns(s: State, e: Event)
    requires Rooted(s) && IsLeaf(e)
    ensures Run(s, Serialise(Leaf(e))) == Step(s, e)
  {
    hide Run;
    RunFirst(s, e, []);
    assert [e] + [] == [e];
    if Step(s, e).Some? {
      RunNothing(Step(s, e).value);
    }
  }

  lemma NoSecondRoot(s: State, node: Node)
    requires s.path == [] && s.rootSeen && !node.Leaf?
    ensures Run(s, Serialise(node)) == None
  {
    hide Run, Serialise, SerialiseAll;
    match node
    case Element(tag, children) =>
      SerialiseElement(tag, children);
      assert Serialise(node) == [Start(tag)] + (SerialiseAll(children) + [End(tag.name)]);
      RunFirst(s, Start(tag), SerialiseAll(children) + [End(tag.name)]);
    case Brief(tag) =>
      SerialiseBrief(tag);
      RunFirst(s, Empty(tag), []);
  }

  // After the root only white space and comments are accepted.
  lemma {:induction false} AfterRuns(s: State, forest: seq<Node>)
    requires s.path == [] && s.rootSeen && AllProper(forest)
    ensures Run(s, SerialiseAll(forest)) == if forall node :: node in forest ==> IsMisc(node) then Some(s) else None
    decreases forest
  {
    hide Run, Serialise, SerialiseAll;
    if forest == [] {
      SerialiseNil();
      RunNothing(s);
    } else {
      var first, rest := forest[0], forest[1..];
      assert forest == [first] + rest && first in forest;
      SerialiseFirst(forest);
      RunSplit(s, Serialise(first), SerialiseAll(rest));
      AfterRuns(s, rest);
      if first.Leaf? {
        LeafRuns(s, first.event);
      } else {
        NoSecondRoot(s, first);
      }
    }
  }

  lemma SerialiseBrief(tag: Tag)
    ensures Serialise(Brief(tag)) == [Empty(tag)] + []
  {}

  // Before the root: white space, comments, and one declaration at most.
  lemma {:induction false} BeforeRuns(s: State, forest: seq<Node>)
    requires s.path == [] && !s.rootSeen
    requires forall node :: node in forest ==> IsMisc(node) || node == Leaf(Declaration)
    requires Declarations(forest) + Count(s.declarationSeen) <= 1
    ensures Run(s, SerialiseAll(forest)) == Some(s.(declarationSeen := s.declarationSeen || Declarations(forest) > 0))
    decreases forest
  {
    hide Run, Serialise, SerialiseAll;
    if forest == [] {
      SerialiseNil();
      RunNothing(s);
    } else {
      var first, rest := forest[0], forest[1..];
      assert forest == [first] + rest && first in forest;
      SerialiseFirst(forest);
      LeafRuns(s, first.event);
      RunSplit(s, Serialise(first), SerialiseAll(rest));
      BeforeRuns(Step(s, first.event).value, rest);
    }
  }

  predicate Surrounds(s: State, before: seq<Node>, root: Node, after: seq<Node>) {
    && (forall node :: node in before ==> IsMisc(node) || node == Leaf(Declaration))
    && Declarations(before) + Count(s.declarationSeen) <= 1
    && root.Element? && Proper(root) && Fits(root, []) && Summaries(root) == 1
    && forall node :: node in after ==> IsMisc(node)
  }

  lemma RootSurrounded(s: State, root: Node, after: seq<Node>)
    requires root.Element? && Proper(root) && Fits(root, []) && Summaries(root) == 1
    requires forall node :: node in after ==> IsMisc(node)
    ensures Surrounds(s, [], root, after)
  {}

  lemma LeafSurrounds(s: State, e: Event, before: seq<Node>, root: Node, after: seq<Node>)
    requires s.path == [] && !s.rootSeen && IsLeaf(e) && Step(s, e).Some? && Surrounds(Step(s, e).value, before, root, after)
    ensures Surrounds(s, [Leaf(e)] + before, root, after)
  {
    hide Fits, Summaries, Proper;
    assert ([Leaf(e)] + before)[1..] == before;
  }

  // A root written as an empty-element tag holds no summary.
  lemma BriefRootFails(s: State, tag: Tag, rest: seq<Node>)
    requires s.path == [] && !s.rootSeen && !s.summarySeen && AllProper(rest)
    requires Run(s, Serialise(Brief(tag)) + SerialiseAll(rest)).Some?
    ensures !Run(s, Serialise(Brief(tag)) + SerialiseAll(rest)).value.summarySeen
  {
    hide Run, Serialise, SerialiseAll;
    SerialiseBrief(tag);
    RunSplit(s, Serialise(Brief(tag)), SerialiseAll(rest));
    RunFirst(s, Empty(tag), []);
    RunNothing(Step(s, Empty(tag)).value);
    AfterRuns(Run(s, Serialise(Brief(tag))).value, rest);
  }

  // The root of an accepted forest, and what surrounds it.
  lemma {:induction false} FindRoot(s: State, forest: seq<Node>) returns (before: seq<Node>, root: Node, after: seq<Node>)
    requires s.path == [] && !s.rootSeen && !s.summarySeen && AllProper(forest)
    requires Run(s, SerialiseAll(forest)).Some?
    requires Run(s, SerialiseAll(forest)).value.rootSeen && Run(s, SerialiseAll(forest)).value.summarySeen
    ensures forest == before + [root] + after && Surrounds(s, before, root, after)
    decreases forest
  {
    hide Run, Serialise, SerialiseAll, Fits, Summaries, Proper, Surrounds, AllProper;
    SerialiseNil();
    RunNothing(s);
    var first, rest := forest[0], forest[1..];
    assert forest == [first] + rest;
    SerialiseFirst(forest);
    RunSplit(s, Serialise(first), SerialiseAll(rest));
    match first
    case Element(tag, children) =>
      ElementRuns(s, tag, children);
      AfterRuns(Run(s, Serialise(first)).value, rest);
      before, root, after := [], first, rest;
      RootSurrounded(s, root, after);
    case Brief(tag) => BriefRootFails(s, tag, rest);
    case Leaf(e) =>
      ProperLeafIsLeaf(e);
      LeafRuns(s, e);
      var following;
      following, root, after := FindRoot(Step(s, e).value, rest);
      before := [first] + following;
      LeafSurrounds(s, e, following, root, after);
  }

  lemma ProperLeafIsLeaf(e: Event)
    requires Proper(Leaf(e))
    ensures IsLeaf(e)
  {}

  lemma HealthyIsAccepted(before: seq<Node>, root: Node, after: seq<Node>)
    requires HealthyDocument(before, root, after)
    ensures Accepts(SerialiseAll(before + [root] + after))
  {
    hide Run, Serialise, SerialiseAll, Fits, Summaries;
    var t := Initial.(declarationSeen := Declarations(before) > 0);
    BeforeRuns(Initial, before);
    ElementRuns(t, root.tag, root.children);
    var u := t.(rootSeen := true, summarySeen := true);
    MiscIsProper(after);
    AfterRuns(u, after);
    SerialiseCons(root, after);
    assert before + [root] + after == before + ([root] + after);
    SerialiseSplit(before, [root] + after);
    RunSplit(Initial, SerialiseAll(before), Serialise(root) + SerialiseAll(after));
    RunSplit(t, Serialise(root), SerialiseAll(after));
  }

  lemma MiscIsProper(forest: seq<Node>)
    requires forall node :: node in forest ==> IsMisc(node)
    ensures AllProper(forest)
  {}

  // The loop accepts an event stream exactly when it serialises a healthy document.
  lemma AcceptsExactlyHealthyDocuments(events: seq<Event>)
    ensures Accepts(events) <==>
            exists before, root, after :: HealthyDocument(before, root, after) && events == SerialiseAll(before + [root] + after)
  {
    hide Run, SerialiseAll, HealthyDocument, Nest;
    if Accepts(events) {
      RunNests(Initial, events);
      var forest := WellNestedIsForest(events);
      var before, root, after := FindRoot(Initial, forest);
      FoundIsHealthy(before, root, after);
    }
    forall before, root, after | HealthyDocument(before, root, after) && events == SerialiseAll(before + [root] + after)
      ensures Accepts(events)
    {
      HealthyIsAccepted(before, root, after);
    }
  }

  lemma FoundIsHealthy(before: seq<Node>, root: Node, after: seq<Node>)
    requires Surrounds(Initial, before, root, after)
    ensures HealthyDocument(before, root, after)
  {}
}
