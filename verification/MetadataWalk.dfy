/** The streaming metadata walker: a stack of open elements and a callback on every
    element that closes, against the post-order visit of the element tree. */
module MetadataWalk {
  import opened Wrappers
  import opened Xml
  import Utf8 = Text

  const MAX_XML_BYTES := 2 * 1024 * 1024 * 1024
  const MAX_DEPTH := 32
  const MAX_FIELD := 4096

  datatype Name = Name(ns: string, local: string)

  // An element as the callback sees it: its expanded name, attributes and own text.
  datatype Item = Item(name: Name, attributes: map<string, string>, text: string) {
    predicate Is(ns: string, local: string) {
      name == Name(ns, local)
    }
  }

  // An element closed below its ancestors.
  datatype Visit = Visit(parents: seq<Name>, item: Item)

  // What a callback makes of a closed element; it may refuse.
  type Callback<!S> = (S, Visit) -> Option<S>

  // An open element; `written` is the tag name that the reader's own check expects.
  datatype Open = Open(item: Item, written: string)

  datatype State<S> = State(stack: seq<Open>, roots: nat, value: S)

  // Only the text of identity fields is kept.
  predicate KeepsText(local: string) {
    local in ["name", "arch", "vendor", "checksum", "string", "integer"]
  }

  // `Node::append`
  function Append(item: Item, text: string): Option<Item> {
    if !KeepsText(item.name.local) then Some(item)
    else if Utf8.ByteLength(item.text) + Utf8.ByteLength(text) > MAX_FIELD then None
    else Some(item.(text := item.text + text))
  }

  function Parents(stack: seq<Open>): seq<Name> {
    seq(|stack|, i requires 0 <= i < |stack| => stack[i].item.name)
  }

  predicate GoodTag(tag: Tag) {
    tag.ns.Some? && tag.attributes.Some?
  }

  function ItemOf(tag: Tag): Item {
    Item(Name(tag.ns.GetOr(""), tag.local), tag.attributes.GetOr(map[]), "")
  }

  predicate IsWhite(text: string) {
    forall c :: c in text ==> Utf8.IsWhitespace(c)
  }

  // An element opens: the namespace is bound, the attributes are sound, the root is
  // the expected one and the only one, and the depth is bounded.
  predicate MayOpen<S>(s: State<S>, tag: Tag, root: Name) {
    && GoodTag(tag)
    && (s.stack == [] ==> s.roots == 0 && ItemOf(tag).name == root)
    && |s.stack| < MAX_DEPTH
  }

  function AppendText<S>(s: State<S>, text: string): Option<State<S>> {
    if s.stack == [] then Some(s)
    else
      var top := s.stack[|s.stack| - 1];
      var item := Append(top.item, text);
      if item.None? then None
      else Some(s.(stack := s.stack[..|s.stack| - 1] + [top.(item := item.value)]))
  }

  function Step<S>(s: State<S>, e: Event, root: Name, closed: Callback<S>): Option<State<S>> {
    match e
    case Start(tag) =>
      if !MayOpen(s, tag, root) then None
      else Some(State(s.stack + [Open(ItemOf(tag), tag.name)], if s.stack == [] then s.roots + 1 else s.roots, s.value))
    case Empty(tag) =>
      if !MayOpen(s, tag, root) then None
      else
        var value := closed(s.value, Visit(Parents(s.stack), ItemOf(tag)));
        if value.None? then None
        else Some(State(s.stack, if s.stack == [] then s.roots + 1 else s.roots, value.value))
    case End(name) =>
      if s.stack == [] || s.stack[|s.stack| - 1].written != name then None
      else
        var rest, top := s.stack[..|s.stack| - 1], s.stack[|s.stack| - 1];
        var value := closed(s.value, Visit(Parents(rest), top.item));
        if value.None? then None else Some(State(rest, s.roots, value.value))
    case Text(content) => if s.stack == [] && !IsWhite(content) then None else AppendText(s, content)
    case CData(content) => AppendText(s, content)
    case Reference(resolved) => if resolved.None? then None else AppendText(s, resolved.value)
    case DocType => None
    case Malformed => None
    case _ => Some(s)
  }

  function Run<S>(s: State<S>, events: seq<Event>, root: Name, closed: Callback<S>): Option<State<S>>
    decreases |events|
  {
    if events == [] then Some(s)
    else
      var next := Step(s, events[0], root, closed);
      if next.None? then None else Run(next.value, events[1..], root, closed)
  }

  // What a walk leaves, or none if anything was refused.
  function Outcome<S>(events: seq<Event>, size: nat, root: Name, initial: S, closed: Callback<S>): Option<S> {
    var end := Run(State([], 0, initial), events, root, closed);
    if end.Some? && end.value.roots == 1 && end.value.stack == [] && size < MAX_XML_BYTES then Some(end.value.value) else None
  }

  lemma RunFirst<S>(s: State<S>, e: Event, rest: seq<Event>, root: Name, closed: Callback<S>)
    ensures Run(s, [e] + rest, root, closed) ==
            if Step(s, e, root, closed).None? then None else Run(Step(s, e, root, closed).value, rest, root, closed)
  {
    assert ([e] + rest)[1..] == rest;
  }

  lemma RunNothing<S>(s: State<S>, root: Name, closed: Callback<S>)
    ensures Run(s, [], root, closed) == Some(s)
  {}

  lemma RunOne<S>(s: State<S>, e: Event, root: Name, closed: Callback<S>)
    ensures Run(s, [e], root, closed) == Step(s, e, root, closed)
  {
    hide Run, Step;
    RunFirst(s, e, [], root, closed);
    assert [e] + [] == [e];
    if Step(s, e, root, closed).Some? {
      RunNothing(Step(s, e, root, closed).value, root, closed);
    }
  }

  lemma {:induction false} RunSplit<S>(s: State<S>, a: seq<Event>, b: seq<Event>, root: Name, closed: Callback<S>)
    ensures Run(s, a + b, root, closed) ==
            if Run(s, a, root, closed).None? then None else Run(Run(s, a, root, closed).value, b, root, closed)
    decreases |a|
  {
    hide Run, Step;
    if a == [] {
      assert a + b == b;
      RunNothing(s, root, closed);
    } else {
      var e, tail := a[0], a[1..];
      assert a == [e] + tail && a + b == [e] + (tail + b);
      RunFirst(s, e, tail, root, closed);
      RunFirst(s, e, tail + b, root, closed);
      if Step(s, e, root, closed).Some? {
        RunSplit(Step(s, e, root, closed).value, tail, b, root, closed);
      }
    }
  }

  // `walk`
  method Walk<S>(events: seq<Event>, size: nat, root: Name, initial: S, closed: Callback<S>) returns (r: Option<S>)
    ensures r == Outcome(events, size, root, initial, closed)
  {
    var stack: seq<Open>, roots, value := [], 0, initial;
    for i := 0 to |events|
      invariant Run(State([], 0, initial), events, root, closed) == Run(State(stack, roots, value), events[i..], root, closed)
    {
      hide Run, AppendText;
      var e := events[i];
      ghost var before := State(stack, roots, value);
      assert events[i..] == [e] + events[i + 1..];
      RunFirst(before, e, events[i + 1..], root, closed);
      match e {
        case Start(tag) =>
          if !MayOpen(State(stack, roots, value), tag, root) {
            return None;
          }
          if stack == [] {
            roots := roots + 1;
          }
          stack := stack + [Open(ItemOf(tag), tag.name)];
        case Empty(tag) =>
          if !MayOpen(State(stack, roots, value), tag, root) {
            return None;
          }
          if stack == [] {
            roots := roots + 1;
          }
          var result := closed(value, Visit(Parents(stack), ItemOf(tag)));
          if result.None? {
            return None;
          }
          value := result.value;
        case End(name) =>
          if stack == [] || stack[|stack| - 1].written != name {
            return None;
          }
          var top := stack[|stack| - 1];
          stack := stack[..|stack| - 1];
          var result := closed(value, Visit(Parents(stack), top.item));
          if result.None? {
            return None;
          }
          value := result.value;
        case Text(content) =>
          var next := AppendText(State(stack, roots, value), content);
          if (stack == [] && !IsWhite(content)) || next.None? {
            return None;
          }
          stack, roots, value := next.value.stack, next.value.roots, next.value.value;
        case CData(content) =>
          var next := AppendText(State(stack, roots, value), content);
          if next.None? {
            return None;
          }
          stack, roots, value := next.value.stack, next.value.roots, next.value.value;
        case Reference(resolved) =>
          if resolved.None? {
            return None;
          }
          var next := AppendText(State(stack, roots, value), resolved.value);
          if next.None? {
            return None;
          }
          stack, roots, value := next.value.stack, next.value.roots, next.value.value;
        case DocType => return None;
        case Malformed => return None;
        case _ =>
      }
      assert Step(before, e, root, closed) == Some(State(stack, roots, value));
    }
    assert events[|events|..] == [];
    if roots != 1 || stack != [] || size >= MAX_XML_BYTES {
      return None;
    }
    r := Some(value);
  }

  // --------------------------------------------------------------------- on the tree

  // What a node adds to the text of the element around it.
  function Contribution(node: Node): string {
    if !node.Leaf? then ""
    else
      match node.event
      case Text(content) => content
      case CData(content) => content
      case Reference(resolved) => resolved.GetOr("")
      case _ => ""
  }

  function OwnText(forest: seq<Node>): string {
    if forest == [] then "" else Contribution(forest[0]) + OwnText(forest[1..])
  }

  function ClosedItem(tag: Tag, children: seq<Node>): Item {
    ItemOf(tag).(text := if KeepsText(tag.local) then OwnText(children) else "")
  }

  // The elements of a tree in post-order, each with exactly its ancestors.
  function Visits(node: Node, parents: seq<Name>): seq<Visit> {
    match node
    case Element(tag, children) =>
      AllVisits(children, parents + [ItemOf(tag).name]) + [Visit(parents, ClosedItem(tag, children))]
    case Brief(tag) => [Visit(parents, ItemOf(tag))]
    case Leaf(_) => []
  }

  function AllVisits(forest: seq<Node>, parents: seq<Name>): seq<Visit> {
    if forest == [] then [] else Visits(forest[0], parents) + AllVisits(forest[1..], parents)
  }

  function Fold<S>(value: S, visits: seq<Visit>, closed: Callback<S>): Option<S> {
    if visits == [] then Some(value)
    else
      var next := closed(value, visits[0]);
      if next.None? then None else Fold(next.value, visits[1..], closed)
  }

  // Within the limits: bound namespaces, sound attributes, bounded depth and fields.
  predicate Fits(node: Node, depth: nat) {
    match node
    case Element(tag, children) =>
      && GoodTag(tag) && depth < MAX_DEPTH
      && (KeepsText(tag.local) ==> Utf8.ByteLength(OwnText(children)) <= MAX_FIELD)
      && forall child :: child in children ==> Fits(child, depth + 1)
    case Brief(tag) => GoodTag(tag) && depth < MAX_DEPTH
    case Leaf(e) => !e.DocType? && !e.Malformed? && (e.Reference? ==> e.resolved.Some?)
  }

  predicate AllFit(forest: seq<Node>, depth: nat) {
    forall node :: node in forest ==> Fits(node, depth)
  }

  // ------------------------------------------------------- the walk refines the visit

  lemma {:induction false} BytesAdd(a: string, b: string)
    ensures Utf8.ByteLength(a + b) == Utf8.ByteLength(a) + Utf8.ByteLength(b)
  {
    if b == "" {
      assert a + b == a;
    } else {
      BytesAdd(a, b[..|b| - 1]);
      assert (a + b)[..|a + b| - 1] == a + b[..|b| - 1];
    }
  }

  lemma FoldFirst<S>(value: S, visit: Visit, rest: seq<Visit>, closed: Callback<S>)
    ensures Fold(value, [visit] + rest, closed) ==
            if closed(value, visit).None? then None else Fold(closed(value, visit).value, rest, closed)
  {
    assert ([visit] + rest)[1..] == rest;
  }

  lemma FoldNothing<S>(value: S, closed: Callback<S>)
    ensures Fold(value, [], closed) == Some(value)
  {}

  lemma FoldOne<S>(value: S, visit: Visit, closed: Callback<S>)
    ensures Fold(value, [visit], closed) == closed(value, visit)
  {
    FoldFirst(value, visit, [], closed);
    assert [visit] + [] == [visit];
  }

  lemma {:induction false} FoldSplit<S>(value: S, a: seq<Visit>, b: seq<Visit>, closed: Callback<S>)
    ensures Fold(value, a + b, closed) ==
            if Fold(value, a, closed).None? then None else Fold(Fold(value, a, closed).value, b, closed)
    decreases |a|
  {
    hide Fold;
    if a == [] {
      assert a + b == b;
      FoldNothing(value, closed);
    } else {
      var rest := a[1..];
      assert a == [a[0]] + rest && a + b == [a[0]] + (rest + b);
      FoldFirst(value, a[0], rest, closed);
      FoldFirst(value, a[0], rest + b, closed);
      if closed(value, a[0]).Some? {
        FoldSplit(closed(value, a[0]).value, rest, b, closed);
      }
    }
  }

  // The top of the stack with more text.
  function WithText(open: Open, text: string): Open {
    if KeepsText(open.item.name.local) then open.(item := open.item.(text := open.item.text + text)) else open
  }

  predicate HasRoom(open: Open, text: string) {
    KeepsText(open.item.name.local) ==> Utf8.ByteLength(open.item.text) + Utf8.ByteLength(text) <= MAX_FIELD
  }

  function Top<S>(s: State<S>): Open
    requires s.stack != []
  {
    s.stack[|s.stack| - 1]
  }

  function Replaced<S>(s: State<S>, top: Open, value: S): State<S>
    requires s.stack != []
  {
    State(s.stack[..|s.stack| - 1] + [top], s.roots, value)
  }

  // The result of walking a forest inside an element.
  function Walked<S>(s: State<S>, text: string, fits: bool, folded: Option<S>): Option<State<S>>
    requires s.stack != []
  {
    if fits && HasRoom(Top(s), text) && folded.Some? then Some(Replaced(s, WithText(Top(s), text), folded.value)) else None
  }

  lemma ParentsStay<S>(s: State<S>, top: Open, value: S)
    requires s.stack != [] && top.item.name == Top(s).item.name
    ensures Parents(Replaced(s, top, value).stack) == Parents(s.stack)
  {}

  lemma LeafWalks<S>(s: State<S>, e: Event, root: Name, closed: Callback<S>)
    requires s.stack != [] && IsLeaf(e) && HasRoom(Top(s), "")
    ensures Run(s, Serialise(Leaf(e)), root, closed) ==
            Walked(s, Contribution(Leaf(e)), Fits(Leaf(e), |s.stack|), Some(s.value))
  {
    hide Run;
    RunOne(s, e, root, closed);
    assert s.stack == s.stack[..|s.stack| - 1] + [Top(s)];
    assert Top(s).item.text + "" == Top(s).item.text;
    assert Utf8.ByteLength("") == 0;
  }

  lemma NoBytes()
    ensures Utf8.ByteLength("") == 0
  {}

  lemma WalkedTwice<S>(s: State<S>, c: string, d: string, f: bool, g: bool, v: Option<S>, w: Option<S>)
    requires s.stack != []
    ensures Walked(s, c, f, v).None? ==> Walked(s, c + d, f && g, if v.None? then None else w) == None
    ensures Walked(s, c, f, v).Some? ==>
              var t := Walked(s, c, f, v).value;
              && f && v.Some? && t.stack != [] && t.value == v.value && Parents(t.stack) == Parents(s.stack)
              && |t.stack| == |s.stack| && HasRoom(Top(t), "")
              && Walked(t, d, g, w) == Walked(s, c + d, f && g, w)
  {
    hide Utf8.ByteLength, KeepsText, Parents;
    BytesAdd(c, d);
    BytesAdd(Top(s).item.text, c);
    NoBytes();
    assert Top(s).item.text + c + d == Top(s).item.text + (c + d);
    if Walked(s, c, f, v).Some? {
      ParentsStay(s, WithText(Top(s), c), v.value);
    }
  }

  lemma WalkedNothing<S>(s: State<S>)
    requires s.stack != [] && HasRoom(Top(s), "")
    ensures Walked(s, "", true, Some(s.value)) == Some(s)
  {
    assert s.stack == s.stack[..|s.stack| - 1] + [Top(s)];
    assert Top(s).item.text + "" == Top(s).item.text;
  }

  lemma {:induction false} ForestWalks<S>(s: State<S>, forest: seq<Node>, root: Name, closed: Callback<S>)
    requires s.stack != [] && AllProper(forest) && HasRoom(Top(s), "")
    ensures Run(s, SerialiseAll(forest), root, closed) ==
            Walked(s, OwnText(forest), AllFit(forest, |s.stack|), Fold(s.value, AllVisits(forest, Parents(s.stack)), closed))
    decreases forest
  {
    hide Run, Step, Fits, Serialise, SerialiseAll, Proper, Fold, Visits, Walked, HasRoom, Top;
    if forest == [] {
      SerialiseNil();
      RunNothing(s, root, closed);
      FoldNothing(s.value, closed);
      WalkedNothing(s);
    } else {
      var first, rest := forest[0], forest[1..];
      assert forest == [first] + rest;
      SerialiseFirst(forest);
      RunSplit(s, Serialise(first), SerialiseAll(rest), root, closed);
      NodeWalks(s, first, root, closed);
      var v := Fold(s.value, Visits(first, Parents(s.stack)), closed);
      var w := if v.None? then None else Fold(v.value, AllVisits(rest, Parents(s.stack)), closed);
      FoldSplit(s.value, Visits(first, Parents(s.stack)), AllVisits(rest, Parents(s.stack)), closed);
      assert AllFit(forest, |s.stack|) <==> Fits(first, |s.stack|) && AllFit(rest, |s.stack|);
      WalkedTwice(s, Contribution(first), OwnText(rest), Fits(first, |s.stack|), AllFit(rest, |s.stack|), v, w);
      if Run(s, Serialise(first), root, closed).Some? {
        ForestWalks(Run(s, Serialise(first), root, closed).value, rest, root, closed);
      }
    }
  }

  lemma {:induction false} NodeWalks<S>(s: State<S>, node: Node, root: Name, closed: Callback<S>)
    requires s.stack != [] && Proper(node) && HasRoom(Top(s), "")
    ensures Run(s, Serialise(node), root, closed) ==
            Walked(s, Contribution(node), Fits(node, |s.stack|), Fold(s.value, Visits(node, Parents(s.stack)), closed))
    decreases node
  {
    assert s.stack == s.stack[..|s.stack| - 1] + [Top(s)];
    assert Top(s).item.text + "" == Top(s).item.text;
    match node
    case Leaf(e) =>
      hide Run, Step, Fold;
      LeafWalks(s, e, root, closed);
      FoldNothing(s.value, closed);
    case Brief(tag) =>
      hide Run, Fold;
      RunOne(s, Empty(tag), root, closed);
      FoldOne(s.value, Visit(Parents(s.stack), ItemOf(tag)), closed);
    case Element(tag, children) => ElementWalks(s, tag, children, root, closed);
  }

  // An element, at the top or inside the root.
  lemma {:induction false} ElementWalks<S>(s: State<S>, tag: Tag, children: seq<Node>, root: Name, closed: Callback<S>)
    requires Proper(Element(tag, children)) && (s.stack == [] ==> s.roots == 0 && ItemOf(tag).name == root)
    ensures var node := Element(tag, children);
            var folded := Fold(s.value, Visits(node, Parents(s.stack)), closed);
            Run(s, Serialise(node), root, closed) ==
            if Fits(node, |s.stack|) && folded.Some?
            then Some(State(s.stack, if s.stack == [] then 1 else s.roots, folded.value)) else None
    decreases Element(tag, children), 0
  {
    hide Run, Step, Fold, AllVisits, Fits, Serialise, SerialiseAll, Proper, AllProper;
    var inside := SerialiseAll(children) + [End(tag.name)];
    SerialiseElement(tag, children);
    assert Serialise(Element(tag, children)) == [Start(tag)] + inside;
    RunFirst(s, Start(tag), inside, root, closed);
    ElementShape(s, tag, children, root, closed);
    if Step(s, Start(tag), root, closed).Some? {
      var t := Step(s, Start(tag), root, closed).value;
      assert Utf8.ByteLength("") == 0;
      ForestWalks(t, children, root, closed);
      RunSplit(t, SerialiseAll(children), [End(tag.name)], root, closed);
      OpenedParents(s, tag);
      assert "" + OwnText(children) == OwnText(children);
      var inner := AllVisits(children, Parents(s.stack) + [ItemOf(tag).name]);
      FoldSplit(s.value, inner, [Visit(Parents(s.stack), ClosedItem(tag, children))], closed);
      if Run(t, SerialiseAll(children), root, closed).Some? {
        var u := Run(t, SerialiseAll(children), root, closed).value;
        FoldOne(u.value, Visit(Parents(s.stack), ClosedItem(tag, children)), closed);
        assert u.stack == s.stack + [Open(ClosedItem(tag, children), tag.name)];
        EndWalks(u, s.stack, ClosedItem(tag, children), tag.name, root, closed);
      }
    }
  }

  lemma OpenedParents<S>(s: State<S>, tag: Tag)
    ensures Parents(s.stack + [Open(ItemOf(tag), tag.name)]) == Parents(s.stack) + [ItemOf(tag).name]
  {}

  lemma ElementShape<S>(s: State<S>, tag: Tag, children: seq<Node>, root: Name, closed: Callback<S>)
    requires s.stack == [] ==> s.roots == 0 && ItemOf(tag).name == root
    ensures Step(s, Start(tag), root, closed) ==
            if GoodTag(tag) && |s.stack| < MAX_DEPTH
            then Some(State(s.stack + [Open(ItemOf(tag), tag.name)], if s.stack == [] then 1 else s.roots, s.value)) else None
    ensures Fits(Element(tag, children), |s.stack|) <==>
            && GoodTag(tag) && |s.stack| < MAX_DEPTH && AllFit(children, |s.stack| + 1)
            && (KeepsText(tag.local) ==> Utf8.ByteLength(OwnText(children)) <= MAX_FIELD)
    ensures Proper(Element(tag, children)) <==> AllProper(children)
  {}

  lemma EndWalks<S>(u: State<S>, stack: seq<Open>, item: Item, name: string, root: Name, closed: Callback<S>)
    requires u.stack == stack + [Open(item, name)]
    ensures Run(u, [End(name)], root, closed) ==
            var value := closed(u.value, Visit(Parents(stack), item));
            if value.None? then None else Some(State(stack, u.roots, value.value))
  {
    hide Run;
    RunOne(u, End(name), root, closed);
    assert u.stack[..|u.stack| - 1] == stack;
  }

  // -------------------------------------------------------------------- whole documents

  // Around the root: white space, character data that is ignored, resolvable
  // references, comments, instructions and declarations.
  predicate IsAround(node: Node) {
    && node.Leaf? && IsLeaf(node.event)
    && (node.event.Text? ==> IsWhite(node.event.content))
    && (node.event.Reference? ==> node.event.resolved.Some?)
    && !node.event.DocType? && !node.event.Malformed?
  }

  // One root of the expected name, within the limits.
  predicate WalkableDocument(before: seq<Node>, top: Node, after: seq<Node>, root: Name) {
    && (forall node :: node in before ==> IsAround(node)) && (forall node :: node in after ==> IsAround(node))
    && !top.Leaf? && Proper(top) && Fits(top, 0) && ItemOf(top.tag).name == root
  }

  lemma AroundSteps<S>(s: State<S>, node: Node, root: Name, closed: Callback<S>)
    requires s.stack == [] && node.Leaf? && IsLeaf(node.event)
    ensures Run(s, Serialise(node), root, closed) == if IsAround(node) then Some(s) else None
  {
    hide Run;
    RunOne(s, node.event, root, closed);
  }

  lemma {:induction false} AroundRuns<S>(s: State<S>, forest: seq<Node>, root: Name, closed: Callback<S>)
    requires s.stack == [] && forall node :: node in forest ==> IsAround(node)
    ensures Run(s, SerialiseAll(forest), root, closed) == Some(s)
    decreases forest
  {
    hide Run, Serialise, SerialiseAll;
    if forest == [] {
      SerialiseNil();
      RunNothing(s, root, closed);
    } else {
      assert forest[0] in forest;
      SerialiseFirst(forest);
      AroundSteps(s, forest[0], root, closed);
      RunSplit(s, Serialise(forest[0]), SerialiseAll(forest[1..]), root, closed);
      AroundRuns(s, forest[1..], root, closed);
    }
  }

  lemma TopWalks<S>(s: State<S>, top: Node, root: Name, closed: Callback<S>)
    requires s.stack == [] && s.roots == 0 && !top.Leaf? && Proper(top)
    ensures var folded := Fold(s.value, Visits(top, []), closed);
            Run(s, Serialise(top), root, closed) ==
            if ItemOf(top.tag).name == root && Fits(top, 0) && folded.Some?
            then Some(State([], 1, folded.value)) else None
  {
    hide Run, Fold;
    assert Parents(s.stack) == [];
    match top
    case Element(tag, children) =>
      if ItemOf(tag).name == root {
        ElementWalks(s, tag, children, root, closed);
      } else {
        SerialiseElement(tag, children);
        assert Serialise(top) == [Start(tag)] + (SerialiseAll(children) + [End(tag.name)]);
        RunFirst(s, Start(tag), SerialiseAll(children) + [End(tag.name)], root, closed);
      }
    case Brief(tag) =>
      RunOne(s, Empty(tag), root, closed);
      FoldOne(s.value, Visit([], ItemOf(tag)), closed);
  }

  lemma NoSecondRoot<S>(s: State<S>, node: Node, root: Name, closed: Callback<S>)
    requires s.stack == [] && s.roots == 1 && !node.Leaf?
    ensures Run(s, Serialise(node), root, closed) == None
  {
    hide Run;
    match node
    case Element(tag, children) =>
      SerialiseElement(tag, children);
      assert Serialise(node) == [Start(tag)] + (SerialiseAll(children) + [End(tag.name)]);
      RunFirst(s, Start(tag), SerialiseAll(children) + [End(tag.name)], root, closed);
    case Brief(tag) => RunOne(s, Empty(tag), root, closed);
  }

  lemma {:induction false} AfterRuns<S>(s: State<S>, forest: seq<Node>, root: Name, closed: Callback<S>)
    requires s.stack == [] && s.roots == 1 && AllProper(forest) && Run(s, SerialiseAll(forest), root, closed).Some?
    ensures forall node :: node in forest ==> IsAround(node)
    decreases forest
  {
    hide Run, Serialise, SerialiseAll;
    if forest != [] {
      var first, rest := forest[0], forest[1..];
      assert forest == [first] + rest;
      SerialiseFirst(forest);
      RunSplit(s, Serialise(first), SerialiseAll(rest), root, closed);
      if first.Leaf? {
        AroundSteps(s, first, root, closed);
      } else {
        NoSecondRoot(s, first, root, closed);
      }
      AfterRuns(s, rest, root, closed);
    }
  }

  // The root of an accepted forest, and the value it leaves.
  lemma {:induction false} FindTop<S>(s: State<S>, forest: seq<Node>, root: Name, closed: Callback<S>)
    returns (before: seq<Node>, top: Node, after: seq<Node>)
    requires s.stack == [] && s.roots == 0 && AllProper(forest)
    requires Run(s, SerialiseAll(forest), root, closed).Some? && Run(s, SerialiseAll(forest), root, closed).value.roots == 1
    ensures forest == before + [top] + after && WalkableDocument(before, top, after, root)
    ensures Fold(s.value, Visits(top, []), closed) == Some(Run(s, SerialiseAll(forest), root, closed).value.value)
    decreases forest
  {
    hide Run, Serialise, SerialiseAll, Fits, Fold, Visits, Proper, IsAround;
    SerialiseNil();
    RunNothing(s, root, closed);
    var first, rest := forest[0], forest[1..];
    assert forest == [first] + rest;
    SerialiseFirst(forest);
    RunSplit(s, Serialise(first), SerialiseAll(rest), root, closed);
    if first.Leaf? {
      ProperLeafIsLeaf(first);
      AroundSteps(s, first, root, closed);
      var following;
      following, top, after := FindTop(s, rest, root, closed);
      before := [first] + following;
    } else {
      TopWalks(s, first, root, closed);
      var t := Run(s, Serialise(first), root, closed).value;
      AfterRuns(t, rest, root, closed);
      AroundRuns(t, rest, root, closed);
      before, top, after := [], first, rest;
    }
  }

  lemma ProperLeafIsLeaf(node: Node)
    requires Proper(node) && node.Leaf?
    ensures IsLeaf(node.event)
  {}

  lemma {:induction false} RunNests<S>(s: State<S>, events: seq<Event>, root: Name, closed: Callback<S>)
    requires Run(s, events, root, closed).Some?
    ensures Nest(Written(s.stack), events) == Some(Written(Run(s, events, root, closed).value.stack))
    decreases |events|
  {
    hide Run, Nest;
    if events == [] {
      RunNothing(s, root, closed);
      NestNothing(Written(s.stack));
    } else {
      var e, tail := events[0], events[1..];
      assert events == [e] + tail;
      RunFirst(s, e, tail, root, closed);
      NestFirst(Written(s.stack), e, tail);
      StepNests(s, e, root, closed);
      RunNests(Step(s, e, root, closed).value, tail, root, closed);
    }
  }

  function Written(stack: seq<Open>): seq<string> {
    seq(|stack|, i requires 0 <= i < |stack| => stack[i].written)
  }

  lemma StepNests<S>(s: State<S>, e: Event, root: Name, closed: Callback<S>)
    requires Step(s, e, root, closed).Some?
    ensures var t, open := Step(s, e, root, closed).value, Written(s.stack);
            Written(t.stack) ==
            if e.Start? then open + [e.tag.name] else if e.End? && open != [] then open[..|open| - 1] else open
    ensures e.End? ==> s.stack != [] && s.stack[|s.stack| - 1].written == e.name
  {
    hide Utf8.ByteLength, KeepsText, Parents;
  }

  // The walk calls its callback once for every element, in post-order and with exactly
  // its ancestors: it ends with a value if and only if the stream serialises a document
  // within the limits on whose visits the callback, folded, yields that value.
  lemma WalkRefinesVisit<S>(events: seq<Event>, size: nat, root: Name, initial: S, closed: Callback<S>, value: S)
    ensures Outcome(events, size, root, initial, closed) == Some(value) <==>
            && size < MAX_XML_BYTES
            && exists before, top, after :: && WalkableDocument(before, top, after, root)
                                            && events == SerialiseAll(before + [top] + after)
                                            && Fold(initial, Visits(top, []), closed) == Some(value)
  {
    hide Run, SerialiseAll, WalkableDocument, Fold, Visits, Nest;
    var s := State([], 0, initial);
    if Outcome(events, size, root, initial, closed) == Some(value) {
      RunNests(s, events, root, closed);
      assert Written(s.stack) == [] && Written(Run(s, events, root, closed).value.stack) == [];
      var forest := WellNestedIsForest(events);
      var before, top, after := FindTop(s, forest, root, closed);
    }
    if size < MAX_XML_BYTES {
      forall before, top, after | && WalkableDocument(before, top, after, root)
                                  && events == SerialiseAll(before + [top] + after)
                                  && Fold(initial, Visits(top, []), closed) == Some(value)
        ensures Outcome(events, size, root, initial, closed) == Some(value)
      {
        DocumentWalks(s, before, top, after, root, closed);
      }
    }
  }

  lemma DocumentWalks<S>(s: State<S>, before: seq<Node>, top: Node, after: seq<Node>, root: Name, closed: Callback<S>)
    requires s.stack == [] && s.roots == 0 && WalkableDocument(before, top, after, root)
    requires Fold(s.value, Visits(top, []), closed).Some?
    ensures Run(s, SerialiseAll(before + [top] + after), root, closed)
            == Some(State([], 1, Fold(s.value, Visits(top, []), closed).value))
  {
    hide Run, Serialise, SerialiseAll, Fold, Visits, Fits, Proper, IsAround;
    AroundRuns(s, before, root, closed);
    TopWalks(s, top, root, closed);
    var t := State([], 1, Fold(s.value, Visits(top, []), closed).value);
    AroundRuns(t, after, root, closed);
    SerialiseCons(top, after);
    assert before + [top] + after == before + ([top] + after);
    SerialiseSplit(before, [top] + after);
    RunSplit(s, SerialiseAll(before), Serialise(top) + SerialiseAll(after), root, closed);
    RunSplit(s, Serialise(top), SerialiseAll(after), root, closed);
  }
}
