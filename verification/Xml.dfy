/** XML as an event stream and as a tree (section 3 of XML 1.0): what it means that a
    stream serialises a forest, and that every well-nested stream does. */
module Xml {
  import opened Wrappers

  // A tag as the reader resolves it: its name as written, its namespace unless the
  // prefix is not bound, its local name, its attributes unless one is malformed.
  datatype Tag = Tag(name: string, ns: Option<string>, local: string, attributes: Option<map<string, string>>)

  datatype Event =
    | Start(tag: Tag) | Empty(tag: Tag) | End(name: string)
    | Text(content: string) | CData(content: string) | Reference(resolved: Option<string>)
    | Declaration | Comment | Instruction | DocType | Malformed

  predicate IsLeaf(e: Event) {
    !e.Start? && !e.Empty? && !e.End?
  }

  datatype Node =
    | Element(tag: Tag, children: seq<Node>)
    | Brief(tag: Tag)       // written as an empty-element tag
    | Leaf(event: Event)

  function Serialise(node: Node): seq<Event> {
    match node
    case Element(tag, children) => [Start(tag)] + SerialiseAll(children) + [End(tag.name)]
    case Brief(tag) => [Empty(tag)]
    case Leaf(e) => [e]
  }

  function SerialiseAll(forest: seq<Node>): seq<Event> {
    if forest == [] then [] else Serialise(forest[0]) + SerialiseAll(forest[1..])
  }

  // Leaves carry no tags.
  predicate Proper(node: Node) {
    match node
    case Element(_, children) => forall child :: child in children ==> Proper(child)
    case Brief(_) => true
    case Leaf(e) => IsLeaf(e)
  }

  predicate AllProper(forest: seq<Node>) {
    forall node :: node in forest ==> Proper(node)
  }

  // The open elements after some events, or none if an end tag does not match.
  function Nest(open: seq<string>, events: seq<Event>): Option<seq<string>>
    decreases |events|
  {
    if events == [] then Some(open)
    else
      match events[0]
      case Start(tag) => Nest(open + [tag.name], events[1..])
      case End(name) =>
        if open == [] || open[|open| - 1] != name then None else Nest(open[..|open| - 1], events[1..])
      case _ => Nest(open, events[1..])
  }

  lemma SerialiseCons(node: Node, rest: seq<Node>)
    ensures SerialiseAll([node] + rest) == Serialise(node) + SerialiseAll(rest)
    ensures AllProper([node] + rest) <==> Proper(node) && AllProper(rest)
  {
    assert ([node] + rest)[1..] == rest;
  }

  lemma SerialiseNil()
    ensures SerialiseAll([]) == [] && AllProper([])
  {}

  lemma SerialiseFirst(forest: seq<Node>)
    requires forest != []
    ensures SerialiseAll(forest) == Serialise(forest[0]) + SerialiseAll(forest[1..])
    ensures AllProper(forest) <==> Proper(forest[0]) && AllProper(forest[1..])
  {
    SerialiseCons(forest[0], forest[1..]);
    assert [forest[0]] + forest[1..] == forest;
  }

  lemma {:induction false} SerialiseSplit(a: seq<Node>, b: seq<Node>)
    ensures SerialiseAll(a + b) == SerialiseAll(a) + SerialiseAll(b)
  {
    hide Serialise, SerialiseAll;
    if a == [] {
      assert a + b == b;
      SerialiseNil();
    } else {
      SerialiseSplit(a[1..], b);
      SerialiseFirst(a);
      assert a + b == [a[0]] + (a[1..] + b);
      SerialiseCons(a[0], a[1..] + b);
    }
  }

  lemma NestFirst(open: seq<string>, e: Event, rest: seq<Event>)
    ensures e.Start? ==> Nest(open, [e] + rest) == Nest(open + [e.tag.name], rest)
    ensures e.End? ==>
              Nest(open, [e] + rest) ==
              if open == [] || open[|open| - 1] != e.name then None else Nest(open[..|open| - 1], rest)
    ensures !e.Start? && !e.End? ==> Nest(open, [e] + rest) == Nest(open, rest)
  {
    assert ([e] + rest)[1..] == rest;
  }

  lemma NestNothing(open: seq<string>)
    ensures Nest(open, []) == Some(open)
  {}

  // Between elements nothing is left open, so a stream up to an unmatched end tag, or
  // to the end, serialises a forest.
  lemma {:induction false} Parse(open: seq<string>, events: seq<Event>, end: seq<string>)
    returns (forest: seq<Node>, rest: seq<Event>)
    requires Nest(open, events) == Some(end) && |end| <= |open|
    ensures events == SerialiseAll(forest) + rest && AllProper(forest)
    ensures (rest == [] || rest[0].End?) && Nest(open, rest) == Some(end)
    decreases |events|, 0
  {
    hide Proper, AllProper, Serialise, SerialiseAll, Nest;
    if events == [] || events[0].End? {
      forest, rest := [], events;
      SerialiseNil();
    } else {
      var e, tail := events[0], events[1..];
      assert events == [e] + tail;
      NestFirst(open, e, tail);
      if e.Start? {
        forest, rest := ParseElement(open, e.tag, tail, end);
      } else {
        var node := if e.Empty? then Brief(e.tag) else Leaf(e);
        var siblings;
        siblings, rest := Parse(open, tail, end);
        forest := [node] + siblings;
        SerialiseCons(node, siblings);
        ProperLeaf(e);
      }
    }
  }

  lemma {:induction false} ParseElement(open: seq<string>, tag: Tag, tail: seq<Event>, end: seq<string>)
    returns (forest: seq<Node>, rest: seq<Event>)
    requires Nest(open + [tag.name], tail) == Some(end) && |end| <= |open|
    ensures [Start(tag)] + tail == SerialiseAll(forest) + rest && AllProper(forest)
    ensures (rest == [] || rest[0].End?) && Nest(open, rest) == Some(end)
    decreases |tail|, 1
  {
    hide Proper, AllProper, Serialise, SerialiseAll, Nest;
    var children, after := Parse(open + [tag.name], tail, end);
    NestNothing(open + [tag.name]);
    assert after != [];
    var behind := after[1..];
    assert after == [after[0]] + behind;
    NestFirst(open + [tag.name], after[0], behind);
    assert (open + [tag.name])[..|open|] == open;
    var siblings;
    siblings, rest := Parse(open, behind, end);
    forest := [Element(tag, children)] + siblings;
    SerialiseCons(Element(tag, children), siblings);
    SerialiseElement(tag, children);
    ProperElement(tag, children);
  }

  lemma SerialiseElement(tag: Tag, children: seq<Node>)
    ensures Serialise(Element(tag, children)) == [Start(tag)] + SerialiseAll(children) + [End(tag.name)]
  {}

  lemma ProperElement(tag: Tag, children: seq<Node>)
    requires AllProper(children)
    ensures Proper(Element(tag, children))
  {}

  lemma ProperLeaf(e: Event)
    requires !e.Start? && !e.End?
    ensures var node := if e.Empty? then Brief(e.tag) else Leaf(e);
            Proper(node) && Serialise(node) == [e]
  {}

  // Every well-nested stream serialises a forest.
  lemma WellNestedIsForest(events: seq<Event>) returns (forest: seq<Node>)
    requires Nest([], events) == Some([])
    ensures events == SerialiseAll(forest) && AllProper(forest)
  {
    var rest;
    forest, rest := Parse([], events, []);
    assert rest == [];
  }

  lemma {:induction false} NestSplit(open: seq<string>, a: seq<Event>, b: seq<Event>)
    ensures Nest(open, a + b) == if Nest(open, a).None? then None else Nest(Nest(open, a).value, b)
    decreases |a|
  {
    hide Nest;
    if a == [] {
      assert a + b == b;
      NestNothing(open);
    } else {
      var e, tail := a[0], a[1..];
      assert a == [e] + tail && a + b == [e] + (tail + b);
      NestFirst(open, e, tail);
      NestFirst(open, e, tail + b);
      match e
      case Start(tag) => NestSplit(open + [tag.name], tail, b);
      case End(name) =>
        if open != [] && open[|open| - 1] == name {
          NestSplit(open[..|open| - 1], tail, b);
        }
      case _ => NestSplit(open, tail, b);
    }
  }

  // A forest leaves open what was open.
  lemma {:induction false} ForestNests(open: seq<string>, forest: seq<Node>)
    requires AllProper(forest)
    ensures Nest(open, SerialiseAll(forest)) == Some(open)
    decreases forest
  {
    hide Nest, Serialise, SerialiseAll, Proper;
    if forest == [] {
      SerialiseNil();
      NestNothing(open);
    } else {
      NodeNests(open, forest[0]);
      ForestNests(open, forest[1..]);
      SerialiseFirst(forest);
      NestSplit(open, Serialise(forest[0]), SerialiseAll(forest[1..]));
    }
  }

  lemma {:induction false} NodeNests(open: seq<string>, node: Node)
    requires Proper(node)
    ensures Nest(open, Serialise(node)) == Some(open)
    decreases node
  {
    hide Nest;
    NestNothing(open);
    match node
    case Element(tag, children) =>
      var inner := open + [tag.name];
      ForestNests(inner, children);
      NestFirst(open, Start(tag), SerialiseAll(children) + [End(tag.name)]);
      NestSplit(inner, SerialiseAll(children), [End(tag.name)]);
      NestFirst(inner, End(tag.name), []);
      assert inner[..|inner| - 1] == open;
      assert [End(tag.name)] + [] == [End(tag.name)];
      assert Serialise(node) == [Start(tag)] + (SerialiseAll(children) + [End(tag.name)]);
    case Brief(tag) =>
      NestFirst(open, Empty(tag), []);
      assert [Empty(tag)] + [] == [Empty(tag)];
    case Leaf(e) =>
      NestFirst(open, e, []);
      assert [e] + [] == [e];
  }

  // ------------------------------------------------------------ what a forest holds

  // A tag of a tree with the names of its ancestors; `open` if it has an end tag.
  datatype Placed = Placed(tag: Tag, path: seq<string>, open: bool)

  function TagsOf(node: Node, path: seq<string>): seq<Placed> {
    match node
    case Element(tag, children) => [Placed(tag, path, true)] + AllTagsOf(children, path + [tag.name])
    case Brief(tag) => [Placed(tag, path, false)]
    case Leaf(_) => []
  }

  function AllTagsOf(forest: seq<Node>, path: seq<string>): seq<Placed> {
    if forest == [] then [] else TagsOf(forest[0], path) + AllTagsOf(forest[1..], path)
  }

  // What stands between the tags of a tree, with the names of the elements around it.
  datatype PlacedLeaf = PlacedLeaf(event: Event, path: seq<string>)

  function LeavesOf(node: Node, path: seq<string>): seq<PlacedLeaf> {
    match node
    case Element(tag, children) => AllLeavesOf(children, path + [tag.name])
    case Brief(_) => []
    case Leaf(e) => [PlacedLeaf(e, path)]
  }

  function AllLeavesOf(forest: seq<Node>, path: seq<string>): seq<PlacedLeaf> {
    if forest == [] then [] else LeavesOf(forest[0], path) + AllLeavesOf(forest[1..], path)
  }

  // The tags of one name.
  function TagsNamed(tags: seq<Placed>, name: string): seq<Placed> {
    if tags == [] then [] else (if tags[0].tag.name == name then [tags[0]] else []) + TagsNamed(tags[1..], name)
  }

  lemma {:induction false} TagsNamedBoth(a: seq<Placed>, b: seq<Placed>, name: string)
    ensures TagsNamed(a + b, name) == TagsNamed(a, name) + TagsNamed(b, name)
  {
    if a == [] {
      assert a + b == b;
    } else {
      assert (a + b)[1..] == a[1..] + b;
      TagsNamedBoth(a[1..], b, name);
    }
  }

  lemma TagsNamedOne(p: Placed, name: string)
    ensures TagsNamed([p], name) == if p.tag.name == name then [p] else []
  {
    assert [p][1..] == [];
  }
}
