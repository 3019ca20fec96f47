/** The documents without a proposed repair, tag by tag and with every name written out. */
module HealthyReport {
  import opened Wrappers
  import opened Xml
  import opened HealthyOutput

  // A tag that asks, acts or reports an error.
  predicate Acts(tag: Tag) {
    || tag.name == "prompt" || tag.name == "solvable"
    || (|tag.name| >= 3 && tag.name[..3] == "to-")
    || (tag.name == "message" && tag.attributes.Some? && "type" in tag.attributes.value && tag.attributes.value["type"] == "error")
  }

  // No digit but zeros, behind at most one sign.
  predicate Zero(value: string) {
    || Zeros(value, 0)
    || (value != "" && (value[0] == '+' || value[0] == '-') && Zeros(value, 1))
  }

  predicate Zeros(value: string, from: nat) {
    from < |value| && forall i :: from <= i < |value| ==> value[i] == '0'
  }

  predicate NothingToDo(a: map<string, string>) {
    && "packages-to-change" in a && Zero(a["packages-to-change"])
    && "download-size" in a && Zero(a["download-size"])
    && "space-usage-diff" in a && Zero(a["space-usage-diff"])
    && "space-usage-installed" in a && Zero(a["space-usage-installed"])
    && "space-usage-removed" in a && Zero(a["space-usage-removed"])
  }

  // The root is a stream, nothing is inside a summary, a summary is directly in the stream
  // and counts nothing, no tag acts, and none with an end tag is below 32 others.
  predicate Harmless(p: Placed) {
    && p.tag.attributes.Some? && !Acts(p.tag)
    && (p.path == [] ==> p.tag.name == "stream")
    && "install-summary" !in p.path
    && (p.tag.name == "install-summary" ==> p.path == ["stream"] && NothingToDo(p.tag.attributes.value))
    && (p.open ==> |p.path| < 32)
  }

  // Between the tags: comments, text, which is white space inside a summary, and
  // references outside of it that can be resolved.
  predicate HarmlessLeaf(leaf: PlacedLeaf) {
    var inside := leaf.path != [] && leaf.path[|leaf.path| - 1] == "install-summary";
    match leaf.event
    case Comment => true
    case Text(content) => inside ==> IsBlank(content)
    case Reference(resolved) => resolved.Some? && !inside
    case _ => false
  }

  ghost predicate AllHarmless(tags: seq<Placed>, leaves: seq<PlacedLeaf>) {
    (forall p :: p in tags ==> Harmless(p)) && (forall leaf :: leaf in leaves ==> HarmlessLeaf(leaf))
  }

  lemma ZeroIs(value: string)
    ensures IsZero(value) <==> Zero(value)
  {
    if value != "" && (value[0] == '+' || value[0] == '-') {
      var digits := value[1..];
      assert forall i :: 0 <= i < |digits| ==> digits[i] == value[i + 1] && digits[i] in digits;
      assert forall i :: 1 <= i < |value| ==> value[i] == digits[i - 1];
      assert Zeros(value, 1) ==> 0 < |digits|;
    } else {
      assert forall i :: 0 <= i < |value| ==> value[i] in value;
      assert Zeros(value, 0) ==> 0 < |value|;
    }
  }

  lemma CountersAre(a: map<string, string>)
    ensures AllZero(a) <==> NothingToDo(a)
  {
    hide IsZero, Zero;
    forall value
      ensures IsZero(value) <==> Zero(value)
    {
      ZeroIs(value);
    }
    var names := Counters;
    assert names[0] in names && names[1] in names && names[2] in names && names[3] in names && names[4] in names;
    assert forall k :: 0 <= k < 5 ==> names[k] == Counters[k];
  }

  lemma ActsIs(tag: Tag)
    requires tag.attributes.Some?
    ensures Objects(tag.name, tag.attributes.value) <==> Acts(tag)
  {
    assert "to-" <= tag.name <==> |tag.name| >= 3 && tag.name[..3] == "to-";
  }

  lemma TagIsHarmless(tag: Tag, path: seq<string>, open: bool)
    ensures AllHarmless([Placed(tag, path, open)], []) <==> ElementFits(tag, path) && (open ==> |path| < 32)
  {
    hide Acts, NothingToDo, AllZero, Objects;
    var p := Placed(tag, path, open);
    assert p in [p] && forall q :: q in [p] ==> q == p;
    if tag.attributes.Some? {
      ActsIs(tag);
      CountersAre(tag.attributes.value);
    }
    assert Harmless(p) <==> ElementFits(tag, path) && (open ==> |path| < 32);
  }

  lemma LeafIsHarmless(e: Event, path: seq<string>)
    ensures AllHarmless([], [PlacedLeaf(e, path)]) <==> Fits(Leaf(e), path)
  {
    hide IsBlank;
    var leaf := PlacedLeaf(e, path);
    assert leaf in [leaf] && forall other :: other in [leaf] ==> other == leaf;
  }

  lemma BothHarmless(a: seq<Placed>, b: seq<Placed>, leaves: seq<PlacedLeaf>, leaves': seq<PlacedLeaf>)
    ensures AllHarmless(a + b, leaves + leaves') <==> AllHarmless(a, leaves) && AllHarmless(b, leaves')
  {
    hide Harmless, HarmlessLeaf;
    assert forall p :: p in a + b <==> p in a || p in b;
    assert forall leaf :: leaf in leaves + leaves' <==> leaf in leaves || leaf in leaves';
  }

  lemma {:induction false} FitsIs(node: Node, path: seq<string>)
    ensures Fits(node, path) <==> AllHarmless(TagsOf(node, path), LeavesOf(node, path))
    decreases node
  {
    hide AllHarmless, ElementFits, AllTagsOf, AllLeavesOf;
    match node
    case Element(tag, children) =>
      var inner := path + [tag.name];
      ElementShape(tag, children, path);
      AllFitIs(children, inner);
      TagIsHarmless(tag, path, true);
      BothHarmless([Placed(tag, path, true)], AllTagsOf(children, inner), [], AllLeavesOf(children, inner));
      assert [] + AllLeavesOf(children, inner) == AllLeavesOf(children, inner);
    case Brief(tag) => TagIsHarmless(tag, path, false);
    case Leaf(e) => LeafIsHarmless(e, path);
  }

  lemma {:induction false} AllFitIs(forest: seq<Node>, path: seq<string>)
    ensures AllFit(forest, path) <==> AllHarmless(AllTagsOf(forest, path), AllLeavesOf(forest, path))
    decreases forest
  {
    hide Fits, TagsOf, LeavesOf, Harmless, HarmlessLeaf;
    if forest != [] {
      FitsIs(forest[0], path);
      AllFitIs(forest[1..], path);
      assert forest == [forest[0]] + forest[1..];
      BothHarmless(TagsOf(forest[0], path), AllTagsOf(forest[1..], path), LeavesOf(forest[0], path), AllLeavesOf(forest[1..], path));
    }
  }

  lemma {:induction false} SummariesAre(forest: seq<Node>, path: seq<string>)
    ensures AllSummaries(forest) == |TagsNamed(AllTagsOf(forest, path), "install-summary")|
    decreases forest
  {
    hide Summaries, TagsOf, TagsNamed;
    if forest == [] {
      NothingNamed("install-summary");
    } else {
      NodeSummariesAre(forest[0], path);
      SummariesAre(forest[1..], path);
      TagsNamedBoth(TagsOf(forest[0], path), AllTagsOf(forest[1..], path), "install-summary");
    }
  }

  lemma NothingNamed(name: string)
    ensures TagsNamed([], name) == []
  {}

  lemma {:induction false} NodeSummariesAre(node: Node, path: seq<string>)
    ensures Summaries(node) == |TagsNamed(TagsOf(node, path), "install-summary")|
    decreases node
  {
    hide AllSummaries, AllTagsOf, TagsNamed;
    match node
    case Element(tag, children) =>
      var inner := path + [tag.name];
      SummariesAre(children, inner);
      TagsNamedOne(Placed(tag, path, true), "install-summary");
      TagsNamedBoth([Placed(tag, path, true)], AllTagsOf(children, inner), "install-summary");
    case Brief(tag) => TagsNamedOne(Placed(tag, path, false), "install-summary");
    case Leaf(_) => NothingNamed("install-summary");
  }

  // White space or a comment; before the root also the one declaration.
  predicate Between(node: Node) {
    node.Leaf? && (node.event == Comment || (node.event.Text? && IsBlank(node.event.content)))
  }

  // What is accepted: a stream whose tags and texts are all harmless, with exactly one
  // summary, and white space and comments around it, and at most one declaration before.
  lemma HealthyIs(before: seq<Node>, root: Node, after: seq<Node>)
    ensures HealthyDocument(before, root, after) <==>
            && root.Element? && Proper(root)
            && AllHarmless(TagsOf(root, []), LeavesOf(root, []))
            && |TagsNamed(TagsOf(root, []), "install-summary")| == 1
            && (forall node :: node in before ==> Between(node) || node == Leaf(Declaration))
            && (forall i, j :: 0 <= i < j < |before| ==> !(before[i] == Leaf(Declaration) && before[j] == Leaf(Declaration)))
            && (forall node :: node in after ==> Between(node))
  {
    hide Fits, AllHarmless, TagsOf, LeavesOf, Proper, TagsNamed, Summaries, IsBlank, Declarations;
    FitsIs(root, []);
    NodeSummariesAre(root, []);
    OneDeclaration(before);
  }

  lemma {:induction false} OneDeclaration(forest: seq<Node>)
    ensures Declarations(forest) == 0 <==> forall i :: 0 <= i < |forest| ==> forest[i] != Leaf(Declaration)
    ensures Declarations(forest) <= 1 <==>
            forall i, j :: 0 <= i < j < |forest| ==> !(forest[i] == Leaf(Declaration) && forest[j] == Leaf(Declaration))
  {
    if forest != [] {
      var rest := forest[1..];
      OneDeclaration(rest);
      assert forall i :: 0 < i < |forest| ==> forest[i] == rest[i - 1];
      assert forall i :: 0 <= i < |rest| ==> rest[i] == forest[i + 1];
    }
  }

  // The verifier's verdict on a report, on the report's tags.
  lemma AcceptsExactly(events: seq<Event>)
    ensures Accepts(events) <==>
            exists before, root, after ::
              && events == SerialiseAll(before + [root] + after) && root.Element? && Proper(root)
              && AllHarmless(TagsOf(root, []), LeavesOf(root, []))
              && |TagsNamed(TagsOf(root, []), "install-summary")| == 1
              && (forall node :: node in before ==> Between(node) || node == Leaf(Declaration))
              && (forall i, j :: 0 <= i < j < |before| ==> !(before[i] == Leaf(Declaration) && before[j] == Leaf(Declaration)))
              && (forall node :: node in after ==> Between(node))
  {
    hide Accepts, AllHarmless, TagsOf, LeavesOf, Proper, TagsNamed, HealthyDocument, Between, SerialiseAll;
    AcceptsExactlyHealthyDocuments(events);
    forall before, root, after
      ensures HealthyDocument(before, root, after) <==>
              && root.Element? && Proper(root)
              && AllHarmless(TagsOf(root, []), LeavesOf(root, []))
              && |TagsNamed(TagsOf(root, []), "install-summary")| == 1
              && (forall node :: node in before ==> Between(node) || node == Leaf(Declaration))
              && (forall i, j :: 0 <= i < j < |before| ==> !(before[i] == Leaf(Declaration) && before[j] == Leaf(Declaration)))
              && (forall node :: node in after ==> Between(node))
    {
      HealthyIs(before, root, after);
    }
  }
}
