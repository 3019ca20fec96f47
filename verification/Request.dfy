/** Whose the offline update marker is (`offline/src/request.rs`): a link is followed by its
    spelling first, so that a foreign marker is recognised without touching Lyra's state. */
module Request {
  import opened Wrappers

  // A component of a path below the file system's root.
  datatype Component = CurDir | ParentDir | Normal(name: string)

  datatype Link = NoLink | Unreadable | To(absolute: bool, path: seq<Component>)

  // What the file system answers: where a path really leads, and what is a directory.
  datatype Disk = Disk(canonical: seq<string> -> Option<seq<string>>, isDirectory: seq<string> -> bool)

  datatype Refusal = CannotRead | NotDirectlyBelowRoot | CannotResolve | ResolvesElsewhere | NotADirectory

  // -------------------------------------------------------------- lexical normalisation

  function Push(stack: seq<string>, c: Component): seq<string> {
    match c
    case CurDir => stack
    case ParentDir => if stack == [] then [] else stack[..|stack| - 1]
    case Normal(name) => stack + [name]
  }

  function Normalized(path: seq<Component>): seq<string> {
    if path == [] then [] else Push(Normalized(path[..|path| - 1]), path[|path| - 1])
  }

  // Names minus steps up.
  function Rise(path: seq<Component>): int {
    if path == [] then 0
    else Rise(path[1..]) + (match path[0] case CurDir => 0 case ParentDir => -1 case Normal(_) => 1)
  }

  // No beginning of the path steps up more often than it names.
  ghost predicate Stays(path: seq<Component>) {
    forall j :: 0 <= j <= |path| ==> Rise(path[..j]) >= 0
  }

  // The names that no later step up cancels.
  ghost function Survivors(path: seq<Component>): seq<string> {
    if path == [] then []
    else (if path[0].Normal? && Stays(path[1..]) then [path[0].name] else []) + Survivors(path[1..])
  }

  // How far below its start the path dips.
  function Dip(path: seq<Component>): (d: int)
    ensures d <= 0
  {
    if path == [] then 0
    else
      var next := Dip(path[1..]) + (match path[0] case CurDir => 0 case ParentDir => -1 case Normal(_) => 1);
      if next < 0 then next else 0
  }

  lemma {:induction false} DipIsLowest(path: seq<Component>)
    ensures forall j :: 0 <= j <= |path| ==> Dip(path) <= Rise(path[..j])
    ensures exists j :: 0 <= j <= |path| && Dip(path) == Rise(path[..j])
  {
    if path == [] {
      assert Rise(path[..0]) == 0;
    } else {
      var rest := path[1..];
      DipIsLowest(rest);
      forall j | 0 <= j <= |path|
        ensures Dip(path) <= Rise(path[..j])
      {
        if j > 0 {
          assert path[..j][1..] == rest[..j - 1];
        }
      }
      var k :| 0 <= k <= |rest| && Dip(rest) == Rise(rest[..k]);
      assert path[..k + 1][1..] == rest[..k];
      assert Rise(path[..0]) == 0;
      assert Dip(path) == Rise(path[..k + 1]) || Dip(path) == Rise(path[..0]);
    }
  }

  lemma StaysExactly(path: seq<Component>)
    ensures Stays(path) <==> Dip(path) == 0
  {
    DipIsLowest(path);
  }

  function PushAll(stack: seq<string>, path: seq<Component>): seq<string>
    decreases path
  {
    if path == [] then stack else PushAll(Push(stack, path[0]), path[1..])
  }

  lemma {:induction false} PushAllNext(stack: seq<string>, path: seq<Component>, c: Component)
    ensures PushAll(stack, path + [c]) == Push(PushAll(stack, path), c)
    decreases path
  {
    if path != [] {
      assert (path + [c])[1..] == path[1..] + [c];
      PushAllNext(Push(stack, path[0]), path[1..], c);
    }
  }

  lemma {:induction false} NormalizedPushes(path: seq<Component>)
    ensures Normalized(path) == PushAll([], path)
  {
    if path != [] {
      var front, last := path[..|path| - 1], path[|path| - 1];
      NormalizedPushes(front);
      PushAllNext([], front, last);
      assert path == front + [last];
    }
  }

  // What stood before is cut where the path dips below it; then come the survivors.
  lemma {:induction false} PushingKeepsSurvivors(stack: seq<string>, path: seq<Component>)
    ensures var depth := if |stack| + Dip(path) < 0 then 0 else |stack| + Dip(path);
            PushAll(stack, path) == stack[..depth] + Survivors(path)
    decreases path
  {
    if path != [] {
      PushingKeepsSurvivors(Push(stack, path[0]), path[1..]);
      StaysExactly(path[1..]);
    }
  }

  // The loop that pushes and pops keeps exactly the names that nothing cancels.
  lemma NormalizationKeepsSurvivors(path: seq<Component>)
    ensures Normalized(path) == Survivors(path)
  {
    NormalizedPushes(path);
    PushingKeepsSurvivors([], path);
  }

  method Normalize(path: seq<Component>) returns (normalized: seq<string>)
    ensures normalized == Normalized(path)
  {
    normalized := [];
    for i := 0 to |path|
      invariant normalized == Normalized(path[..i])
    {
      assert path[..i + 1][..i] == path[..i];
      match path[i] {
        case ParentDir =>
          if normalized != [] {
            normalized := normalized[..|normalized| - 1];
          }
        case CurDir =>
        case Normal(name) => normalized := normalized + [name];
      }
    }
    assert path[..|path|] == path;
  }

  // --------------------------------------------------------------------- ownership

  function Names(path: seq<string>): (r: seq<Component>)
    ensures |r| == |path| && forall i :: 0 <= i < |r| ==> r[i] == Normal(path[i])
  {
    seq(|path|, i requires 0 <= i < |path| => Normal(path[i]))
  }

  // A relative link starts where the marker lies.
  function Spelled(home: seq<string>, link: Link): seq<Component>
    requires link.To?
  {
    if link.absolute then link.path else Names(home) + link.path
  }

  predicate Touches(home: seq<string>, root: seq<string>, link: Link)
    requires link.To?
  {
    Names(root) <= Spelled(home, link) || root <= Normalized(Spelled(home, link))
  }

  // The path leads to the operation `id`: spelled directly below the root, and really there.
  predicate LeadsTo(home: seq<string>, root: seq<string>, link: Link, disk: Disk, id: string, directory: seq<string>) {
    && link.To? && Normalized(Spelled(home, link)) == root + [id]
    && disk.canonical(root).Some?
    && directory == disk.canonical(root).value + [id]
    && disk.canonical(root + [id]) == Some(directory)
    && disk.isDirectory(directory)
  }

  // `home` is the directory of the marker; None: the marker is absent or foreign.
  method Resolve(home: seq<string>, root: seq<string>, link: Link, disk: Disk)
    returns (owned: Result<Option<seq<string>>, Refusal>)
    ensures owned == Ok(None) <==> link.NoLink? || (link.To? && !Touches(home, root, link))
    ensures forall directory ::
              owned == Ok(Some(directory)) <==> exists id :: LeadsTo(home, root, link, disk, id, directory)
    ensures owned == Err(CannotRead) <==> link.Unreadable?
    ensures owned == Err(NotDirectlyBelowRoot) <==>
              link.To? && Touches(home, root, link)
              && !exists id :: Normalized(Spelled(home, link)) == root + [id]
  {
    match link
    case NoLink => return Ok(None);
    case Unreadable => return Err(CannotRead);
    case To(_, _) =>
    var absolute := Spelled(home, link);
    var normalized := Normalize(absolute);
    if !(Names(root) <= absolute) && !(root <= normalized) {
      return Ok(None);
    }
    if normalized == [] || normalized[..|normalized| - 1] != root {
      return Err(NotDirectlyBelowRoot);
    }
    var id := normalized[|normalized| - 1];
    assert normalized == root + [id];
    var canonicalRoot, directory := disk.canonical(root), disk.canonical(normalized);
    if canonicalRoot.None? || directory.None? {
      return Err(CannotResolve);
    }
    if directory.value != canonicalRoot.value + [id] {
      return Err(ResolvesElsewhere);
    }
    if !disk.isDirectory(directory.value) {
      return Err(NotADirectory);
    }
    assert LeadsTo(home, root, link, disk, id, directory.value);
    return Ok(Some(directory.value));
  }

  // The marker itself, which other updaters may replace at any time.
  class MarkerLink {
    var link: Link

    // `removable`: the file system lets the link be removed.
    method RemoveCurrent(home: seq<string>, root: seq<string>, disk: Disk, operation: seq<string>, removable: bool)
      returns (removed: bool)
      modifies this
      ensures removed <==> removable && exists id :: LeadsTo(home, root, old(link), disk, id, operation)
      ensures link == if removed then NoLink else old(link)
    {
      var owned := Resolve(home, root, link, disk);
      if owned != Ok(Some(operation)) || !removable {
        return false;
      }
      link := NoLink;
      return true;
    }
  }

  // A link that steps back into the root by whatever detour owns the same operation as
  // the plain spelling; one that ends up outside owns none.
  lemma DetoursDoNotMatter(home: seq<string>, root: seq<string>, link: Link, disk: Disk, id: string, directory: seq<string>)
    requires link.To?
    ensures LeadsTo(home, root, link, disk, id, directory) <==>
              Survivors(Spelled(home, link)) == root + [id]
              && LeadsTo(home, root, To(true, Names(root + [id])), disk, id, directory)
    ensures Touches(home, root, link) <==>
              || root <= Survivors(Spelled(home, link))
              || (|root| <= |Spelled(home, link)| && forall i :: 0 <= i < |root| ==> Spelled(home, link)[i] == Normal(root[i]))
  {
    NormalizationKeepsSurvivors(Spelled(home, link));
    PlainPath(root + [id]);
  }

  lemma {:induction false} PlainPath(path: seq<string>)
    ensures Normalized(Names(path)) == path
  {
    if path != [] {
      assert Names(path)[..|path| - 1] == Names(path[..|path| - 1]);
      PlainPath(path[..|path| - 1]);
    }
  }
}
