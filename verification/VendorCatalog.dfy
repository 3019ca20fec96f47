/** Vendor catalogs collected by the metadata walk: for every package identity the one
    vendor recorded for it, or a mark that several records claim it. */
module VendorCatalog {
  import opened Wrappers
  import opened Decimal
  import opened Xml
  import opened MetadataWalk

  // Name, edition with its epoch, architecture.
  datatype Identity = Identity(name: string, edition: string, architecture: string)

  datatype Record = Record(identity: Identity, vendor: string)

  type Catalog = map<Identity, Option<string>>

  // ---------------------------------------------------------------------- the catalog

  // `insert`: a second record of the same identity, of whatever vendor, leaves none.
  function Insert(catalog: Catalog, r: Record): Catalog {
    catalog[r.identity := if r.identity in catalog then None else Some(r.vendor)]
  }

  function InsertAll(catalog: Catalog, records: seq<Record>): Catalog
    decreases |records|
  {
    if records == [] then catalog else InsertAll(Insert(catalog, records[0]), records[1..])
  }

  // The vendors recorded for an identity, in order.
  function VendorsOf(records: seq<Record>, id: Identity): seq<string> {
    if records == [] then []
    else (if records[0].identity == id then [records[0].vendor] else []) + VendorsOf(records[1..], id)
  }

  // A catalog entry against the vendors that were recorded.
  predicate Resolves(catalog: Catalog, id: Identity, vendors: seq<string>) {
    && (id in catalog <==> vendors != [])
    && (id in catalog ==> catalog[id] == if |vendors| == 1 then Some(vendors[0]) else None)
  }

  lemma {:induction false} InsertAllResolves(catalog: Catalog, records: seq<Record>, id: Identity, before: seq<string>)
    requires Resolves(catalog, id, before)
    ensures Resolves(InsertAll(catalog, records), id, before + VendorsOf(records, id))
    decreases |records|
  {
    if records == [] {
      assert before + [] == before;
    } else {
      var first := if records[0].identity == id then [records[0].vendor] else [];
      InsertAllResolves(Insert(catalog, records[0]), records[1..], id, before + first);
      assert before + first + VendorsOf(records[1..], id) == before + (first + VendorsOf(records[1..], id));
    }
  }

  // `edition`
  function Edition(epoch: Option<string>, version: Option<string>, release: Option<string>): Option<string> {
    if epoch.None? || version.None? || release.None? then None
    else
      var number := ParseU64(epoch.value);
      if number.None? || version.value == "" || release.value == "" then None
      else if number.value == 0 then Some(version.value + "-" + release.value)
      else Some(ToDecimal(number.value) + ":" + version.value + "-" + release.value)
  }

  function Attribute(item: Item, name: string): Option<string> {
    if name in item.attributes then Some(item.attributes[name]) else None
  }

  // ------------------------------------------------------- folding over what is ignored

  lemma {:induction false} FoldIgnored<S>(value: S, visits: seq<Visit>, closed: Callback<S>)
    requires forall visit :: visit in visits ==> closed(value, visit) == Some(value)
    ensures Fold(value, visits, closed) == Some(value)
    decreases |visits|
  {
    hide Fold;
    if visits == [] {
      FoldNothing(value, closed);
    } else {
      assert visits[0] in visits && visits == [visits[0]] + visits[1..];
      FoldFirst(value, visits[0], visits[1..], closed);
      FoldIgnored(value, visits[1..], closed);
    }
  }

  // Every visit below an element names it among the ancestors.
  lemma {:induction false} VisitsBelow(forest: seq<Node>, parents: seq<Name>, visit: Visit)
    requires visit in AllVisits(forest, parents)
    ensures |parents| <= |visit.parents| && visit.parents[..|parents|] == parents
    decreases forest
  {
    hide Visits;
    assert AllVisits(forest, parents) == Visits(forest[0], parents) + AllVisits(forest[1..], parents);
    if visit in AllVisits(forest[1..], parents) {
      VisitsBelow(forest[1..], parents, visit);
    } else {
      VisitBelow(forest[0], parents, visit);
    }
  }

  lemma {:induction false} VisitBelow(node: Node, parents: seq<Name>, visit: Visit)
    requires visit in Visits(node, parents)
    ensures |parents| <= |visit.parents| && visit.parents[..|parents|] == parents
    decreases node
  {
    hide AllVisits;
    match node
    case Element(tag, children) =>
      var inner := parents + [ItemOf(tag).name];
      assert Visits(node, parents) == AllVisits(children, inner) + [Visit(parents, ClosedItem(tag, children))];
      if visit in AllVisits(children, inner) {
        VisitsBelow(children, inner, visit);
        assert visit.parents[..|parents|] == visit.parents[..|inner|][..|parents|] == parents;
      }
    case Brief(tag) =>
      assert visit.parents[..|parents|] == parents;
    case Leaf(_) =>
  }

  // ------------------------------------------------------------- installed packages

  datatype Installing = Installing(catalog: Catalog, fields: seq<string>)

  // The record of an installed package, from its six header fields.
  function HeaderRecord(fields: seq<string>): Option<Record> {
    if |fields| != 6 then None
    else
      var edition := Edition(Some(fields[1]), Some(fields[2]), Some(fields[3]));
      if edition.None? then None else Some(Record(Identity(fields[0], edition.value, fields[4]), fields[5]))
  }

  // `installed_vendors`, its callback
  function InstalledClosed(s: Installing, visit: Visit): Option<Installing> {
    if |visit.parents| == 2 && visit.parents[1] == Name("", "package") && visit.item.name.ns == "" then
      if visit.item.name.local != "string" && visit.item.name.local != "integer" then None
      else Some(s.(fields := s.fields + [visit.item.text]))
    else if |visit.parents| == 1 && visit.item.Is("", "package") then
      var r := HeaderRecord(s.fields);
      if r.None? then None else Some(Installing(Insert(s.catalog, r.value), []))
    else Some(s)
  }

  // The element a node stands for, as it closes.
  function Closing(node: Node): Item
    requires !node.Leaf?
  {
    if node.Brief? then ItemOf(node.tag) else ClosedItem(node.tag, node.children)
  }

  function ChildrenOf(node: Node): seq<Node> {
    if node.Element? then node.children else []
  }

  // The header fields in a package element: its unqualified children, which must be
  // strings or integers.
  function HeaderFields(forest: seq<Node>): Option<seq<string>> {
    if forest == [] then Some([])
    else
      var rest := HeaderFields(forest[1..]);
      if forest[0].Leaf? || Closing(forest[0]).name.ns != "" then rest
      else if Closing(forest[0]).name.local != "string" && Closing(forest[0]).name.local != "integer" then None
      else if rest.None? then None
      else Some([Closing(forest[0]).text] + rest.value)
  }

  // The records of a document: one for each package child of the root.
  function InstalledRecords(forest: seq<Node>): Option<seq<Record>> {
    if forest == [] then Some([])
    else
      var rest := InstalledRecords(forest[1..]);
      if forest[0].Leaf? || !Closing(forest[0]).Is("", "package") then rest
      else
        var fields := HeaderFields(ChildrenOf(forest[0]));
        if fields.None? || HeaderRecord(fields.value).None? || rest.None? then None
        else Some([HeaderRecord(fields.value).value] + rest.value)
  }

  lemma NodeVisits(node: Node, parents: seq<Name>)
    requires !node.Leaf?
    ensures Visits(node, parents)
            == AllVisits(ChildrenOf(node), parents + [Closing(node).name]) + [Visit(parents, Closing(node))]
  {}

  // Below three or more ancestors nothing is collected.
  lemma DeepInstalledIgnored(s: Installing, forest: seq<Node>, parents: seq<Name>)
    requires |parents| >= 3 || (|parents| == 2 && parents[1] != Name("", "package"))
    ensures Fold(s, AllVisits(forest, parents), InstalledClosed) == Some(s)
  {
    forall visit | visit in AllVisits(forest, parents)
      ensures InstalledClosed(s, visit) == Some(s)
    {
      VisitsBelow(forest, parents, visit);
      if |parents| == 2 {
        assert visit.parents[1] == visit.parents[..2][1];
      }
    }
    FoldIgnored(s, AllVisits(forest, parents), InstalledClosed);
  }

  lemma {:induction false} HeaderFolds(s: Installing, forest: seq<Node>, top: Name)
    ensures var parents, fields := [top, Name("", "package")], HeaderFields(forest);
            Fold(s, AllVisits(forest, parents), InstalledClosed) ==
            if fields.None? then None else Some(s.(fields := s.fields + fields.value))
    decreases forest
  {
    hide Fold, HeaderRecord, Visits;
    var parents := [top, Name("", "package")];
    if forest == [] {
      FoldNothing(s, InstalledClosed);
      assert s.fields + [] == s.fields;
    } else {
      var first, rest := forest[0], forest[1..];
      FoldSplit(s, Visits(first, parents), AllVisits(rest, parents), InstalledClosed);
      if first.Leaf? {
        LeafVisits(first, parents);
        FoldNothing(s, InstalledClosed);
        HeaderFolds(s, rest, top);
      } else {
        NodeVisits(first, parents);
        var inner := parents + [Closing(first).name];
        FoldSplit(s, AllVisits(ChildrenOf(first), inner), [Visit(parents, Closing(first))], InstalledClosed);
        DeepInstalledIgnored(s, ChildrenOf(first), inner);
        FoldOne(s, Visit(parents, Closing(first)), InstalledClosed);
        var next := InstalledClosed(s, Visit(parents, Closing(first)));
        if next.Some? {
          HeaderFolds(next.value, rest, top);
          if HeaderFields(rest).Some? {
            assert s.fields + [Closing(first).text] + HeaderFields(rest).value
                   == s.fields + ([Closing(first).text] + HeaderFields(rest).value);
          }
        }
      }
    }
  }

  lemma LeafVisits(node: Node, parents: seq<Name>)
    requires node.Leaf?
    ensures Visits(node, parents) == []
  {}

  lemma {:induction false} InstalledFolds(s: Installing, forest: seq<Node>, top: Name)
    requires s.fields == []
    ensures var records := InstalledRecords(forest);
            Fold(s, AllVisits(forest, [top]), InstalledClosed) ==
            if records.None? then None else Some(Installing(InsertAll(s.catalog, records.value), []))
    decreases forest
  {
    hide Fold, HeaderRecord, Visits, HeaderFields;
    if forest == [] {
      FoldNothing(s, InstalledClosed);
    } else {
      var first, rest := forest[0], forest[1..];
      FoldSplit(s, Visits(first, [top]), AllVisits(rest, [top]), InstalledClosed);
      if first.Leaf? {
        LeafVisits(first, [top]);
        FoldNothing(s, InstalledClosed);
        InstalledFolds(s, rest, top);
      } else {
        NodeVisits(first, [top]);
        var inner := [top] + [Closing(first).name];
        FoldSplit(s, AllVisits(ChildrenOf(first), inner), [Visit([top], Closing(first))], InstalledClosed);
        if Closing(first).Is("", "package") {
          assert inner == [top, Name("", "package")];
          HeaderFolds(s, ChildrenOf(first), top);
          var fields := HeaderFields(ChildrenOf(first));
          if fields.Some? {
            assert [] + fields.value == fields.value;
            var t := s.(fields := fields.value);
            FoldOne(t, Visit([top], Closing(first)), InstalledClosed);
            var next := InstalledClosed(t, Visit([top], Closing(first)));
            if next.Some? {
              InstalledFolds(next.value, rest, top);
            }
          }
        } else {
          DeepInstalledIgnored(s, ChildrenOf(first), inner);
          FoldOne(s, Visit([top], Closing(first)), InstalledClosed);
          InstalledFolds(s, rest, top);
        }
      }
    }
  }

  const INSTALLED_ROOT := Name("", "rpmdb")

  // `installed_vendors`
  method InstalledVendors(events: seq<Event>, size: nat) returns (r: Option<Catalog>)
    ensures var end := Outcome(events, size, INSTALLED_ROOT, Installing(map[], []), InstalledClosed);
            r == if end.None? then None else Some(end.value.catalog)
  {
    var end := Walk(events, size, INSTALLED_ROOT, Installing(map[], []), InstalledClosed);
    r := if end.None? then None else Some(end.value.catalog);
  }

  lemma TopFolds(top: Node, s: Installing)
    requires !top.Leaf? && Closing(top).name == INSTALLED_ROOT && s.fields == []
    ensures var records := InstalledRecords(ChildrenOf(top));
            Fold(s, Visits(top, []), InstalledClosed) ==
            if records.None? then None else Some(Installing(InsertAll(s.catalog, records.value), []))
  {
    hide Fold, Visits, AllVisits, InstalledRecords;
    NodeVisits(top, []);
    assert [] + [Closing(top).name] == [Closing(top).name];
    InstalledFolds(s, ChildrenOf(top), Closing(top).name);
    FoldSplit(s, AllVisits(ChildrenOf(top), [Closing(top).name]), [Visit([], Closing(top))], InstalledClosed);
    var inner := Fold(s, AllVisits(ChildrenOf(top), [Closing(top).name]), InstalledClosed);
    if inner.Some? {
      FoldOne(inner.value, Visit([], Closing(top)), InstalledClosed);
    }
  }

  // The installed catalog is that of the records in the document: an identity is listed
  // if and only if some package has it, with its vendor if exactly one has and with
  // none if several have.
  lemma InstalledCatalogIsExact(events: seq<Event>, size: nat, end: Installing, id: Identity)
    requires Outcome(events, size, INSTALLED_ROOT, Installing(map[], []), InstalledClosed) == Some(end)
    ensures exists before, top, after ::
              && events == SerialiseAll(before + [top] + after) && WalkableDocument(before, top, after, INSTALLED_ROOT)
              && InstalledRecords(ChildrenOf(top)).Some?
              && Resolves(end.catalog, id, VendorsOf(InstalledRecords(ChildrenOf(top)).value, id))
  {
    hide Outcome, Fold, Visits, InstalledRecords, SerialiseAll, Resolves, VendorsOf, Fits, Proper;
    WalkRefinesVisit(events, size, INSTALLED_ROOT, Installing(map[], []), InstalledClosed, end);
    var before, top, after :| && WalkableDocument(before, top, after, INSTALLED_ROOT)
                              && events == SerialiseAll(before + [top] + after)
                              && Fold(Installing(map[], []), Visits(top, []), InstalledClosed) == Some(end);
    TopFolds(top, Installing(map[], []));
    var records := InstalledRecords(ChildrenOf(top)).value;
    EmptyResolves(id);
    InsertAllResolves(map[], records, id, []);
    assert [] + VendorsOf(records, id) == VendorsOf(records, id);
  }

  lemma EmptyResolves(id: Identity)
    ensures Resolves(map[], id, [])
  {}

  // ------------------------------------------------------------ packages of a repository

  const COMMON := "http://linux.duke.edu/metadata/common"
  const RPM := "http://linux.duke.edu/metadata/rpm"
  const PRIMARY_ROOT := Name(COMMON, "metadata")
  const PACKAGE := Name(COMMON, "package")
  const FORMAT := Name(COMMON, "format")

  type Fields = map<string, string>

  datatype Reading = Reading(catalog: Catalog, fields: Fields)

  // One field of a package record: its key, and its value unless it is malformed.
  datatype Entry = Entry(key: string, value: Option<string>)

  // The field that a child of a package element is, if it is one.
  function ChildEntry(item: Item): Option<Entry> {
    if item.Is(COMMON, "name") then Some(Entry("name", Some(item.text)))
    else if item.Is(COMMON, "arch") then Some(Entry("arch", Some(item.text)))
    else if item.Is(COMMON, "version") then
      Some(Entry("edition", Edition(Attribute(item, "epoch"), Attribute(item, "ver"), Attribute(item, "rel"))))
    else None
  }

  // The field that a child of a format element is, if it is one.
  function FormatEntry(item: Item): Option<Entry> {
    if item.Is(RPM, "vendor") then Some(Entry("vendor", Some(item.text))) else None
  }

  function VisitEntry(visit: Visit): Option<Entry> {
    if |visit.parents| == 2 && visit.parents[1] == PACKAGE then ChildEntry(visit.item)
    else if |visit.parents| == 3 && visit.parents[1] == PACKAGE && visit.parents[2] == FORMAT then FormatEntry(visit.item)
    else None
  }

  // A field is collected once.
  function Collect(fields: Fields, entry: Option<Entry>): Option<Fields> {
    if entry.None? then Some(fields)
    else if entry.value.value.None? || entry.value.key in fields then None
    else Some(fields[entry.value.key := entry.value.value.value])
  }

  function IdentityOf(fields: Fields): Option<Identity> {
    if "name" in fields && "edition" in fields && "arch" in fields
    then Some(Identity(fields["name"], fields["edition"], fields["arch"])) else None
  }

  // What a closed package adds: nothing unless it is wanted, and then it must be an RPM.
  function PackageRecords(item: Item, fields: Fields, wanted: set<Identity>): Option<seq<Record>> {
    var id := IdentityOf(fields);
    if id.None? then None
    else if id.value !in wanted then Some([])
    else if Attribute(item, "type") != Some("rpm") then None
    else Some([Record(id.value, if "vendor" in fields then fields["vendor"] else "")])
  }

  // `primary_vendors`, its callback
  function PrimaryClosed(wanted: set<Identity>, s: Reading, visit: Visit): Option<Reading> {
    var fields := Collect(s.fields, VisitEntry(visit));
    if fields.None? then None
    else if |visit.parents| == 1 && visit.item.name == PACKAGE then
      var records := PackageRecords(visit.item, fields.value, wanted);
      if records.None? then None else Some(Reading(InsertAll(s.catalog, records.value), map[]))
    else Some(s.(fields := fields.value))
  }

  function PrimaryCallback(wanted: set<Identity>): Callback<Reading> {
    (s: Reading, visit: Visit) => PrimaryClosed(wanted, s, visit)
  }

  // The fields of a format element's children, and of a package element's.
  function CollectFormat(fields: Fields, forest: seq<Node>): Option<Fields>
    decreases |forest|
  {
    if forest == [] then Some(fields)
    else
      var next := if forest[0].Leaf? then Some(fields) else Collect(fields, FormatEntry(Closing(forest[0])));
      if next.None? then None else CollectFormat(next.value, forest[1..])
  }

  function CollectPackage(fields: Fields, forest: seq<Node>): Option<Fields>
    decreases |forest|
  {
    if forest == [] then Some(fields)
    else if forest[0].Leaf? then CollectPackage(fields, forest[1..])
    else
      var inner := if Closing(forest[0]).name == FORMAT then CollectFormat(fields, ChildrenOf(forest[0])) else Some(fields);
      var next := if inner.None? then None else Collect(inner.value, ChildEntry(Closing(forest[0])));
      if next.None? then None else CollectPackage(next.value, forest[1..])
  }

  // The wanted records of a document, one for each wanted package child of the root.
  function PrimaryRecords(forest: seq<Node>, wanted: set<Identity>): Option<seq<Record>> {
    if forest == [] then Some([])
    else
      var rest := PrimaryRecords(forest[1..], wanted);
      if forest[0].Leaf? || Closing(forest[0]).name != PACKAGE then rest
      else
        var fields := CollectPackage(map[], ChildrenOf(forest[0]));
        var records := if fields.None? then None else PackageRecords(Closing(forest[0]), fields.value, wanted);
        if records.None? || rest.None? then None else Some(records.value + rest.value)
  }

  predicate NotCollected(parents: seq<Name>) {
    || |parents| >= 4
    || (|parents| >= 2 && parents[1] != PACKAGE)
    || (|parents| == 3 && parents[2] != FORMAT)
  }

  lemma DeepPrimaryIgnored(wanted: set<Identity>, s: Reading, forest: seq<Node>, parents: seq<Name>)
    requires NotCollected(parents)
    ensures Fold(s, AllVisits(forest, parents), PrimaryCallback(wanted)) == Some(s)
  {
    hide AllVisits, ChildEntry, FormatEntry;
    forall visit | visit in AllVisits(forest, parents)
      ensures PrimaryCallback(wanted)(s, visit) == Some(s)
    {
      VisitsBelow(forest, parents, visit);
      assert forall i :: 0 <= i < |parents| ==> visit.parents[i] == visit.parents[..|parents|][i];
    }
    FoldIgnored(s, AllVisits(forest, parents), PrimaryCallback(wanted));
  }

  function WithFields(s: Reading, fields: Option<Fields>): Option<Reading> {
    if fields.None? then None else Some(s.(fields := fields.value))
  }

  lemma CallbackIs(wanted: set<Identity>, s: Reading, visit: Visit)
    ensures PrimaryCallback(wanted)(s, visit) == PrimaryClosed(wanted, s, visit)
  {}

  lemma {:induction false} FormatFolds(wanted: set<Identity>, s: Reading, forest: seq<Node>, top: Name)
    ensures Fold(s, AllVisits(forest, [top, PACKAGE, FORMAT]), PrimaryCallback(wanted))
            == WithFields(s, CollectFormat(s.fields, forest))
    decreases forest
  {
    hide Fold, Visits, FormatEntry, ChildEntry, PrimaryCallback;
    var parents := [top, PACKAGE, FORMAT];
    if forest == [] {
      FoldNothing(s, PrimaryCallback(wanted));
    } else {
      var first, rest := forest[0], forest[1..];
      FoldSplit(s, Visits(first, parents), AllVisits(rest, parents), PrimaryCallback(wanted));
      if first.Leaf? {
        LeafVisits(first, parents);
        FoldNothing(s, PrimaryCallback(wanted));
        FormatFolds(wanted, s, rest, top);
      } else {
        NodeVisits(first, parents);
        var inner := parents + [Closing(first).name];
        FoldSplit(s, AllVisits(ChildrenOf(first), inner), [Visit(parents, Closing(first))], PrimaryCallback(wanted));
        DeepPrimaryIgnored(wanted, s, ChildrenOf(first), inner);
        FoldOne(s, Visit(parents, Closing(first)), PrimaryCallback(wanted));
        CallbackIs(wanted, s, Visit(parents, Closing(first)));
        var next := Collect(s.fields, FormatEntry(Closing(first)));
        if next.Some? {
          FormatFolds(wanted, s.(fields := next.value), rest, top);
        }
      }
    }
  }

  // What is below a child of a package element.
  lemma BelowPackageChild(wanted: set<Identity>, s: Reading, node: Node, top: Name)
    requires !node.Leaf?
    ensures Fold(s, AllVisits(ChildrenOf(node), [top, PACKAGE, Closing(node).name]), PrimaryCallback(wanted))
            == WithFields(s, if Closing(node).name == FORMAT then CollectFormat(s.fields, ChildrenOf(node)) else Some(s.fields))
  {
    hide Fold, AllVisits, CollectFormat, PrimaryCallback;
    if Closing(node).name == FORMAT {
      FormatFolds(wanted, s, ChildrenOf(node), top);
    } else {
      DeepPrimaryIgnored(wanted, s, ChildrenOf(node), [top, PACKAGE, Closing(node).name]);
    }
  }

  lemma {:induction false} PackageFolds(wanted: set<Identity>, s: Reading, forest: seq<Node>, top: Name)
    ensures Fold(s, AllVisits(forest, [top, PACKAGE]), PrimaryCallback(wanted))
            == WithFields(s, CollectPackage(s.fields, forest))
    decreases forest
  {
    hide Fold, Visits, FormatEntry, ChildEntry, PrimaryCallback, CollectFormat;
    var parents := [top, PACKAGE];
    if forest == [] {
      FoldNothing(s, PrimaryCallback(wanted));
    } else {
      var first, rest := forest[0], forest[1..];
      FoldSplit(s, Visits(first, parents), AllVisits(rest, parents), PrimaryCallback(wanted));
      if first.Leaf? {
        LeafVisits(first, parents);
        FoldNothing(s, PrimaryCallback(wanted));
        PackageFolds(wanted, s, rest, top);
      } else {
        NodeVisits(first, parents);
        var inner := parents + [Closing(first).name];
        assert inner == [top, PACKAGE, Closing(first).name];
        FoldSplit(s, AllVisits(ChildrenOf(first), inner), [Visit(parents, Closing(first))], PrimaryCallback(wanted));
        BelowPackageChild(wanted, s, first, top);
        var below := Fold(s, AllVisits(ChildrenOf(first), inner), PrimaryCallback(wanted));
        if below.Some? {
          FoldOne(below.value, Visit(parents, Closing(first)), PrimaryCallback(wanted));
          CallbackIs(wanted, below.value, Visit(parents, Closing(first)));
          var next := Collect(below.value.fields, ChildEntry(Closing(first)));
          if next.Some? {
            PackageFolds(wanted, s.(fields := next.value), rest, top);
          }
        }
      }
    }
  }

  // A package child of the root, from the fields below it to its record.
  lemma RecordFolds(wanted: set<Identity>, s: Reading, node: Node, top: Name)
    requires !node.Leaf? && s.fields == map[] && Closing(node).name == PACKAGE
    ensures var fields := CollectPackage(map[], ChildrenOf(node));
            var records := if fields.None? then None else PackageRecords(Closing(node), fields.value, wanted);
            Fold(s, Visits(node, [top]), PrimaryCallback(wanted)) ==
            if records.None? then None else Some(Reading(InsertAll(s.catalog, records.value), map[]))
  {
    hide Fold, Visits, AllVisits, CollectPackage, PrimaryCallback, PackageRecords;
    NodeVisits(node, [top]);
    var inner := [top] + [Closing(node).name];
    assert inner == [top, PACKAGE];
    FoldSplit(s, AllVisits(ChildrenOf(node), inner), [Visit([top], Closing(node))], PrimaryCallback(wanted));
    PackageFolds(wanted, s, ChildrenOf(node), top);
    var below := Fold(s, AllVisits(ChildrenOf(node), inner), PrimaryCallback(wanted));
    if below.Some? {
      FoldOne(below.value, Visit([top], Closing(node)), PrimaryCallback(wanted));
      CallbackIs(wanted, below.value, Visit([top], Closing(node)));
    }
  }

  // Any other child of the root.
  lemma OtherFolds(wanted: set<Identity>, s: Reading, node: Node, top: Name)
    requires node.Leaf? || Closing(node).name != PACKAGE
    ensures Fold(s, Visits(node, [top]), PrimaryCallback(wanted)) == Some(s)
  {
    hide Fold, Visits, AllVisits, PrimaryCallback;
    if node.Leaf? {
      LeafVisits(node, [top]);
      FoldNothing(s, PrimaryCallback(wanted));
    } else {
      NodeVisits(node, [top]);
      var inner := [top] + [Closing(node).name];
      FoldSplit(s, AllVisits(ChildrenOf(node), inner), [Visit([top], Closing(node))], PrimaryCallback(wanted));
      DeepPrimaryIgnored(wanted, s, ChildrenOf(node), inner);
      FoldOne(s, Visit([top], Closing(node)), PrimaryCallback(wanted));
      CallbackIs(wanted, s, Visit([top], Closing(node)));
    }
  }

  lemma {:induction false} InsertAllSplit(catalog: Catalog, a: seq<Record>, b: seq<Record>)
    ensures InsertAll(catalog, a + b) == InsertAll(InsertAll(catalog, a), b)
    decreases |a|
  {
    if a == [] {
      assert a + b == b;
    } else {
      assert (a + b)[1..] == a[1..] + b;
      InsertAllSplit(Insert(catalog, a[0]), a[1..], b);
    }
  }

  lemma {:induction false} PrimaryFolds(wanted: set<Identity>, s: Reading, forest: seq<Node>, top: Name)
    requires s.fields == map[]
    ensures var records := PrimaryRecords(forest, wanted);
            Fold(s, AllVisits(forest, [top]), PrimaryCallback(wanted)) ==
            if records.None? then None else Some(Reading(InsertAll(s.catalog, records.value), map[]))
    decreases forest
  {
    hide Fold, Visits, PrimaryCallback, CollectPackage, PackageRecords;
    if forest == [] {
      FoldNothing(s, PrimaryCallback(wanted));
    } else {
      var first, rest := forest[0], forest[1..];
      FoldSplit(s, Visits(first, [top]), AllVisits(rest, [top]), PrimaryCallback(wanted));
      if first.Leaf? || Closing(first).name != PACKAGE {
        OtherFolds(wanted, s, first, top);
        PrimaryFolds(wanted, s, rest, top);
      } else {
        RecordFolds(wanted, s, first, top);
        var next := Fold(s, Visits(first, [top]), PrimaryCallback(wanted));
        if next.Some? {
          PrimaryFolds(wanted, next.value, rest, top);
          if PrimaryRecords(rest, wanted).Some? {
            var fields := CollectPackage(map[], ChildrenOf(first)).value;
            InsertAllSplit(s.catalog, PackageRecords(Closing(first), fields, wanted).value, PrimaryRecords(rest, wanted).value);
          }
        }
      }
    }
  }

  // `primary_vendors`
  method PrimaryVendors(events: seq<Event>, size: nat, wanted: set<Identity>) returns (r: Option<Catalog>)
    ensures var end := Outcome(events, size, PRIMARY_ROOT, Reading(map[], map[]), PrimaryCallback(wanted));
            r == if end.None? then None else Some(end.value.catalog)
  {
    var end := Walk(events, size, PRIMARY_ROOT, Reading(map[], map[]), PrimaryCallback(wanted));
    r := if end.None? then None else Some(end.value.catalog);
  }

  lemma PrimaryTopFolds(wanted: set<Identity>, top: Node, s: Reading)
    requires !top.Leaf? && Closing(top).name == PRIMARY_ROOT && s.fields == map[]
    ensures var records := PrimaryRecords(ChildrenOf(top), wanted);
            Fold(s, Visits(top, []), PrimaryCallback(wanted)) ==
            if records.None? then None else Some(Reading(InsertAll(s.catalog, records.value), map[]))
  {
    hide Fold, Visits, AllVisits, PrimaryRecords, PrimaryCallback;
    NodeVisits(top, []);
    assert [] + [Closing(top).name] == [Closing(top).name];
    PrimaryFolds(wanted, s, ChildrenOf(top), Closing(top).name);
    FoldSplit(s, AllVisits(ChildrenOf(top), [Closing(top).name]), [Visit([], Closing(top))], PrimaryCallback(wanted));
    var inner := Fold(s, AllVisits(ChildrenOf(top), [Closing(top).name]), PrimaryCallback(wanted));
    if inner.Some? {
      FoldOne(inner.value, Visit([], Closing(top)), PrimaryCallback(wanted));
      CallbackIs(wanted, inner.value, Visit([], Closing(top)));
    }
  }

  // Only wanted identities have records.
  lemma {:induction false} RecordsAreWanted(forest: seq<Node>, wanted: set<Identity>, id: Identity)
    requires PrimaryRecords(forest, wanted).Some? && id !in wanted
    ensures VendorsOf(PrimaryRecords(forest, wanted).value, id) == []
  {
    hide CollectPackage;
    if forest != [] {
      RecordsAreWanted(forest[1..], wanted, id);
      if !forest[0].Leaf? && Closing(forest[0]).name == PACKAGE {
        var fields := CollectPackage(map[], ChildrenOf(forest[0])).value;
        var records := PackageRecords(Closing(forest[0]), fields, wanted).value;
        assert |records| <= 1;
        if records != [] {
          assert (records + PrimaryRecords(forest[1..], wanted).value)[1..] == PrimaryRecords(forest[1..], wanted).value;
        } else {
          assert records + PrimaryRecords(forest[1..], wanted).value == PrimaryRecords(forest[1..], wanted).value;
        }
      }
    }
  }

  // The catalog of a repository is that of the records in its document: a wanted
  // identity maps to a vendor if and only if exactly one record carries it, to none if
  // several do, and is absent if no record does; other identities are absent.
  lemma PrimaryCatalogIsExact(events: seq<Event>, size: nat, wanted: set<Identity>, end: Reading, id: Identity)
    requires Outcome(events, size, PRIMARY_ROOT, Reading(map[], map[]), PrimaryCallback(wanted)) == Some(end)
    ensures exists before, top, after ::
              && events == SerialiseAll(before + [top] + after) && WalkableDocument(before, top, after, PRIMARY_ROOT)
              && PrimaryRecords(ChildrenOf(top), wanted).Some?
              && Resolves(end.catalog, id, VendorsOf(PrimaryRecords(ChildrenOf(top), wanted).value, id))
    ensures id !in wanted ==> id !in end.catalog
  {
    hide Outcome, Fold, Visits, PrimaryRecords, SerialiseAll, VendorsOf, Fits, Proper, PrimaryCallback;
    WalkRefinesVisit(events, size, PRIMARY_ROOT, Reading(map[], map[]), PrimaryCallback(wanted), end);
    var before, top, after :| && WalkableDocument(before, top, after, PRIMARY_ROOT)
                              && events == SerialiseAll(before + [top] + after)
                              && Fold(Reading(map[], map[]), Visits(top, []), PrimaryCallback(wanted)) == Some(end);
    PrimaryTopFolds(wanted, top, Reading(map[], map[]));
    var records := PrimaryRecords(ChildrenOf(top), wanted).value;
    EmptyResolves(id);
    InsertAllResolves(map[], records, id, []);
    assert [] + VendorsOf(records, id) == VendorsOf(records, id);
    if id !in wanted {
      RecordsAreWanted(ChildrenOf(top), wanted, id);
    }
  }
}
