/** Which field of the metadata is which: what a package of the RPM database and one of a
    repository add to the catalogs, and what a completed change says. */
module VendorRecords {
  import opened Wrappers
  import opened Decimal
  import opened Packages
  import opened Xml
  import opened MetadataWalk
  import opened VendorCatalog
  import opened VendorEnrichment

  // The parts of a package's header, as the database or a repository writes them.
  datatype Header = Header(name: string, epoch: string, version: string, release: string, architecture: string, vendor: string)

  // The identity they make: the epoch is a 64-bit number and is left out if it is zero.
  ghost predicate Identifies(h: Header, id: Identity) {
    && h.version != "" && h.release != "" && ParseU64(h.epoch).Some?
    && id.name == h.name && id.architecture == h.architecture
    && id.edition == if ParseU64(h.epoch) == Some(0) then h.version + "-" + h.release
                     else ToDecimal(ParseU64(h.epoch).value) + ":" + h.version + "-" + h.release
  }

  lemma EditionIs(h: Header)
    ensures var edition := Edition(Some(h.epoch), Some(h.version), Some(h.release));
            && (edition.Some? ==> Identifies(h, Identity(h.name, edition.value, h.architecture)))
            && (edition.None? ==> forall id :: !Identifies(h, id))
  {
    hide ParseU64, ToDecimal;
  }

  // ------------------------------------------------------------------ the RPM database

  // An element with nothing but text in it.
  function TextElement(ns: string, local: string, text: string): Node {
    Element(Tag(local, Some(ns), local, Some(map[])), [Leaf(Text(text))])
  }

  lemma TextElementCloses(ns: string, local: string, text: string)
    ensures Closing(TextElement(ns, local, text)).name == Name(ns, local)
    ensures Closing(TextElement(ns, local, text)).text
            == if local in ["name", "arch", "vendor", "checksum", "string", "integer"] then text else ""
  {
    var leaf := [Leaf(Text(text))];
    assert OwnText(leaf) == text + OwnText(leaf[1..]);
    assert text + "" == text;
  }

  // Six fields of a package: all strings, or the epoch an integer.
  function DatabasePackage(tag: Tag, h: Header, kind: string): Node {
    Element(tag, [TextElement("", "string", h.name), TextElement("", kind, h.epoch), TextElement("", "string", h.version),
                  TextElement("", "string", h.release), TextElement("", "string", h.architecture), TextElement("", "string", h.vendor)])
  }

  lemma FieldFirst(local: string, text: string, rest: seq<Node>, fields: seq<string>)
    requires HeaderFields(rest) == Some(fields)
    ensures HeaderFields([TextElement("", local, text)] + rest)
            == if local == "string" || local == "integer" then Some([text] + fields) else None
  {
    hide Closing;
    TextElementCloses("", local, text);
    var node := TextElement("", local, text);
    assert ([node] + rest)[1..] == rest && !node.Leaf?;
  }

  lemma FieldsAre(h: Header, kind: string)
    ensures HeaderFields(ChildrenOf(DatabasePackage(Tag("package", Some(""), "package", None), h, kind)))
            == if kind == "string" || kind == "integer"
               then Some([h.name, h.epoch, h.version, h.release, h.architecture, h.vendor]) else None
  {
    hide HeaderFields;
    var f1, f2, f3 := TextElement("", "string", h.name), TextElement("", kind, h.epoch), TextElement("", "string", h.version);
    var f4, f5, f6 := TextElement("", "string", h.release), TextElement("", "string", h.architecture), TextElement("", "string", h.vendor);
    NoFields();
    assert [f6] + [] == [f6] && [f5] + [f6] == [f5, f6] && [f4] + [f5, f6] == [f4, f5, f6];
    assert [f3] + [f4, f5, f6] == [f3, f4, f5, f6] && [f2] + [f3, f4, f5, f6] == [f2, f3, f4, f5, f6];
    FieldFirst("string", h.vendor, [], []);
    assert [h.vendor] + [] == [h.vendor];
    FieldFirst("string", h.architecture, [f6], [h.vendor]);
    assert [h.architecture] + [h.vendor] == [h.architecture, h.vendor];
    FieldFirst("string", h.release, [f5, f6], [h.architecture, h.vendor]);
    assert [h.release] + [h.architecture, h.vendor] == [h.release, h.architecture, h.vendor];
    var tail := [h.version, h.release, h.architecture, h.vendor];
    FieldFirst("string", h.version, [f4, f5, f6], [h.release, h.architecture, h.vendor]);
    assert [h.version] + [h.release, h.architecture, h.vendor] == tail;
    FieldFirst(kind, h.epoch, [f3, f4, f5, f6], tail);
    if kind == "string" || kind == "integer" {
      FieldFirst("string", h.name, [f2, f3, f4, f5, f6], [h.epoch] + tail);
      assert [h.name] + ([h.epoch] + tail) == [h.name, h.epoch, h.version, h.release, h.architecture, h.vendor];
    } else {
      BadFieldBehind(f1, [f2, f3, f4, f5, f6]);
    }
    assert [f1] + [f2, f3, f4, f5, f6] == [f1, f2, f3, f4, f5, f6];
  }

  lemma NoFields()
    ensures HeaderFields([]) == Some([])
  {}

  lemma BadFieldBehind(node: Node, rest: seq<Node>)
    requires HeaderFields(rest) == None
    ensures HeaderFields([node] + rest) == None
  {
    assert ([node] + rest)[1..] == rest;
  }

  // A package of the database adds the record of its name, its edition, its architecture
  // and its vendor; it is an error if the fields make no edition or one has another tag.
  lemma DatabasePackageIs(h: Header, kind: string, attributes: Option<map<string, string>>, rest: seq<Node>, later: seq<Record>)
    requires InstalledRecords(rest) == Some(later)
    ensures var package := DatabasePackage(Tag("package", Some(""), "package", attributes), h, kind);
            var records := InstalledRecords([package] + rest);
            && (records.Some? <==> (kind == "string" || kind == "integer") && exists id :: Identifies(h, id))
            && (records.Some? ==> |records.value| == 1 + |later| && records.value[1..] == later
                                  && Identifies(h, records.value[0].identity) && records.value[0].vendor == h.vendor)
  {
    hide Identifies, Edition, HeaderFields;
    var package := DatabasePackage(Tag("package", Some(""), "package", attributes), h, kind);
    assert ([package] + rest)[1..] == rest;
    assert ChildrenOf(package) == ChildrenOf(DatabasePackage(Tag("package", Some(""), "package", None), h, kind));
    FieldsAre(h, kind);
    EditionIs(h);
  }

  // Fewer fields than six, or more, make no record.
  lemma SixFieldsOnly(fields: seq<string>)
    ensures HeaderRecord(fields).Some? ==> |fields| == 6
  {
    hide Edition;
  }

  // -------------------------------------------------------------------- a repository

  const Common := "http://linux.duke.edu/metadata/common"
  const Rpm := "http://linux.duke.edu/metadata/rpm"

  function VersionElement(h: Header): Node {
    Brief(Tag("version", Some(Common), "version", Some(map["epoch" := h.epoch, "ver" := h.version, "rel" := h.release])))
  }

  // The format element of a package, with its vendor if it names one.
  function FormatElement(vendor: Option<string>): Node {
    Element(Tag("format", Some(Common), "format", Some(map[])),
            if vendor.Some? then [TextElement(Rpm, "vendor", vendor.value)] else [])
  }

  function RepositoryPackage(h: Header, kind: string, vendor: Option<string>): Node {
    Element(Tag("package", Some(Common), "package", Some(map["type" := kind])),
            [TextElement(Common, "name", h.name), TextElement(Common, "arch", h.architecture), VersionElement(h), FormatElement(vendor)])
  }

  lemma CollectFirst(fields: Fields, node: Node, rest: seq<Node>)
    requires !node.Leaf? && Closing(node).name != FORMAT
    ensures CollectPackage(fields, [node] + rest)
            == var next := Collect(fields, ChildEntry(Closing(node)));
               if next.None? then None else CollectPackage(next.value, rest)
  {
    hide Closing, ChildEntry, Collect;
    assert ([node] + rest)[1..] == rest;
  }

  lemma FormatIs(fields: Fields, vendor: Option<string>)
    requires "vendor" !in fields
    ensures CollectPackage(fields, [FormatElement(vendor)])
            == Some(if vendor.Some? then fields["vendor" := vendor.value] else fields)
  {
    hide CollectPackage, CollectFormat, Closing;
    var node := FormatElement(vendor);
    FormatCloses(vendor);
    FormatChildren(fields, vendor);
    LastChild(fields, node);
  }

  lemma FormatCloses(vendor: Option<string>)
    ensures Closing(FormatElement(vendor)).name == FORMAT
  {}

  lemma LastChild(fields: Fields, node: Node)
    requires !node.Leaf? && Closing(node).name == FORMAT
    ensures CollectPackage(fields, [node]) == CollectFormat(fields, ChildrenOf(node))
  {
    hide CollectFormat, Closing;
    assert [node][1..] == [];
  }

  lemma FormatChildren(fields: Fields, vendor: Option<string>)
    requires "vendor" !in fields
    ensures CollectFormat(fields, ChildrenOf(FormatElement(vendor)))
            == Some(if vendor.Some? then fields["vendor" := vendor.value] else fields)
  {
    hide Closing;
    if vendor.Some? {
      TextElementCloses(Rpm, "vendor", vendor.value);
      assert [TextElement(Rpm, "vendor", vendor.value)][1..] == [];
    }
  }

  lemma FieldsOfPackage(h: Header, kind: string, vendor: Option<string>, edition: string)
    requires Edition(Some(h.epoch), Some(h.version), Some(h.release)) == Some(edition)
    ensures var fields := map["name" := h.name, "arch" := h.architecture, "edition" := edition];
            CollectPackage(map[], ChildrenOf(RepositoryPackage(h, kind, vendor)))
            == Some(if vendor.Some? then fields["vendor" := vendor.value] else fields)
  {
    hide CollectPackage, Closing, Edition;
    var f1, f2 := TextElement(Common, "name", h.name), TextElement(Common, "arch", h.architecture);
    var f3, f4 := VersionElement(h), FormatElement(vendor);
    TextElementCloses(Common, "name", h.name);
    TextElementCloses(Common, "arch", h.architecture);
    VersionCloses(h);
    CollectFirst(map[], f1, [f2, f3, f4]);
    CollectFirst(map["name" := h.name], f2, [f3, f4]);
    CollectFirst(map["name" := h.name, "arch" := h.architecture], f3, [f4]);
    var fields := map["name" := h.name, "arch" := h.architecture, "edition" := edition];
    FormatIs(fields, vendor);
    assert [f1] + [f2, f3, f4] == [f1, f2, f3, f4] && [f2] + [f3, f4] == [f2, f3, f4] && [f3] + [f4] == [f3, f4];
  }

  lemma VersionCloses(h: Header)
    ensures var item := Closing(VersionElement(h));
            && item.name == Name(Common, "version") && Attribute(item, "epoch") == Some(h.epoch)
            && Attribute(item, "ver") == Some(h.version) && Attribute(item, "rel") == Some(h.release)
  {}

  lemma BadVersion(h: Header, kind: string, vendor: Option<string>)
    requires Edition(Some(h.epoch), Some(h.version), Some(h.release)) == None
    ensures CollectPackage(map[], ChildrenOf(RepositoryPackage(h, kind, vendor))) == None
  {
    hide CollectPackage, Closing, Edition;
    var f1, f2 := TextElement(Common, "name", h.name), TextElement(Common, "arch", h.architecture);
    var f3, f4 := VersionElement(h), FormatElement(vendor);
    TextElementCloses(Common, "name", h.name);
    TextElementCloses(Common, "arch", h.architecture);
    VersionCloses(h);
    CollectFirst(map[], f1, [f2, f3, f4]);
    CollectFirst(map["name" := h.name], f2, [f3, f4]);
    CollectFirst(map["name" := h.name, "arch" := h.architecture], f3, [f4]);
    assert [f1] + [f2, f3, f4] == [f1, f2, f3, f4] && [f2] + [f3, f4] == [f2, f3, f4] && [f3] + [f4] == [f3, f4];
  }

  // A package of a repository that is wanted adds the record of its identity and its
  // vendor, blank if it names none, and must be an RPM; one that is not adds nothing.
  lemma RepositoryPackageIs(h: Header, kind: string, vendor: Option<string>, rest: seq<Node>, wanted: set<Identity>, later: seq<Record>)
    requires PrimaryRecords(rest, wanted) == Some(later)
    ensures var records := PrimaryRecords([RepositoryPackage(h, kind, vendor)] + rest, wanted);
            && (records.Some? <==> exists id :: Identifies(h, id) && (id in wanted ==> kind == "rpm"))
            && forall id :: records.Some? && Identifies(h, id) ==>
                 records.value == (if id in wanted then [Record(id, if vendor.Some? then vendor.value else "")] else []) + later
  {
    hide Edition, CollectPackage, PrimaryRecords;
    var package := RepositoryPackage(h, kind, vendor);
    RecordsFirst(package, rest, wanted);
    assert Closing(package).name == PACKAGE && Attribute(Closing(package), "type") == Some(kind);
    EditionIs(h);
    var edition := Edition(Some(h.epoch), Some(h.version), Some(h.release));
    if edition.Some? {
      FieldsOfPackage(h, kind, vendor, edition.value);
      assert Identifies(h, Identity(h.name, edition.value, h.architecture));
    } else {
      BadVersion(h, kind, vendor);
    }
  }

  lemma RecordsFirst(package: Node, rest: seq<Node>, wanted: set<Identity>)
    requires !package.Leaf? && Closing(package).name == PACKAGE
    ensures PrimaryRecords([package] + rest, wanted)
            == var later, fields := PrimaryRecords(rest, wanted), CollectPackage(map[], ChildrenOf(package));
               var records := if fields.None? then None else PackageRecords(Closing(package), fields.value, wanted);
               if records.None? || later.None? then None else Some(records.value + later.value)
  {
    hide Closing, CollectPackage, PackageRecords;
    assert ([package] + rest)[1..] == rest;
  }

  // ------------------------------------------------------------------ the completed change

  // The one vendor that a catalog gives for a package, if it is a usable one.
  predicate Gives(catalog: Catalog, id: Identity, vendor: string) {
    id in catalog && catalog[id] == Some(vendor) && ValidVendor(vendor)
  }

  // A change is completed with the vendor of the installed version, unless it is newly
  // installed, and with that of the proposed version in its repository, unless it is
  // removed; nothing else of it changes.
  lemma CompletedIs(c: Change, d: Change, installed: Catalog, metadataValid: seq<string>, catalogs: string -> Option<Catalog>)
    ensures Completed(c, installed, metadataValid, catalogs) == Some(d) <==>
            && d == c.(currentVendor := d.currentVendor, proposedVendor := d.proposedVendor)
            && (if c.action == Install then d.currentVendor == None
                else d.currentVendor.Some? && c.currentVersion.Some?
                     && Gives(installed, Identity(c.name, c.currentVersion.value, c.architecture), d.currentVendor.value))
            && (if c.action == Remove then d.proposedVendor == None
                else d.proposedVendor.Some? && c.proposedVersion.Some? && c.repositoryAlias.Some?
                     && ValidAlias(c.repositoryAlias.value) && c.repositoryAlias.value in metadataValid
                     && catalogs(c.repositoryAlias.value).Some?
                     && Gives(catalogs(c.repositoryAlias.value).value,
                              Identity(c.name, c.proposedVersion.value, c.architecture), d.proposedVendor.value))
  {
    hide ValidVendor, ValidAlias;
  }
}
