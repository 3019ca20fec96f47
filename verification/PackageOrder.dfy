/** The derived orders of installed packages and of changes, field by field. */
module PackageOrder {
  import opened Wrappers
  import opened Decimal
  import opened Packages
  import opened Orders

  function InstalledKey(p: Installed): seq<Field> {
    [Text(p.name), Text(p.version), Text(p.architecture), Text(p.vendor)]
  }

  function ActionRank(a: Action): nat {
    match a
    case Install => 0
    case Upgrade => 1
    case Downgrade => 2
    case Remove => 3
    case Reinstall => 4
  }

  function Optional(s: Option<string>): Field {
    if s.None? then Absent else Text(s.value)
  }

  function ChangeKey(c: Change): seq<Field> {
    [Text(c.name), Text(c.architecture), Number(ActionRank(c.action)), Optional(c.currentVersion),
     Optional(c.proposedVersion), Optional(c.currentVendor), Optional(c.proposedVendor),
     Optional(c.repositoryAlias), Number(c.downloadBytes), Number(c.sizeBefore), Number(c.sizeAfter)]
  }

  lemma InstalledIdentify(s: seq<Installed>)
    ensures KeysIdentify(s, InstalledKey)
  {
    forall a, b | a in s && b in s && InstalledKey(a) == InstalledKey(b)
      ensures a == b
    {
      var k, l := InstalledKey(a), InstalledKey(b);
      assert k[0] == l[0] && k[1] == l[1] && k[2] == l[2] && k[3] == l[3];
    }
  }

  lemma ChangeKeyIdentifies(a: Change, b: Change)
    requires ChangeKey(a) == ChangeKey(b)
    ensures a == b
  {
    var k, l := ChangeKey(a), ChangeKey(b);
    assert k[0] == l[0] && k[1] == l[1] && k[2] == l[2] && k[3] == l[3] && k[4] == l[4] && k[5] == l[5];
    assert k[6] == l[6] && k[7] == l[7] && k[8] == l[8] && k[9] == l[9] && k[10] == l[10];
  }

  lemma ChangesIdentify(s: seq<Change>)
    ensures KeysIdentify(s, ChangeKey)
  {
    hide ChangeKey;
    forall a, b | a in s && b in s && ChangeKey(a) == ChangeKey(b)
      ensures a == b
    {
      ChangeKeyIdentifies(a, b);
    }
  }

  lemma FieldFirst(x: Field, y: Field, a: seq<Field>, b: seq<Field>)
    ensures KeyLe([x] + a, [y] + b) <==> FieldLess(x, y) || (x == y && KeyLe(a, b))
  {
    FieldsOrdered();
    hide FieldLess;
    assert ([x] + a)[1..] == a && ([y] + b)[1..] == b;
  }

  lemma NothingFirst()
    ensures KeyLe([], [])
  {}

  // Packages go by name, then by version, architecture and vendor.
  lemma InstalledOrder(a: Installed, b: Installed)
    ensures KeyLe(InstalledKey(a), InstalledKey(b)) <==>
            || StringLess(a.name, b.name)
            || (a.name == b.name
                && (|| StringLess(a.version, b.version)
                    || (a.version == b.version
                        && (|| StringLess(a.architecture, b.architecture)
                            || (a.architecture == b.architecture && (a.vendor == b.vendor || StringLess(a.vendor, b.vendor)))))))
  {
    hide KeyLe, StringLess;
    var n, v, r, d := Text(a.name), Text(a.version), Text(a.architecture), Text(a.vendor);
    var n', v', r', d' := Text(b.name), Text(b.version), Text(b.architecture), Text(b.vendor);
    assert InstalledKey(a) == [n] + [v, r, d] && InstalledKey(b) == [n'] + [v', r', d'];
    assert [v, r, d] == [v] + [r, d] && [v', r', d'] == [v'] + [r', d'];
    assert [r, d] == [r] + [d] && [r', d'] == [r'] + [d'] && [d] == [d] + [] && [d'] == [d'] + [];
    FieldFirst(n, n', [v, r, d], [v', r', d']);
    FieldFirst(v, v', [r, d], [r', d']);
    FieldFirst(r, r', [d], [d']);
    FieldFirst(d, d', [], []);
    NothingFirst();
  }

  // Changes go by name, then by architecture, then by what is done: installing, upgrading,
  // downgrading, removing, reinstalling.
  lemma ChangeOrder(a: Change, b: Change)
    requires KeyLe(ChangeKey(a), ChangeKey(b))
    ensures a.name == b.name || StringLess(a.name, b.name)
    ensures a.name == b.name ==> a.architecture == b.architecture || StringLess(a.architecture, b.architecture)
    ensures a.name == b.name && a.architecture == b.architecture ==>
              || a.action == b.action || a.action == Install || b.action == Reinstall
              || (a.action == Upgrade && b.action != Install) || (a.action == Downgrade && b.action == Remove)
  {
    hide KeyLe, StringLess, ActionRank;
    var t, u := DetailsKey(a), DetailsKey(b);
    var n, r, x := Text(a.name), Text(a.architecture), Number(ActionRank(a.action));
    var n', r', x' := Text(b.name), Text(b.architecture), Number(ActionRank(b.action));
    assert ChangeKey(a) == [n] + ([r] + ([x] + t)) && ChangeKey(b) == [n'] + ([r'] + ([x'] + u));
    FieldFirst(n, n', [r] + ([x] + t), [r'] + ([x'] + u));
    FieldFirst(r, r', [x] + t, [x'] + u);
    FieldFirst(x, x', t, u);
    StringOrder(a.name, b.name, a.name);
    StringOrder(a.architecture, b.architecture, a.architecture);
    if ActionRank(a.action) <= ActionRank(b.action) {
      RanksAre(a.action, b.action);
    }
  }

  lemma RanksAre(a: Action, b: Action)
    requires ActionRank(a) <= ActionRank(b)
    ensures a == b || a == Install || b == Reinstall || (a == Upgrade && b != Install) || (a == Downgrade && b == Remove)
  {}

  function DetailsKey(c: Change): seq<Field> {
    [Optional(c.currentVersion), Optional(c.proposedVersion), Optional(c.currentVendor), Optional(c.proposedVendor),
     Optional(c.repositoryAlias), Number(c.downloadBytes), Number(c.sizeBefore), Number(c.sizeAfter)]
  }
}
