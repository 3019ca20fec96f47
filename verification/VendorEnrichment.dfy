/** Completing a solver result with vendor identities: all of it, or nothing. */
module VendorEnrichment {
  import opened Wrappers
  import opened Decimal
  import opened Packages
  import opened VendorCatalog

  // The vendors a repository's metadata gives for the wanted identities, if it can be read.
  type RepositoryReader = (string, set<Identity>) -> Option<Catalog>

  predicate ValidAlias(alias: string) {
    && alias != "" && alias != "." && alias != ".." && |alias| <= 128
    && forall c :: c in alias ==> IsAlphanumeric(c) || c in "._:-"
  }

  // `lookup`
  function Lookup(catalog: Catalog, id: Identity): Option<string> {
    if id in catalog && catalog[id].Some? && ValidVendor(catalog[id].value) then catalog[id] else None
  }

  predicate UsableAlias(c: Change, metadataValid: seq<string>) {
    c.repositoryAlias.Some? && ValidAlias(c.repositoryAlias.value) && c.repositoryAlias.value in metadataValid
  }

  // The identities whose vendor is to come from a repository.
  function WantedFrom(changes: seq<Change>, alias: string): set<Identity> {
    set c | c in changes && !c.action.Remove? && c.repositoryAlias == Some(alias) && c.proposedVersion.Some?
      :: Identity(c.name, c.proposedVersion.value, c.architecture)
  }

  // Some candidate comes from the repository.
  predicate Mentions(changes: seq<Change>, alias: string) {
    exists c :: c in changes && !c.action.Remove? && c.repositoryAlias == Some(alias)
  }

  predicate AllUsable(changes: seq<Change>, metadataValid: seq<string>) {
    forall c :: c in changes && !c.action.Remove? ==> UsableAlias(c, metadataValid) && c.proposedVersion.Some?
  }

  // One change with both of its vendors, if each can be told.
  function Completed(c: Change, installed: Catalog, metadataValid: seq<string>, catalogs: string -> Option<Catalog>): Option<Change> {
    var current :=
      if c.action.Install? then Some(None)
      else if c.currentVersion.None? then None
      else
        var vendor := Lookup(installed, Identity(c.name, c.currentVersion.value, c.architecture));
        if vendor.None? then None else Some(vendor);
    var proposed :=
      if c.action.Remove? then Some(None)
      else if !UsableAlias(c, metadataValid) || c.proposedVersion.None? || catalogs(c.repositoryAlias.value).None? then None
      else
        var vendor := Lookup(catalogs(c.repositoryAlias.value).value, Identity(c.name, c.proposedVersion.value, c.architecture));
        if vendor.None? then None else Some(vendor);
    if current.None? || proposed.None? then None
    else Some(c.(currentVendor := current.value, proposedVendor := proposed.value))
  }

  class SolverResult {
    const metadataValid: seq<string>
    var changes: seq<Change>

    constructor (metadataValid: seq<string>, changes: seq<Change>)
      ensures this.metadataValid == metadataValid && this.changes == changes
    {
      this.metadataValid, this.changes := metadataValid, changes;
    }

    // `enrich_from_rpm_xml`: every change with both of its vendors, or no change at all
    method Enrich(installed: Option<Catalog>, reader: RepositoryReader) returns (ok: bool)
      modifies this`changes
      ensures ok <==> installed.Some?
                      && forall c :: c in old(changes) ==>
                           Completed(c, installed.value, metadataValid, CatalogOf(old(changes), reader)).Some?
      ensures ok ==> |changes| == |old(changes)|
                     && forall i :: 0 <= i < |changes| ==>
                          Some(changes[i]) == Completed(old(changes)[i], installed.value, metadataValid, CatalogOf(old(changes), reader))
      ensures !ok ==> changes == old(changes)
    {
      hide Completed, AllUsable, WantedFrom, Mentions;
      if installed.None? {
        return false;
      }
      var all := changes;
      EachIsNeeded(all, installed.value, metadataValid, reader);
      var collected, wanted := CollectWanted(all, metadataValid);
      if !collected {
        return false;
      }
      var candidates := ReadCatalogs(wanted, reader);
      if candidates.None? {
        return false;
      }
      AllRead(all, metadataValid, wanted, candidates.value, reader);
      var enriched := CompleteAll(all, installed.value, metadataValid, candidates.value, CatalogOf(all, reader));
      if enriched.None? {
        return false;
      }
      changes := enriched.value;
      ok := true;
    }
  }

  // The catalog of each repository, for what is wanted of it.
  function CatalogOf(changes: seq<Change>, reader: RepositoryReader): string -> Option<Catalog> {
    (alias: string) => reader(alias, WantedFrom(changes, alias))
  }

  // A change that names no usable repository, or one that cannot be read, fails.
  lemma EachIsNeeded(changes: seq<Change>, installed: Catalog, metadataValid: seq<string>, reader: RepositoryReader)
    ensures (forall c :: c in changes ==> Completed(c, installed, metadataValid, CatalogOf(changes, reader)).Some?) ==>
              && AllUsable(changes, metadataValid)
              && forall alias :: Mentions(changes, alias) ==> reader(alias, WantedFrom(changes, alias)).Some?
  {
    hide WantedFrom, Lookup, ValidAlias;
  }

  method ReadCatalogs(wanted: map<string, set<Identity>>, reader: RepositoryReader) returns (r: Option<map<string, Catalog>>)
    ensures r.Some? <==> forall alias :: alias in wanted ==> reader(alias, wanted[alias]).Some?
    ensures r.Some? ==> r.value.Keys == wanted.Keys
                        && forall alias :: alias in wanted ==> reader(alias, wanted[alias]) == Some(r.value[alias])
  {
    var candidates: map<string, Catalog> := map[];
    var aliases := wanted.Keys;
    while aliases != {}
      invariant aliases <= wanted.Keys && candidates.Keys == wanted.Keys - aliases
      invariant forall alias :: alias in candidates ==> reader(alias, wanted[alias]) == Some(candidates[alias])
      decreases |aliases|
    {
      var alias :| alias in aliases;
      var catalog := reader(alias, wanted[alias]);
      if catalog.None? {
        return None;
      }
      candidates := candidates[alias := catalog.value];
      aliases := aliases - {alias};
    }
    r := Some(candidates);
  }

  // What every change that is installed or upgraded needs has been read.
  predicate Ready(c: Change, metadataValid: seq<string>, candidates: map<string, Catalog>) {
    !c.action.Remove? ==> UsableAlias(c, metadataValid) && c.proposedVersion.Some? && c.repositoryAlias.value in candidates
  }

  lemma AllRead(changes: seq<Change>, metadataValid: seq<string>, wanted: map<string, set<Identity>>,
                candidates: map<string, Catalog>, reader: RepositoryReader)
    requires AllUsable(changes, metadataValid) && candidates.Keys == wanted.Keys
    requires forall alias :: alias in wanted <==> Mentions(changes, alias)
    requires forall alias :: alias in wanted ==> wanted[alias] == WantedFrom(changes, alias)
    requires forall alias :: alias in wanted ==> reader(alias, wanted[alias]) == Some(candidates[alias])
    ensures forall alias :: alias in candidates ==> CatalogOf(changes, reader)(alias) == Some(candidates[alias])
    ensures forall c :: c in changes ==> Ready(c, metadataValid, candidates)
  {
    hide WantedFrom, ValidAlias;
    forall c | c in changes
      ensures Ready(c, metadataValid, candidates)
    {
      if !c.action.Remove? {
        assert Mentions(changes, c.repositoryAlias.value);
      }
    }
  }

  method CompleteAll(changes: seq<Change>, installed: Catalog, metadataValid: seq<string>,
                     candidates: map<string, Catalog>, ghost catalogOf: string -> Option<Catalog>)
    returns (r: Option<seq<Change>>)
    requires forall c :: c in changes ==> Ready(c, metadataValid, candidates)
    requires forall alias :: alias in candidates ==> catalogOf(alias) == Some(candidates[alias])
    ensures r.Some? <==> forall c :: c in changes ==> Completed(c, installed, metadataValid, catalogOf).Some?
    ensures r.Some? ==> |r.value| == |changes|
                        && forall i :: 0 <= i < |changes| ==>
                             Some(r.value[i]) == Completed(changes[i], installed, metadataValid, catalogOf)
  {
    hide Completed, Ready;
    var enriched: seq<Change> := [];
    for i := 0 to |changes|
      invariant |enriched| == i
      invariant forall k :: 0 <= k < i ==> Some(enriched[k]) == Completed(changes[k], installed, metadataValid, catalogOf)
    {
      var change := Complete(changes[i], installed, metadataValid, candidates, catalogOf);
      if change.None? {
        return None;
      }
      enriched := enriched + [change.value];
    }
    r := Some(enriched);
  }

  method Complete(c: Change, installed: Catalog, metadataValid: seq<string>,
                  candidates: map<string, Catalog>, ghost catalogOf: string -> Option<Catalog>)
    returns (r: Option<Change>)
    requires Ready(c, metadataValid, candidates)
    requires forall alias :: alias in candidates ==> catalogOf(alias) == Some(candidates[alias])
    ensures r == Completed(c, installed, metadataValid, catalogOf)
  {
    hide ValidAlias, Lookup;
    var current, proposed: Option<string> := None, None;
    if !c.action.Install? {
      if c.currentVersion.None? {
        return None;
      }
      current := Lookup(installed, Identity(c.name, c.currentVersion.value, c.architecture));
      if current.None? {
        return None;
      }
    }
    if !c.action.Remove? {
      proposed := Lookup(candidates[c.repositoryAlias.value], Identity(c.name, c.proposedVersion.value, c.architecture));
      if proposed.None? {
        return None;
      }
    }
    r := Some(c.(currentVendor := current, proposedVendor := proposed));
  }

  // The identities wanted of each repository, unless a change names none that is usable.
  method CollectWanted(changes: seq<Change>, metadataValid: seq<string>) returns (ok: bool, wanted: map<string, set<Identity>>)
    ensures ok <==> AllUsable(changes, metadataValid)
    ensures ok ==> forall alias :: alias in wanted <==> Mentions(changes, alias)
    ensures ok ==> forall alias :: alias in wanted ==> wanted[alias] == WantedFrom(changes, alias)
  {
    hide UsableAlias, WantedFrom, Mentions;
    wanted := map[];
    NothingWanted();
    for i := 0 to |changes|
      invariant AllUsable(changes[..i], metadataValid)
      invariant forall alias :: alias in wanted <==> Mentions(changes[..i], alias)
      invariant forall alias :: alias in wanted ==> wanted[alias] == WantedFrom(changes[..i], alias)
    {
      var c := changes[i];
      assert changes[..i + 1] == changes[..i] + [c];
      WantedGrows(changes[..i], c);
      if !c.action.Remove? {
        if !UsableAlias(c, metadataValid) || c.proposedVersion.None? {
          return false, map[];
        }
        IsUsable(c, metadataValid);
        var alias := c.repositoryAlias.value;
        var id := Identity(c.name, c.proposedVersion.value, c.architecture);
        if alias !in wanted {
          NoneWantedYet(changes[..i], alias);
        }
        wanted := wanted[alias := (if alias in wanted then wanted[alias] else {}) + {id}];
      }
    }
    assert changes[..|changes|] == changes;
    ok := true;
  }

  lemma IsUsable(c: Change, metadataValid: seq<string>)
    requires UsableAlias(c, metadataValid)
    ensures c.repositoryAlias.Some?
  {}

  lemma NothingWanted()
    ensures forall alias :: !Mentions([], alias)
  {}

  lemma NoneWantedYet(changes: seq<Change>, alias: string)
    requires !Mentions(changes, alias)
    ensures WantedFrom(changes, alias) == {}
  {}

  lemma WantedGrows(changes: seq<Change>, c: Change)
    ensures forall alias :: WantedFrom(changes + [c], alias) ==
              WantedFrom(changes, alias)
              + if !c.action.Remove? && c.repositoryAlias == Some(alias) && c.proposedVersion.Some?
                then {Identity(c.name, c.proposedVersion.value, c.architecture)} else {}
    ensures forall alias :: Mentions(changes + [c], alias) <==>
              Mentions(changes, alias) || (!c.action.Remove? && c.repositoryAlias == Some(alias))
  {
    forall alias
      ensures WantedFrom(changes + [c], alias) ==
              WantedFrom(changes, alias)
              + if !c.action.Remove? && c.repositoryAlias == Some(alias) && c.proposedVersion.Some?
                then {Identity(c.name, c.proposedVersion.value, c.architecture)} else {}
      ensures Mentions(changes + [c], alias) <==>
              Mentions(changes, alias) || (!c.action.Remove? && c.repositoryAlias == Some(alias))
    {
      assert c in changes + [c];
    }
  }
}
