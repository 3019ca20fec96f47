/** Which package changes the signed policy permits: vendor grants and their scopes. */
module VendorPolicy {
  import opened Wrappers
  import opened Packages
  import opened Issues

  datatype SolverPolicy = SolverPolicy(
    allowedRemovals: seq<string>, vendorTransitions: seq<VendorTransition>, lockstep: seq<seq<string>>)

  // `ReleaseManifest::solver_policy`
  function PolicyOf(manifest: Manifest): SolverPolicy {
    SolverPolicy(manifest.allowedRemovals, manifest.vendorTransitions, manifest.lockstep)
  }

  // --------------------------------------------------------------- well-formed grants

  predicate DistinctStrings(s: seq<string>) {
    forall i, j :: 0 <= i < j < |s| ==> s[i] != s[j]
  }

  predicate WellFormedRule(rule: VendorTransition) {
    && ValidVendor(rule.fromVendor) && ValidVendor(rule.toVendor)
    && (rule.packages.Some? ==>
          && rule.packages.value != [] && DistinctStrings(rule.packages.value)
          && forall name :: name in rule.packages.value ==> ValidPackage(name))
  }

  predicate SamePair(a: VendorTransition, b: VendorTransition) {
    a.fromVendor == b.fromVendor && a.toVendor == b.toVendor
  }

  // A pair of vendors is granted either as a whole or by package lists, never both.
  predicate ValidRules(rules: seq<VendorTransition>) {
    && (forall rule :: rule in rules ==> WellFormedRule(rule))
    && (forall a, b :: a in rules && b in rules && SamePair(a, b) ==> a.packages.Some? == b.packages.Some?)
  }

  // `valid_vendor_transitions`, with the pairs seen so far in a map
  method ValidVendorTransitions(rules: seq<VendorTransition>) returns (ok: bool)
    ensures ok <==> ValidRules(rules)
  {
    hide WellFormedRule;
    var pairs: map<(string, string), bool> := map[];
    for i := 0 to |rules|
      invariant forall k :: 0 <= k < i ==> WellFormedRule(rules[k])
      invariant forall k :: 0 <= k < i ==>
                  (rules[k].fromVendor, rules[k].toVendor) in pairs
                  && pairs[(rules[k].fromVendor, rules[k].toVendor)] == rules[k].packages.Some?
      invariant forall pair :: pair in pairs ==>
                  exists k :: 0 <= k < i && pair == (rules[k].fromVendor, rules[k].toVendor)
    {
      var rule := rules[i];
      if !WellFormedRule(rule) {
        return false;
      }
      var pair := (rule.fromVendor, rule.toVendor);
      if pair in pairs && pairs[pair] != rule.packages.Some? {
        assert exists k :: 0 <= k < i && SamePair(rules[k], rule) && rules[k].packages.Some? != rule.packages.Some?;
        return false;
      }
      pairs := pairs[pair := rule.packages.Some?];
    }
    ok := true;
  }

  // ------------------------------------------------------------------ what is permitted

  predicate Covers(rule: VendorTransition, fromVendor: string, toVendor: string, name: string) {
    && rule.fromVendor == fromVendor && rule.toVendor == toVendor
    && (rule.packages.Some? ==> name in rule.packages.value)
  }

  predicate Granted(rules: seq<VendorTransition>, fromVendor: string, toVendor: string, name: string) {
    exists rule :: rule in rules && Covers(rule, fromVendor, toVendor, name)
  }

  predicate KnownVendor(vendor: Option<string>) {
    vendor.Some? && ValidVendor(vendor.value)
  }

  predicate Permitted(change: Change, policy: SolverPolicy) {
    match change.action
    case Install => change.currentVendor.None? && KnownVendor(change.proposedVendor)
    case Remove => KnownVendor(change.currentVendor) && change.proposedVendor.None?
    case _ =>
      && KnownVendor(change.currentVendor) && KnownVendor(change.proposedVendor)
      && (|| change.currentVendor == change.proposedVendor
          || (ValidRules(policy.vendorTransitions)
              && Granted(policy.vendorTransitions, change.currentVendor.value, change.proposedVendor.value, change.name)))
  }

  function VendorBlockers(changes: seq<Change>, policy: SolverPolicy): seq<Issue> {
    if changes == [] then []
    else
      var last := changes[|changes| - 1];
      VendorBlockers(changes[..|changes| - 1], policy)
      + if Permitted(last, policy) then [] else [UnauthorizedVendorChange(last.name)]
  }

  // `vendor_policy_blockers`
  method VendorPolicyBlockers(changes: seq<Change>, policy: SolverPolicy) returns (blockers: seq<Issue>)
    ensures blockers == VendorBlockers(changes, policy)
  {
    hide ValidVendor, ValidRules, Granted;
    var validRules := ValidVendorTransitions(policy.vendorTransitions);
    blockers := [];
    for i := 0 to |changes|
      invariant blockers == VendorBlockers(changes[..i], policy)
    {
      var change := changes[i];
      assert changes[..i + 1][..i] == changes[..i];
      var fromKnown := change.currentVendor.Some? && ValidVendor(change.currentVendor.value);
      var toKnown := change.proposedVendor.Some? && ValidVendor(change.proposedVendor.value);
      var permitted :=
        match change.action
        case Install => !fromKnown && change.currentVendor.None? && toKnown
        case Remove => fromKnown && change.proposedVendor.None?
        case _ =>
          fromKnown && toKnown
          && (change.currentVendor.value == change.proposedVendor.value
              || (validRules
                  && Granted(policy.vendorTransitions, change.currentVendor.value, change.proposedVendor.value, change.name)));
      if !permitted {
        blockers := blockers + [UnauthorizedVendorChange(change.name)];
      }
    }
    assert changes[..|changes|] == changes;
  }

  lemma {:induction false} NoVendorBlockers(changes: seq<Change>, policy: SolverPolicy)
    ensures VendorBlockers(changes, policy) == [] <==> forall change :: change in changes ==> Permitted(change, policy)
    ensures forall issue :: issue in VendorBlockers(changes, policy) <==>
              exists change :: change in changes && !Permitted(change, policy) && issue == UnauthorizedVendorChange(change.name)
  {
    hide Permitted;
    if changes != [] {
      var front, last := changes[..|changes| - 1], changes[|changes| - 1];
      assert changes == front + [last];
      NoVendorBlockers(front, policy);
    }
  }

  // The package lists granted for a pair of vendors, taken together.
  function ScopeOf(rules: seq<VendorTransition>, fromVendor: string, toVendor: string): set<string> {
    set rule, name | rule in rules && rule.fromVendor == fromVendor && rule.toVendor == toVendor
                     && rule.packages.Some? && name in rule.packages.value :: name
  }

  predicate IsScopedPair(rules: seq<VendorTransition>, fromVendor: string, toVendor: string) {
    exists rule :: rule in rules && rule.fromVendor == fromVendor && rule.toVendor == toVendor && rule.packages.Some?
  }

  // Of a pair with any package list, exactly the union of its lists is permitted.
  lemma ScopedPairPermitsItsLists(rules: seq<VendorTransition>, fromVendor: string, toVendor: string, name: string)
    requires ValidRules(rules) && IsScopedPair(rules, fromVendor, toVendor)
    ensures Granted(rules, fromVendor, toVendor, name) <==> name in ScopeOf(rules, fromVendor, toVendor)
  {
    hide WellFormedRule;
    var scoped :| scoped in rules && scoped.fromVendor == fromVendor && scoped.toVendor == toVendor && scoped.packages.Some?;
    if Granted(rules, fromVendor, toVendor, name) {
      var rule :| rule in rules && Covers(rule, fromVendor, toVendor, name);
      assert SamePair(scoped, rule);
    }
    if name in ScopeOf(rules, fromVendor, toVendor) {
      var rule :| rule in rules && rule.fromVendor == fromVendor && rule.toVendor == toVendor
                  && rule.packages.Some? && name in rule.packages.value;
      assert Covers(rule, fromVendor, toVendor, name);
    }
  }

  // What is permitted does not depend on the order, or repetition, of the rules.
  lemma PermissionIgnoresOrder(change: Change, policy: SolverPolicy, rules: seq<VendorTransition>)
    requires forall rule :: rule in rules <==> rule in policy.vendorTransitions
    ensures ValidRules(rules) <==> ValidRules(policy.vendorTransitions)
    ensures Permitted(change, policy) <==> Permitted(change, policy.(vendorTransitions := rules))
  {
    hide WellFormedRule, ValidVendor;
    if change.currentVendor.Some? && change.proposedVendor.Some? {
      GrantIgnoresOrder(rules, policy.vendorTransitions, change.currentVendor.value, change.proposedVendor.value, change.name);
      GrantIgnoresOrder(policy.vendorTransitions, rules, change.currentVendor.value, change.proposedVendor.value, change.name);
    }
  }

  lemma GrantIgnoresOrder(a: seq<VendorTransition>, b: seq<VendorTransition>, fromVendor: string, toVendor: string, name: string)
    requires forall rule :: rule in a <==> rule in b
    ensures Granted(a, fromVendor, toVendor, name) ==> Granted(b, fromVendor, toVendor, name)
  {}
}
