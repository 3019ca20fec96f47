/** Masking of secrets written as `key=value` (`mask_assignments`). */
module MaskAssignments {
  import opened Wrappers
  import opened Text

  const STARS := "***"
  const KEYS: seq<string> := ["token=", "password=", "passwd=", "secret=", "apikey=", "api_key="]

  predicate EndsValue(c: char) {
    IsWhitespace(c) || c == '&' || c == ';'
  }

  predicate IsKey(key: string) {
    key != "" && forall k :: 0 <= k < |key| ==> key[k] != '*'
  }

  // The value at `start` is exactly three stars, up to a delimiter or the end.
  predicate MaskedAt(s: string, start: nat) {
    && start + 3 <= |s| && s[start] == '*' && s[start + 1] == '*' && s[start + 2] == '*'
    && (start + 3 == |s| || EndsValue(s[start + 3]))
  }

  ghost predicate Masked(s: string, key: string) {
    forall i: nat :: OccursAtIgnoringCase(s, i, key) ==> MaskedAt(s, i + |key|)
  }

  ghost predicate MaskedBefore(s: string, key: string, bound: nat) {
    forall i: nat :: i < bound && OccursAtIgnoringCase(s, i, key) ==> MaskedAt(s, i + |key|)
  }

  function ValueEnd(s: string, start: nat): (end: nat)
    requires start <= |s|
    ensures start <= end <= |s| && (end < |s| ==> EndsValue(s[end]))
  {
    FindChar(s, start, EndsValue)
  }

  // The value at `start` replaced by stars.
  function Replace(s: string, start: nat): (r: string)
    requires start <= |s|
    ensures |r| == start + 3 + |s| - ValueEnd(s, start)
  {
    s[..start] + STARS + s[ValueEnd(s, start)..]
  }

  function MaskFrom(s: string, from: nat, key: string): string
    requires from <= |s| && IsKey(key)
    decreases |s| - from
  {
    var found := FindIgnoringCase(s, from, key);
    if found.None? then s
    else
      var start := found.value + |key|;
      MaskFrom(Replace(s, start), start + 3, key)
  }

  lemma {:induction false} MaskFromNext(s: string, from: nat, key: string)
    requires from <= |s| && IsKey(key)
    ensures var found := FindIgnoringCase(s, from, key);
            MaskFrom(s, from, key) == if found.None? then s
              else MaskFrom(Replace(s, found.value + |key|), found.value + |key| + 3, key)
  {
    hide Replace;
  }

  // One pass of the loop over the keys. It ends because the bytes after the search
  // position become fewer, however long the stars make the text.
  method MaskKey(input: string, key: string) returns (result: string)
    requires IsKey(key)
    ensures result == MaskFrom(input, 0, key)
  {
    hide MaskFrom, Replace;
    result := input;
    var searchFrom: nat := 0;
    while true
      invariant searchFrom <= |result|
      invariant MaskFrom(result, searchFrom, key) == MaskFrom(input, 0, key)
      decreases |result| - searchFrom
    {
      MaskFromNext(result, searchFrom, key);
      var found := FindIgnoringCase(result, searchFrom, key);
      if found.None? {
        break;
      }
      var valueStart := found.value + |key|;
      result := ReplaceRange(result, valueStart);
      searchFrom := valueStart + 3;
    }
  }

  // `replace_range(value_start..value_end, "***")`
  method ReplaceRange(s: string, start: nat) returns (r: string)
    requires start <= |s|
    ensures r == Replace(s, start)
  {
    var end := ValueEnd(s, start);
    r := s[..start] + STARS + s[end..];
  }

  function MaskKeys(s: string, keys: seq<string>): string
    requires forall k :: 0 <= k < |keys| ==> IsKey(keys[k])
  {
    if keys == [] then s
    else MaskFrom(MaskKeys(s, keys[..|keys| - 1]), 0, keys[|keys| - 1])
  }

  method MaskAssignmentValues(input: string) returns (result: string)
    ensures result == MaskKeys(input, KEYS)
  {
    hide MaskFrom;
    result := input;
    for i := 0 to |KEYS|
      invariant result == MaskKeys(input, KEYS[..i])
    {
      result := MaskKey(result, KEYS[i]);
      assert KEYS[..i + 1][..i] == KEYS[..i];
    }
    assert KEYS[..|KEYS|] == KEYS;
  }

  // -------------------------------------------------------------- one replacement

  // After a value is replaced, any key occurs only before the stars or after them,
  // where it occurred already.
  lemma OccurrencesAfterReplace(s: string, start: nat, key: string, i: nat)
    requires start <= |s| && IsKey(key)
    requires OccursAtIgnoringCase(Replace(s, start), i, key)
    ensures i + |key| <= start || i >= start + 3
    ensures i + |key| <= start ==> OccursAtIgnoringCase(s, i, key)
    ensures i >= start + 3 ==> OccursAtIgnoringCase(s, i - start - 3 + ValueEnd(s, start), key)
  {
    var r, end := Replace(s, start), ValueEnd(s, start);
    KeyHasNoStar(r, key, i);
    assert r[start] == '*' && r[start + 1] == '*' && r[start + 2] == '*';
    forall k | 0 <= k < |key| && i >= start + 3
      ensures Lower(s[i - start - 3 + end + k]) == key[k]
    {
      assert r[i + k] == s[end..][i + k - start - 3];
    }
    forall k | 0 <= k < |key| && i + |key| <= start ensures Lower(s[i + k]) == key[k] {
      assert r[i + k] == s[i + k];
    }
  }

  lemma KeyHasNoStar(s: string, key: string, i: nat)
    requires IsKey(key) && OccursAtIgnoringCase(s, i, key)
    ensures forall q :: i <= q < i + |key| ==> s[q] != '*'
  {
    forall q | i <= q < i + |key| ensures s[q] != '*' {
      assert Lower(s[i + (q - i)]) == key[q - i];
    }
  }

  // A replacement behind an occurrence of `other` keeps every value that was masked
  // before it, and every one after it.
  lemma ReplaceKeepsMasked(s: string, at: nat, other: string, p: nat)
    requires IsKey(other) && OccursAtIgnoringCase(s, at, other)
    requires p <= at + |other| && MaskedAt(s, p)
    ensures MaskedAt(Replace(s, at + |other|), p)
  {
    var start := at + |other|;
    var r, end := Replace(s, start), ValueEnd(s, start);
    KeyHasNoStar(s, other, at);
    if p < start {
      assert p + 3 <= at;
      assert r[p] == s[p] && r[p + 1] == s[p + 1] && r[p + 2] == s[p + 2] && r[p + 3] == s[p + 3];
    } else {
      ReplaceMasks(s, start);
    }
  }

  lemma ReplaceMasks(s: string, start: nat)
    requires start <= |s|
    ensures MaskedAt(Replace(s, start), start)
  {
    var r, end := Replace(s, start), ValueEnd(s, start);
    if end < |s| {
      assert r[start + 3] == s[end..][0];
    }
  }

  lemma ReplaceShiftsMasked(s: string, start: nat, p: nat)
    requires start <= |s| && ValueEnd(s, start) <= p && MaskedAt(s, p)
    ensures MaskedAt(Replace(s, start), p - ValueEnd(s, start) + start + 3)
  {
    var r, end := Replace(s, start), ValueEnd(s, start);
    var q := p - end + start + 3;
    assert r[start + 3..] == s[end..];
    assert r[q] == s[end..][p - end] && r[q + 1] == s[end..][p - end + 1] && r[q + 2] == s[end..][p - end + 2];
    if p + 3 < |s| {
      assert r[q + 3] == s[end..][p - end + 3];
    }
  }

  lemma ReplaceKeepsAll(s: string, at: nat, other: string, key: string)
    requires IsKey(other) && OccursAtIgnoringCase(s, at, other) && IsKey(key) && Masked(s, key)
    ensures Masked(Replace(s, at + |other|), key)
  {
    var start := at + |other|;
    var r := Replace(s, start);
    forall i: nat | OccursAtIgnoringCase(r, i, key) ensures MaskedAt(r, i + |key|) {
      OccurrencesAfterReplace(s, start, key, i);
      if i + |key| <= start {
        ReplaceKeepsMasked(s, at, other, i + |key|);
      } else {
        ReplaceShiftsMasked(s, start, i - start - 3 + ValueEnd(s, start) + |key|);
      }
    }
  }

  lemma ReplaceExtendsMasked(s: string, from: nat, at: nat, key: string)
    requires IsKey(key) && from <= at && OccursAtIgnoringCase(s, at, key)
    requires MaskedBefore(s, key, from)
    requires forall i :: from <= i < at ==> !OccursAtIgnoringCase(s, i, key)
    ensures MaskedBefore(Replace(s, at + |key|), key, at + |key| + 3)
  {
    var start := at + |key|;
    var r := Replace(s, start);
    forall i: nat | i < start + 3 && OccursAtIgnoringCase(r, i, key) ensures MaskedAt(r, i + |key|) {
      OccurrencesAfterReplace(s, start, key, i);
      if i == at {
        ReplaceMasks(s, start);
      } else {
        ReplaceKeepsMasked(s, at, key, i + |key|);
      }
    }
  }

  // ------------------------------------------------------------------- whole passes

  lemma {:induction false} PassMasks(s: string, from: nat, key: string)
    requires from <= |s| && IsKey(key) && MaskedBefore(s, key, from)
    ensures Masked(MaskFrom(s, from, key), key)
    decreases |s| - from
  {
    hide MaskFrom, Replace;
    MaskFromNext(s, from, key);
    var found := FindIgnoringCase(s, from, key);
    if found.Some? {
      ReplaceExtendsMasked(s, from, found.value, key);
      var start := found.value + |key|;
      PassMasks(Replace(s, start), start + 3, key);
    }
  }

  lemma {:induction false} PassKeepsMasked(s: string, from: nat, other: string, key: string)
    requires from <= |s| && IsKey(other) && IsKey(key) && Masked(s, key)
    ensures Masked(MaskFrom(s, from, other), key)
    decreases |s| - from
  {
    hide MaskFrom, Replace, Masked;
    MaskFromNext(s, from, other);
    var found := FindIgnoringCase(s, from, other);
    if found.Some? {
      ReplaceKeepsAll(s, found.value, other, key);
      var start := found.value + |other|;
      PassKeepsMasked(Replace(s, start), start + 3, other, key);
    }
  }

  lemma ReplaceStarsIsIdentity(s: string, start: nat)
    requires start <= |s| && MaskedAt(s, start)
    ensures Replace(s, start) == s
  {
    FindCharIs(s, start, EndsValue, start + 3);
  }

  lemma {:induction false} PassOnMaskedIsIdentity(s: string, from: nat, key: string)
    requires from <= |s| && IsKey(key) && Masked(s, key)
    ensures MaskFrom(s, from, key) == s
    decreases |s| - from
  {
    hide MaskFrom, Replace;
    MaskFromNext(s, from, key);
    var found := FindIgnoringCase(s, from, key);
    if found.Some? {
      var start := found.value + |key|;
      assert MaskedAt(s, start);
      ReplaceStarsIsIdentity(s, start);
      PassOnMaskedIsIdentity(s, start + 3, key);
    }
  }

  ghost predicate AllMasked(s: string, keys: seq<string>) {
    forall k :: 0 <= k < |keys| ==> Masked(s, keys[k])
  }

  lemma {:induction false} AllPassesMask(s: string, keys: seq<string>)
    requires forall k :: 0 <= k < |keys| ==> IsKey(keys[k])
    ensures AllMasked(MaskKeys(s, keys), keys)
  {
    hide MaskFrom, Masked;
    if keys != [] {
      var n := |keys| - 1;
      var before := MaskKeys(s, keys[..n]);
      AllPassesMask(s, keys[..n]);
      PassMasks(before, 0, keys[n]);
      forall k | 0 <= k < n ensures Masked(MaskKeys(s, keys), keys[k]) {
        assert keys[..n][k] == keys[k];
        PassKeepsMasked(before, 0, keys[n], keys[k]);
      }
    }
  }

  lemma {:induction false} MaskedIsFixed(s: string, keys: seq<string>)
    requires forall k :: 0 <= k < |keys| ==> IsKey(keys[k])
    requires AllMasked(s, keys)
    ensures MaskKeys(s, keys) == s
  {
    if keys != [] {
      var n := |keys| - 1;
      assert AllMasked(s, keys[..n]);
      MaskedIsFixed(s, keys[..n]);
      PassOnMaskedIsIdentity(s, 0, keys[n]);
    }
  }

  // In the result every occurrence of every key, in any case, is followed by three
  // stars and then a delimiter or the end: no pass undoes an earlier one.
  lemma EveryAssignmentIsMasked(s: string)
    ensures forall k :: 0 <= k < |KEYS| ==> Masked(MaskKeys(s, KEYS), KEYS[k])
  {
    AllPassesMask(s, KEYS);
  }

  lemma MaskingIsIdempotent(s: string)
    ensures MaskKeys(MaskKeys(s, KEYS), KEYS) == MaskKeys(s, KEYS)
  {
    AllPassesMask(s, KEYS);
    MaskedIsFixed(MaskKeys(s, KEYS), KEYS);
  }
}
