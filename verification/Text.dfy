/** Characters, their UTF-8 width, and substring search. */
module Text {
  import opened Wrappers

  // Unicode White_Space (`char::is_whitespace`)
  predicate IsWhitespace(c: char) {
    var n := c as int;
    || 0x09 <= n <= 0x0d || n == 0x20 || n == 0x85 || n == 0xa0 || n == 0x1680
    || 0x2000 <= n <= 0x200a || n == 0x2028 || n == 0x2029 || n == 0x202f || n == 0x205f || n == 0x3000
  }

  function Width(c: char): (w: nat)
    ensures 1 <= w <= 4
  {
    var n := c as int;
    if n < 0x80 then 1 else if n < 0x800 then 2 else if n < 0x10000 then 3 else 4
  }

  // Length in bytes (`str::len`)
  function ByteLength(s: string): nat {
    if s == "" then 0 else ByteLength(s[..|s| - 1]) + Width(s[|s| - 1])
  }

  // `to_ascii_lowercase`
  function Lower(c: char): char {
    if 'A' <= c <= 'Z' then (c as int + 32) as char else c
  }

  predicate OccursAt(s: string, i: nat, key: string) {
    i + |key| <= |s| && forall k :: 0 <= k < |key| ==> s[i + k] == key[k]
  }

  predicate OccursAtIgnoringCase(s: string, i: nat, key: string) {
    i + |key| <= |s| && forall k :: 0 <= k < |key| ==> Lower(s[i + k]) == key[k]
  }

  // Position of the first occurrence at or after `from` (`find`)
  function Find(s: string, from: nat, key: string): (r: Option<nat>)
    ensures r.Some? ==> from <= r.value && OccursAt(s, r.value, key)
    ensures forall i :: from <= i && (r.None? || i < r.value) ==> !OccursAt(s, i, key)
    decreases |s| - from
  {
    if from + |key| > |s| then None
    else if OccursAt(s, from, key) then Some(from)
    else if from == |s| then None
    else Find(s, from + 1, key)
  }

  function FindIgnoringCase(s: string, from: nat, key: string): (r: Option<nat>)
    ensures r.Some? ==> from <= r.value && OccursAtIgnoringCase(s, r.value, key)
    ensures forall i :: from <= i && (r.None? || i < r.value) ==> !OccursAtIgnoringCase(s, i, key)
    decreases |s| - from
  {
    if from + |key| > |s| then None
    else if OccursAtIgnoringCase(s, from, key) then Some(from)
    else if from == |s| then None
    else FindIgnoringCase(s, from + 1, key)
  }

  // Position of the first character satisfying `stop` at or after `from`, or the end.
  function FindChar(s: string, from: nat, stop: char -> bool): (end: nat)
    requires from <= |s|
    ensures from <= end <= |s|
    ensures end < |s| ==> stop(s[end])
    ensures forall k :: from <= k < end ==> !stop(s[k])
    decreases |s| - from
  {
    if from == |s| || stop(s[from]) then from else FindChar(s, from + 1, stop)
  }

  lemma FindCharIs(s: string, from: nat, stop: char -> bool, end: nat)
    requires from <= end <= |s|
    requires end < |s| ==> stop(s[end])
    requires forall k :: from <= k < end ==> !stop(s[k])
    ensures FindChar(s, from, stop) == end
  {}
}
