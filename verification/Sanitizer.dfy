/** Sanitizing of one technical line before it is stored (`sanitize_technical_line`). */
module Sanitizer {
  import opened Wrappers
  import opened Text
  import opened MaskAssignments

  const MAX_TECHNICAL_LINE_BYTES := 4096
  const ESC := 0x1b as char
  const BEL := 0x07 as char

  // ------------------------------------------------------- terminal control sequences

  predicate IsFinal(c: char) {
    0x40 <= c as int <= 0x7e
  }

  // End of a control sequence whose parameters start at `i`
  function CsiEnd(s: string, i: nat): (end: nat)
    requires i <= |s|
    ensures i <= end <= |s|
    decreases |s| - i
  {
    if i == |s| then i else if IsFinal(s[i]) then i + 1 else CsiEnd(s, i + 1)
  }

  // End of an operating system command whose text starts at `i`
  function OscEnd(s: string, i: nat): (end: nat)
    requires i <= |s|
    ensures i <= end <= |s|
    decreases |s| - i
  {
    if i == |s| then i
    else if s[i] == BEL then i + 1
    else if s[i] == ESC && i + 1 < |s| && s[i + 1] == '\\' then i + 2
    else OscEnd(s, i + 1)
  }

  function TokenEnd(s: string, i: nat): (end: nat)
    requires i < |s|
    ensures i < end <= |s|
  {
    if s[i] != ESC || i + 1 == |s| then i + 1
    else if s[i + 1] == '[' then CsiEnd(s, i + 2)
    else if s[i + 1] == ']' then OscEnd(s, i + 2)
    else i + 2
  }

  predicate IsClean(c: char) {
    c == '\t' || (c as int >= 0x20 && c as int != 0x7f)
  }

  function TokenText(c: char): string {
    if c == '\n' then " " else if IsClean(c) then [c] else ""
  }

  // The scanner advances one byte past an escape. Landing inside a character it
  // skips bytes 0x80 to 0x9f and panics on any other: it slices off a boundary.
  predicate LowContinuation(c: char) {
    var n := c as int;
    && n % 64 < 32
    && (Width(c) >= 3 ==> n / 64 % 64 < 32)
    && (Width(c) == 4 ==> n / 4096 % 64 < 32)
  }

  predicate PanicsAt(s: string, i: nat)
    requires i < |s|
  {
    s[i] == ESC && i + 1 < |s| && s[i + 1] as int >= 0x80 && !LowContinuation(s[i + 1])
  }

  // None stands for the panic.
  function StripFrom(s: string, i: nat): Option<string>
    requires i <= |s|
    decreases |s| - i
  {
    if i == |s| then Some("")
    else if PanicsAt(s, i) then None
    else
      var rest := StripFrom(s, TokenEnd(s, i));
      if rest.None? then None else Some(TokenText(s[i]) + rest.value)
  }

  function Prepend(output: string, rest: Option<string>): Option<string> {
    if rest.None? then None else Some(output + rest.value)
  }

  lemma StripFirst(s: string)
    ensures StripFrom(s, 0) == Prepend("", StripFrom(s, 0))
  {
    if StripFrom(s, 0).Some? {
      assert "" + StripFrom(s, 0).value == StripFrom(s, 0).value;
    }
  }

  lemma {:induction false} StripNext(s: string, i: nat, output: string)
    requires i < |s|
    ensures Prepend(output, StripFrom(s, i)) ==
      if PanicsAt(s, i) then None
      else Prepend(output + TokenText(s[i]), StripFrom(s, TokenEnd(s, i)))
    ensures StripFrom(s, |s|) == Some("")
  {
    if !PanicsAt(s, i) && StripFrom(s, TokenEnd(s, i)).Some? {
      var rest := StripFrom(s, TokenEnd(s, i)).value;
      assert output + (TokenText(s[i]) + rest) == output + TokenText(s[i]) + rest;
    }
  }

  method StripTerminalControls(input: string) returns (result: Option<string>)
    ensures result == StripFrom(input, 0)
  {
    var output, index := "", 0;
    StripFirst(input);
    hide StripFrom;
    while index < |input|
      invariant index <= |input|
      invariant StripFrom(input, 0) == Prepend(output, StripFrom(input, index))
    {
      StripNext(input, index, output);
      ghost var start, before := index, output;
      var c := input[index];
      if c == ESC {
        index := index + 1;
        if index >= |input| {
          assert output + TokenText(c) == output;
          break;
        }
        if input[index] as int >= 0x80 && !LowContinuation(input[index]) {
          return None;
        }
        if input[index] == '[' {
          index := index + 1;
          while index < |input|
            invariant start + 2 <= index <= |input| && CsiEnd(input, index) == CsiEnd(input, start + 2)
          {
            var final := IsFinal(input[index]);
            index := index + 1;
            if final {
              break;
            }
          }
        } else if input[index] == ']' {
          index := index + 1;
          while index < |input|
            invariant start + 2 <= index <= |input| && OscEnd(input, index) == OscEnd(input, start + 2)
          {
            if input[index] == BEL {
              index := index + 1;
              break;
            }
            if input[index] == ESC && index + 1 < |input| && input[index + 1] == '\\' {
              index := index + 2;
              break;
            }
            index := index + 1;
          }
        } else {
          index := index + 1;
        }
      } else if c == '\t' {
        output := output + "\t";
        index := index + 1;
      } else if c == '\n' {
        output := output + " ";
        index := index + 1;
      } else if (c as int) < 0x20 || c as int == 0x7f {
        index := index + 1;
      } else {
        output := output + [c];
        index := index + 1;
      }
      assert index == TokenEnd(input, start);
      assert output == before + TokenText(c);
    }
    StripEnd(input, output);
    result := Some(output);
  }

  lemma StripEnd(s: string, output: string)
    ensures Prepend(output, StripFrom(s, |s|)) == Some(output)
  {
    assert output + "" == output;
  }

  // `i` is where the scanner starts a token when it starts one at `from`.
  ghost predicate StartsToken(s: string, from: nat, i: nat)
    decreases |s| - from
  {
    from == i || (from < |s| && StartsToken(s, TokenEnd(s, from), i))
  }

  // The scan panics exactly when it meets an escape followed by a character
  // outside ASCII with a continuation byte above 0x9f.
  lemma {:induction false} StripPanicsExactly(s: string, from: nat)
    requires from <= |s|
    ensures StripFrom(s, from).None? <==> exists i: nat :: i < |s| && StartsToken(s, from, i) && PanicsAt(s, i)
    decreases |s| - from
  {
    if from < |s| {
      var next := TokenEnd(s, from);
      StripPanicsExactly(s, next);
      if StripFrom(s, from).None? {
        if PanicsAt(s, from) {
          assert StartsToken(s, from, from);
        } else {
          var i: nat :| i < |s| && StartsToken(s, next, i) && PanicsAt(s, i);
          assert StartsToken(s, from, i);
        }
      } else {
        assert forall i: nat :: i < |s| && StartsToken(s, from, i) && i != from ==> StartsToken(s, next, i);
      }
    } else {
      assert forall i: nat :: i < |s| ==> !StartsToken(s, from, i);
    }
  }

  // An escape and the letter e with an acute accent: in UTF-8 its second byte is 0xa9.
  lemma AccentAfterEscapePanics()
    ensures StripFrom([ESC, 0xe9 as char], 0) == None
  {
    var s := [ESC, 0xe9 as char];
    assert PanicsAt(s, 0);
  }

  ghost predicate AllClean(s: string) {
    forall k :: 0 <= k < |s| ==> IsClean(s[k])
  }

  // No control character below 0x20 but the tab, and no 0x7f, is left.
  lemma {:induction false} StripLeavesNoControl(s: string, from: nat)
    requires from <= |s| && StripFrom(s, from).Some?
    ensures AllClean(StripFrom(s, from).value)
    decreases |s| - from
  {
    if from < |s| {
      StripLeavesNoControl(s, TokenEnd(s, from));
    }
  }

  lemma {:induction false} StripKeepsClean(s: string, from: nat)
    requires from <= |s| && AllClean(s)
    ensures StripFrom(s, from) == Some(s[from..])
    decreases |s| - from
  {
    if from == |s| {
      assert s[from..] == "";
    } else {
      assert IsClean(s[from]) && s[from] != ESC && s[from] != '\n';
      assert TokenEnd(s, from) == from + 1 && TokenText(s[from]) == [s[from]];
      StripKeepsClean(s, from + 1);
      assert s[from..] == [s[from]] + s[from + 1..];
    }
  }

  lemma StrippingIsIdempotent(s: string)
    requires StripFrom(s, 0).Some?
    ensures StripFrom(StripFrom(s, 0).value, 0) == StripFrom(s, 0)
  {
    StripLeavesNoControl(s, 0);
    var t := StripFrom(s, 0).value;
    StripKeepsClean(t, 0);
    assert t[0..] == t;
  }

  // The controls from 0x80 to 0x9f, CSI among them, are not stripped: in UTF-8
  // their first byte is 0xc2, which the scanner takes for text.
  lemma UpperControlsSurvive(c: char)
    requires 0x80 <= c as int <= 0x9f
    ensures StripFrom([c], 0) == Some([c])
  {
    StripKeepsClean([c], 0);
  }

  predicate IsUpperControl(c: char) {
    0x80 <= c as int <= 0x9f
  }

  ghost predicate HoldsUpperControl(s: string) {
    exists k :: 0 <= k < |s| && IsUpperControl(s[k])
  }

  // One of them is left exactly when the scanner meets one where a token may start, that
  // is, outside the sequences it removes.
  lemma {:induction false} UpperControlsLeftExactly(s: string, from: nat)
    requires from <= |s| && StripFrom(s, from).Some?
    ensures HoldsUpperControl(StripFrom(s, from).value) <==>
              exists i: nat :: i < |s| && StartsToken(s, from, i) && IsUpperControl(s[i])
    decreases |s| - from
  {
    if from < |s| {
      var next, text := TokenEnd(s, from), TokenText(s[from]);
      var rest := StripFrom(s, next).value;
      UpperControlsLeftExactly(s, next);
      UpperControlsConcat(text, rest);
      assert HoldsUpperControl(text) <==> IsUpperControl(s[from]) by {
        if IsUpperControl(s[from]) {
          assert IsUpperControl(text[0]);
        }
      }
      if IsUpperControl(s[from]) {
        assert StartsToken(s, from, from);
      } else if i: nat :| i < |s| && StartsToken(s, next, i) && IsUpperControl(s[i]) {
        assert StartsToken(s, from, i);
      }
    } else {
      assert forall i: nat :: i < |s| ==> !StartsToken(s, from, i);
    }
  }

  lemma UpperControlsConcat(a: string, b: string)
    ensures HoldsUpperControl(a + b) <==> HoldsUpperControl(a) || HoldsUpperControl(b)
  {
    var s := a + b;
    if k :| 0 <= k < |a| && IsUpperControl(a[k]) {
      assert s[k] == a[k];
    }
    if k :| 0 <= k < |b| && IsUpperControl(b[k]) {
      assert s[|a| + k] == b[k];
    }
  }

  // -------------------------------------------------------------------- home paths

  const HOME := "/home/"
  const USER := "<user>"

  predicate EndsUser(c: char) {
    c == '/' || IsWhitespace(c)
  }

  function MaskHome(s: string): string
    decreases |s|
  {
    var found := Find(s, 0, HOME);
    if found.None? then s
    else
      var after := found.value + |HOME|;
      s[..found.value] + HOME + USER + MaskHome(s[FindChar(s, after, EndsUser)..])
  }

  method MaskHomePaths(input: string) returns (output: string)
    ensures output == MaskHome(input)
  {
    output := "";
    var remainder := input;
    while true
      invariant MaskHome(input) == output + MaskHome(remainder)
      decreases |remainder|
    {
      var found := Find(remainder, 0, HOME);
      if found.None? {
        break;
      }
      ghost var before := output + MaskHome(remainder);
      var after := found.value + |HOME|;
      var userEnd := FindChar(remainder, after, EndsUser);
      output := output + remainder[..found.value] + HOME + USER;
      remainder := remainder[userEnd..];
      assert before == output + MaskHome(remainder);
    }
    output := output + remainder;
  }

  ghost predicate HomeMaskedAt(s: string, i: nat) {
    && OccursAt(s, i + |HOME|, USER)
    && (i + |HOME| + |USER| == |s| || EndsUser(s[i + |HOME| + |USER|]))
  }

  // Every home path names `<user>` and nothing else.
  ghost predicate HomesMasked(s: string) {
    forall i: nat :: OccursAt(s, i, HOME) ==> HomeMaskedAt(s, i)
  }

  lemma MaskHomeHead(s: string)
    ensures s == "" ==> MaskHome(s) == ""
    ensures s != "" ==> MaskHome(s) != "" && MaskHome(s)[0] == s[0]
  {}

  lemma {:induction false} EveryHomeIsMasked(s: string)
    ensures HomesMasked(MaskHome(s))
    decreases |s|
  {
    var found := Find(s, 0, HOME);
    var r := MaskHome(s);
    if found.Some? {
      var p := found.value;
      var tail := s[FindChar(s, p + |HOME|, EndsUser)..];
      var rest := MaskHome(tail);
      EveryHomeIsMasked(tail);
      MaskHomeHead(tail);
      forall i: nat | OccursAt(r, i, HOME) ensures HomeMaskedAt(r, i) {
        MaskedHomeStep(s, p, tail, rest, i);
      }
    }
  }

  lemma HomeChars(s: string, i: nat)
    ensures OccursAt(s, i, HOME) <==>
      && i + 6 <= |s| && s[i] == '/' && s[i + 1] == 'h' && s[i + 2] == 'o'
      && s[i + 3] == 'm' && s[i + 4] == 'e' && s[i + 5] == '/'
  {
    if OccursAt(s, i, HOME) {
      assert s[i + 0] == HOME[0] && s[i + 1] == HOME[1] && s[i + 2] == HOME[2];
      assert s[i + 3] == HOME[3] && s[i + 4] == HOME[4] && s[i + 5] == HOME[5];
    }
  }

  lemma UserChars(s: string, i: nat)
    ensures OccursAt(s, i, USER) <==>
      && i + 6 <= |s| && s[i] == '<' && s[i + 1] == 'u' && s[i + 2] == 's'
      && s[i + 3] == 'e' && s[i + 4] == 'r' && s[i + 5] == '>'
  {
    if OccursAt(s, i, USER) {
      assert s[i + 0] == USER[0] && s[i + 1] == USER[1] && s[i + 2] == USER[2];
      assert s[i + 3] == USER[3] && s[i + 4] == USER[4] && s[i + 5] == USER[5];
    }
  }

  // `r` is `front`, then a masked home path, then `rest`.
  ghost predicate HomeSplits(r: string, front: string, rest: string) {
    r == front + "/home/<user>" + rest
  }

  lemma MaskedHomeStep(s: string, p: nat, tail: string, rest: string, i: nat)
    requires Find(s, 0, HOME) == Some(p) && HomesMasked(rest)
    requires rest != "" ==> EndsUser(rest[0])
    requires OccursAt(s[..p] + HOME + USER + rest, i, HOME)
    ensures HomeMaskedAt(s[..p] + HOME + USER + rest, i)
  {
    var r := s[..p] + HOME + USER + rest;
    assert HomeSplits(r, s[..p], rest) by {
      assert HOME + USER == "/home/<user>";
    }
    hide HomesMasked, Find;
    HomeChars(r, i);
    HomeChars(s, p);
    if i < p {
      NoEarlierHome(s, p, r, rest, i);
    } else if i < p + 12 {
      FirstHomeMasked(s[..p], r, rest, i);
    } else {
      LaterHome(s[..p], r, rest, i);
    }
  }

  lemma NoEarlierHome(s: string, p: nat, r: string, rest: string, i: nat)
    requires i < p && p + 6 <= |s| && OccursAt(s, p, HOME)
    requires HomeSplits(r, s[..p], rest) && OccursAt(r, i, HOME)
    ensures OccursAt(s, i, HOME)
  {
    HomeChars(r, i);
    HomeChars(s, p);
    HomeChars(s, i);
    assert forall k :: 0 <= k < p + 6 && k < |r| ==> r[k] == s[k];
  }

  lemma FirstHomeMasked(front: string, r: string, rest: string, i: nat)
    requires HomeSplits(r, front, rest) && |front| <= i < |front| + 12
    requires OccursAt(r, i, HOME) && (rest != "" ==> EndsUser(rest[0]))
    ensures HomeMaskedAt(r, i)
  {
    HomeChars(r, i);
    UserChars(r, i + 6);
  }

  lemma LaterHome(front: string, r: string, rest: string, i: nat)
    requires HomeSplits(r, front, rest) && i >= |front| + 12
    requires OccursAt(r, i, HOME) && HomesMasked(rest)
    ensures HomeMaskedAt(r, i)
  {
    var j := i - |front| - 12;
    assert r[|front| + 12..] == rest;
    HomeChars(r, i);
    HomeChars(rest, j);
    assert HomeMaskedAt(rest, j);
    UserChars(rest, j + 6);
    UserChars(r, i + 6);
  }

  // -------------------------------------------------------------------------- URLs

  const HTTP := "http://"
  const HTTPS := "https://"

  function FirstUrl(s: string): Option<nat> {
    var http, https := Find(s, 0, HTTP), Find(s, 0, HTTPS);
    if http.None? then https
    else if https.None? || http.value <= https.value then http else https
  }

  // Position of the last `c`, or None (`rfind`)
  function LastIndex(s: string, c: char): (r: Option<nat>)
    ensures r.Some? ==> r.value < |s| && s[r.value] == c
  {
    if s == "" then None
    else if s[|s| - 1] == c then Some(|s| - 1)
    else LastIndex(s[..|s| - 1], c)
  }

  predicate StartsQuery(c: char) {
    c == '?' || c == '#'
  }

  function SchemeEnd(url: string): (end: nat)
    ensures end <= |url|
  {
    var found := Find(url, 0, "://");
    if found.Some? then found.value + 3 else 0
  }

  // Credentials before the host and everything after the path are replaced.
  function MaskUrl(url: string): string {
    var schemeEnd := SchemeEnd(url);
    var pathStart := FindChar(url, schemeEnd, c => c == '/');
    var queryStart := FindChar(url, pathStart, StartsQuery);
    var at := LastIndex(url[schemeEnd..pathStart], '@');
    var shown :=
      if at.None? then url[..queryStart]
      else url[..schemeEnd] + STARS + url[schemeEnd + at.value..queryStart];
    shown + (if queryStart < |url| then "?***" else "")
  }

  function MaskUrls(s: string): string
    decreases |s|
  {
    var start := FirstUrl(s);
    if start.None? then s
    else
      var end := FindChar(s, start.value, IsWhitespace);
      UrlHasNoSpace(s, start.value);
      s[..start.value] + MaskUrl(s[start.value..end]) + MaskUrls(s[end..])
  }

  lemma UrlHasNoSpace(s: string, start: nat)
    requires FirstUrl(s) == Some(start)
    ensures start + 7 <= |s| && s[start] == 'h' && s[start + 1] == 't' && s[start + 2] == 't' && s[start + 3] == 'p'
    ensures (s[start + 4] == ':' && s[start + 5] == '/' && s[start + 6] == '/')
         || (start + 8 <= |s| && s[start + 4] == 's' && s[start + 5] == ':' && s[start + 6] == '/' && s[start + 7] == '/')
    ensures FindChar(s, start, IsWhitespace) >= start + 7
    ensures s[start + 4] == 's' ==> FindChar(s, start, IsWhitespace) >= start + 8
  {
    if OccursAt(s, start, HTTP) {
      assert s[start + 0] == HTTP[0] && s[start + 1] == HTTP[1] && s[start + 2] == HTTP[2] && s[start + 3] == HTTP[3];
      assert s[start + 4] == HTTP[4] && s[start + 5] == HTTP[5] && s[start + 6] == HTTP[6];
    } else {
      assert OccursAt(s, start, HTTPS);
      assert s[start + 0] == HTTPS[0] && s[start + 1] == HTTPS[1] && s[start + 2] == HTTPS[2] && s[start + 3] == HTTPS[3];
      assert s[start + 4] == HTTPS[4] && s[start + 5] == HTTPS[5] && s[start + 6] == HTTPS[6] && s[start + 7] == HTTPS[7];
    }
  }

  lemma {:induction false} MaskUrlsUnfold(s: string)
    ensures FirstUrl("").None? && MaskUrls("") == ""
    ensures FirstUrl(s).None? ==> MaskUrls(s) == s
    ensures FirstUrl(s).Some? ==>
      var start := FirstUrl(s).value;
      var end := FindChar(s, start, IsWhitespace);
      && end > start
      && MaskUrls(s) == s[..start] + MaskUrl(s[start..end]) + MaskUrls(s[end..])
  {
    hide MaskUrl;
    if FirstUrl(s).Some? {
      UrlHasNoSpace(s, FirstUrl(s).value);
    }
  }

  lemma MaskUrlsNext(s: string, output: string)
    ensures MaskUrls("") == ""
    ensures FirstUrl(s).None? ==> MaskUrls(s) == s
    ensures FirstUrl(s).Some? ==>
      var start := FirstUrl(s).value;
      var end := FindChar(s, start, IsWhitespace);
      && end > start
      && output + MaskUrls(s) == output + s[..start] + MaskUrl(s[start..end]) + MaskUrls(s[end..])
  {
    MaskUrlsUnfold(s);
    hide MaskUrl, MaskUrls, FirstUrl;
    if FirstUrl(s).Some? {
      var start := FirstUrl(s).value;
      var end := FindChar(s, start, IsWhitespace);
      assert output + (s[..start] + MaskUrl(s[start..end]) + MaskUrls(s[end..]))
        == output + s[..start] + MaskUrl(s[start..end]) + MaskUrls(s[end..]);
    }
  }

  method MaskUrlPaths(input: string) returns (output: string)
    ensures output == MaskUrls(input)
  {
    output := "";
    var cursor := 0;
    assert input[0..] == input && output + MaskUrls(input) == MaskUrls(input);
    hide MaskUrls, MaskUrl;
    while cursor < |input|
      invariant cursor <= |input|
      invariant MaskUrls(input) == output + MaskUrls(input[cursor..])
      decreases |input| - cursor
    {
      var rest := input[cursor..];
      MaskUrlsNext(rest, output);
      var found := FirstUrl(rest);
      if found.None? {
        output := output + rest;
        return;
      }
      var start := found.value;
      var end := FindChar(rest, start, IsWhitespace);
      output := output + rest[..start] + MaskUrl(rest[start..end]);
      cursor := cursor + end;
      assert input[cursor..] == rest[end..];
    }
    MaskUrlsNext("", output);
    assert input[cursor..] == "" && output + "" == output;
  }

  // Where the path of a URL starts.
  function PathStart(url: string): (p: nat)
    ensures SchemeEnd(url) <= p <= |url|
    ensures forall k :: SchemeEnd(url) <= k < p ==> url[k] != '/'
    ensures p < |url| ==> url[p] == '/'
  {
    FindChar(url, SchemeEnd(url), c => c == '/')
  }

  lemma {:induction false} LastIndexIsLast(s: string, c: char)
    ensures LastIndex(s, c).None? <==> c !in s
    ensures LastIndex(s, c).Some? ==> c !in s[LastIndex(s, c).value + 1..]
  {
    if s != "" && s[|s| - 1] != c {
      var front := s[..|s| - 1];
      LastIndexIsLast(front, c);
      assert s == front + [s[|s| - 1]];
      if LastIndex(front, c).Some? {
        var at := LastIndex(front, c).value;
        assert s[at + 1..] == front[at + 1..] + [s[|s| - 1]];
      }
    }
  }

  // Nothing before an `@` of the authority is shown, and nothing after the first mark of
  // a query or fragment that follows the path's first slash.
  ghost predicate HidesSecrets(r: string) {
    var m, p := SchemeEnd(r), PathStart(r);
    && (forall k :: m <= k < p && r[k] == '@' ==> r[m..k] == STARS)
    && (forall k :: p <= k < |r| && StartsQuery(r[k]) ==> r[k..] == "?***")
  }

  // A query without a slash before it belongs to the authority and stays, unless it lies
  // among the credentials.
  ghost predicate QueryInAuthority(url: string) {
    exists k :: SchemeEnd(url) <= k < PathStart(url) && StartsQuery(url[k]) && '@' !in url[k..PathStart(url)]
  }

  // Masking URLs leaves the masked home paths masked.
  lemma MaskUrlsHead(s: string)
    ensures s == "" <==> MaskUrls(s) == ""
    ensures s != "" ==> MaskUrls(s)[0] == s[0]
  {
    MaskUrlsNext(s, "");
    if FirstUrl(s).Some? {
      var start := FirstUrl(s).value;
      UrlHasNoSpace(s, start);
      var _, _, _, _ := MaskUrlParts(s[start..FindChar(s, start, IsWhitespace)]);
    }
  }

  predicate IsHttp(url: string) {
    && |url| >= 7 && url[0] == 'h' && url[1] == 't' && url[2] == 't' && url[3] == 'p'
    && (|| (url[4] == ':' && url[5] == '/' && url[6] == '/')
        || (url[4] == 's' && url[5] == ':' && |url| >= 8 && url[6] == '/' && url[7] == '/'))
  }

  // What is shown of a URL: one stretch url[a..b], cut only where the query starts,
  // and before it nothing, or the scheme and stars in place of the credentials.
  ghost predicate UrlParts(url: string, masked: string, w: string, a: nat, b: nat, q: string) {
    && a <= b <= |url| && b >= 7
    && masked == w + url[a..b] + q
    && ((w == "" && a == 0) || (7 <= |w| - 3 <= 8 && |w| - 3 <= |url| && w == url[..|w| - 3] + STARS))
    && (if b == |url| then q == "" else q == "?***" && StartsQuery(url[b]))
  }

  lemma MaskUrlParts(url: string) returns (w: string, a: nat, b: nat, q: string)
    requires IsHttp(url)
    ensures UrlParts(url, MaskUrl(url), w, a, b, q)
    ensures MaskUrl(url) != "" && MaskUrl(url)[0] == 'h'
  {
    var schemeEnd := SchemeEnd(url);
    SchemeEndIs(url);
    var pathStart := FindChar(url, schemeEnd, c => c == '/');
    var queryStart := FindChar(url, pathStart, StartsQuery);
    var at := LastIndex(url[schemeEnd..pathStart], '@');
    b, q := queryStart, if queryStart < |url| then "?***" else "";
    if at.None? {
      w, a := "", 0;
      assert url[0..b] == url[..b] && "" + url[..b] == url[..b];
    } else {
      w, a := url[..schemeEnd] + STARS, schemeEnd + at.value;
    }
  }

  lemma SchemeEndIs(url: string)
    requires IsHttp(url)
    ensures SchemeEnd(url) == if url[4] == ':' then 7 else 8
  {
    var p := if url[4] == ':' then 4 else 5;
    assert OccursAt(url, p, "://");
    var found := Find(url, 0, "://");
    assert url[found.value + 0] == "://"[0];
  }

  // The same in three pieces: scheme and stars, the authority from its host on, the path.
  lemma MaskUrlPieces(url: string) returns (w: string, a: nat, b: nat, q: string)
    requires IsHttp(url)
    ensures var m, p := SchemeEnd(url), PathStart(url);
            && 7 <= m <= a <= p <= b <= |url| && MaskUrl(url) == w + url[a..b] + q
            && (forall k :: p <= k < b ==> !StartsQuery(url[k]))
            && (if b == |url| then q == "" else p < b && q == "?***")
            && ((w == url[..m] && a == m && '@' !in url[m..p])
                || (w == url[..m] + STARS && a < p && url[a] == '@' && '@' !in url[a + 1..p]))
  {
    hide SchemeEnd, IsHttp;
    SchemeEndIs(url);
    var m, p := SchemeEnd(url), PathStart(url);
    var authority := url[m..p];
    var at := LastIndex(authority, '@');
    LastIndexIsLast(authority, '@');
    b := FindChar(url, p, StartsQuery);
    q := if b < |url| then "?***" else "";
    if at.None? {
      w, a := url[..m], m;
      assert url[..b] == url[..m] + url[m..b];
    } else {
      w, a := url[..m] + STARS, m + at.value;
      assert url[a + 1..p] == authority[at.value + 1..];
    }
  }

  // Where each character of a masked URL comes from.
  ghost predicate Pieces(url: string, r: string, w: string, a: nat, b: nat, q: string) {
    var m := SchemeEnd(url);
    && m <= |w| && |w| + b - a + |q| == |r| && a <= b <= |url|
    && (forall k :: 0 <= k < m ==> r[k] == url[k])
    && (forall k :: m <= k < |w| ==> r[k] == '*')
    && (forall k :: |w| <= k < |w| + b - a ==> r[k] == url[k - |w| + a])
    && (forall k :: |w| + b - a <= k < |r| ==> r[k] == q[k - |w| - (b - a)])
  }

  lemma SchemeStays(url: string, r: string, w: string, a: nat, b: nat, q: string)
    requires IsHttp(url) && Pieces(url, r, w, a, b, q)
    requires SchemeEnd(url) <= a <= PathStart(url) <= b && (if b == |url| then q == "" else PathStart(url) < b)
    ensures IsHttp(r) && SchemeEnd(r) == SchemeEnd(url)
    ensures PathStart(r) == |w| + PathStart(url) - a
  {
    SchemeEndIs(url);
    SchemeEndIs(r);
    var p := |w| + PathStart(url) - a;
    assert p < |r| ==> r[p] == '/';
    assert forall k :: SchemeEnd(r) <= k < p ==> r[k] != '/';
    FindCharIs(r, SchemeEnd(r), c => c == '/', p);
  }

  // What is left of a masked URL: no credentials, no query behind the path's slash; a
  // query in the authority survives exactly if it was not among the credentials.
  lemma MaskedUrlHidesExactly(url: string)
    requires IsHttp(url)
    ensures var r := MaskUrl(url);
            && IsHttp(r) && SchemeEnd(r) == SchemeEnd(url) && HidesSecrets(r)
            && ((exists k :: SchemeEnd(r) <= k < PathStart(r) && StartsQuery(r[k])) <==> QueryInAuthority(url))
  {
    hide MaskUrl, IsHttp, SchemeEnd, PathStart;
    var w, a, b, q := MaskUrlPieces(url);
    var r, m, p := MaskUrl(url), SchemeEnd(url), PathStart(url);
    assert Pieces(url, r, w, a, b, q);
    SchemeStays(url, r, w, a, b, q);
    MaskedAuthority(url, r, w, a, b, q);
    MaskedPath(url, r, w, a, b, q);
  }

  lemma MaskedAuthority(url: string, r: string, w: string, a: nat, b: nat, q: string)
    requires Pieces(url, r, w, a, b, q)
    requires var m, p := SchemeEnd(url), PathStart(url);
             && m <= a <= p <= b
             && ((|w| == m && a == m && '@' !in url[m..p])
                 || (|w| == m + 3 && a < p && url[a] == '@' && '@' !in url[a + 1..p]))
    ensures var m, p := SchemeEnd(url), |w| + PathStart(url) - a;
            && (forall k :: m <= k < p && r[k] == '@' ==> r[m..k] == STARS)
            && ((exists k :: m <= k < p && StartsQuery(r[k])) <==> QueryInAuthority(url))
  {
    hide SchemeEnd, PathStart;
    var m, p, end := SchemeEnd(url), |w| + PathStart(url) - a, PathStart(url);
    var host := if |w| == m then m else a + 1;
    InSlice(url, host, end, '@');
    forall k | m <= k < p && r[k] == '@'
      ensures r[m..k] == STARS
    {
      assert k >= |w| && url[k - |w| + a] == '@';
    }
    if k :| m <= k < p && StartsQuery(r[k]) {
      var i := k - |w| + a;
      assert r[k] == url[i] && i >= host;
      InSlice(url, i, end, '@');
    }
    if k :| m <= k < end && StartsQuery(url[k]) && '@' !in url[k..end] {
      InSlice(url, k, end, '@');
      assert k >= a && r[k - a + |w|] == url[k];
    }
  }

  lemma InSlice(s: string, from: nat, end: nat, c: char)
    requires from <= end <= |s|
    ensures c in s[from..end] <==> exists i :: from <= i < end && s[i] == c
  {
    var t := s[from..end];
    if i :| from <= i < end && s[i] == c {
      assert t[i - from] == c;
    }
    if j :| 0 <= j < |t| && t[j] == c {
      assert s[from + j] == c;
    }
  }

  lemma MaskedPath(url: string, r: string, w: string, a: nat, b: nat, q: string)
    requires Pieces(url, r, w, a, b, q)
    requires var p := PathStart(url);
             && a <= p <= b && (forall k :: p <= k < b ==> !StartsQuery(url[k]))
             && (if b == |url| then q == "" else q == "?***")
    ensures forall k :: |w| + PathStart(url) - a <= k < |r| && StartsQuery(r[k]) ==> r[k..] == "?***"
  {
    hide SchemeEnd, PathStart;
    var start, cut := |w| + PathStart(url) - a, |w| + b - a;
    forall k | start <= k < cut
      ensures !StartsQuery(r[k])
    {
      assert r[k] == url[k - |w| + a];
    }
    forall k | start <= k < |r| && StartsQuery(r[k])
      ensures r[k..] == "?***"
    {
      assert r[k] == q[k - cut] && k == cut;
      assert r[k..] == q;
    }
  }

  // A masked home path, character by character.
  predicate MaskedHomeText(s: string, i: nat) {
    && i + 12 <= |s|
    && s[i] == '/' && s[i + 1] == 'h' && s[i + 2] == 'o' && s[i + 3] == 'm' && s[i + 4] == 'e' && s[i + 5] == '/'
    && s[i + 6] == '<' && s[i + 7] == 'u' && s[i + 8] == 's' && s[i + 9] == 'e' && s[i + 10] == 'r' && s[i + 11] == '>'
    && (i + 12 == |s| || EndsUser(s[i + 12]))
  }

  lemma MaskedHomeIsText(s: string, i: nat)
    ensures OccursAt(s, i, HOME) && HomeMaskedAt(s, i) <==> MaskedHomeText(s, i)
  {
    HomeChars(s, i);
    UserChars(s, i + 6);
  }

  predicate Plain(c: char) {
    !IsWhitespace(c) && !StartsQuery(c) && c != 'h' && c != '=' && c != '*'
  }

  lemma MaskedHomeChars(s: string, i: nat)
    requires OccursAt(s, i, HOME) && HomeMaskedAt(s, i)
    ensures MaskedHomeText(s, i)
    ensures forall p :: i + 5 <= p < i + 12 ==> Plain(s[p])
  {
    MaskedHomeIsText(s, i);
    forall p | i + 5 <= p < i + 12 ensures Plain(s[p]) {
      assert p == i + 5 || p == i + 6 || p == i + 7 || p == i + 8 || p == i + 9 || p == i + 10 || p == i + 11;
    }
  }

  lemma ShiftedHome(s: string, r: string, i: nat, j: nat, n: nat)
    requires OccursAt(s, i, HOME) && HomeMaskedAt(s, i)
    requires n >= 12 && i + n <= |s| && j + n <= |r|
    requires forall p :: j <= p < j + n ==> r[p] == s[p - j + i]
    requires n >= 13 || j + 12 == |r| || EndsUser(r[j + 12])
    ensures HomeMaskedAt(r, j)
  {
    MaskedHomeIsText(s, i);
    MaskedHomeIsText(r, j);
  }

  // Within what is shown of a URL, a home path stays masked.
  lemma HomeInUrl(url: string, masked: string, w: string, a: nat, b: nat, q: string, next: string, j: nat)
    requires IsHttp(url) && UrlParts(url, masked, w, a, b, q)
    requires HomesMasked(url) && forall k :: 0 <= k < |url| ==> !IsWhitespace(url[k])
    requires next != "" ==> IsWhitespace(next[0])
    requires j + 6 <= |masked| && OccursAt(masked + next, j, HOME)
    ensures HomeMaskedAt(masked + next, j)
  {
    var r := masked + next;
    HomeChars(r, j);
    UrlShown(url, masked, w, a, b, q, next);
    HomeNotInScheme(url, w, r, j);
    assert j + 6 <= |w| + b - a;
    assert b == |url| && next != "" ==> r[|masked|] == next[0];
    HomeInStretch(url, r, j - |w| + a, j, b);
  }

  lemma HomeInStretch(url: string, r: string, i: nat, j: nat, b: nat)
    requires i + 6 <= b <= |url| && j + (b - i) <= |r| && HomesMasked(url)
    requires forall p :: j <= p < j + (b - i) ==> r[p] == url[p - j + i]
    requires if b < |url| then StartsQuery(url[b]) else j + (b - i) == |r| || IsWhitespace(r[j + (b - i)])
    requires OccursAt(r, j, HOME)
    ensures HomeMaskedAt(r, j)
  {
    HomeChars(r, j);
    HomeChars(url, i);
    MaskedHomeChars(url, i);
    assert i + 12 <= b;
    ShiftedHome(url, r, i, j, if i + 12 < b then 13 else 12);
  }

  lemma UrlShown(url: string, masked: string, w: string, a: nat, b: nat, q: string, next: string)
    requires UrlParts(url, masked, w, a, b, q)
    ensures var r := masked + next;
            && (forall k :: 0 <= k < |w| ==> r[k] == w[k])
            && (forall k :: |w| <= k < |w| + b - a ==> r[k] == url[k - |w| + a])
            && (forall k :: |w| + b - a <= k < |masked| ==> r[k] == '?' || r[k] == '*')
  {
    var r := masked + next;
    forall k | |w| <= k < |w| + b - a ensures r[k] == url[k - |w| + a] {
      assert r[k] == url[a..b][k - |w|];
    }
    forall k | |w| + b - a <= k < |masked| ensures r[k] == '?' || r[k] == '*' {
      assert r[k] == q[k - |w| - (b - a)];
    }
  }

  lemma HomeNotInScheme(url: string, w: string, r: string, j: nat)
    requires IsHttp(url) && |w| <= |r| && forall k :: 0 <= k < |w| ==> r[k] == w[k]
    requires w == "" || (7 <= |w| - 3 <= 8 && |w| - 3 <= |url| && w == url[..|w| - 3] + STARS)
    requires OccursAt(r, j, HOME)
    ensures j >= |w|
  {
    HomeChars(r, j);
    if w != "" {
      assert w[|w| - 1] == '*' && w[|w| - 2] == '*' && w[|w| - 3] == '*';
      assert w[0] == 'h' && w[1] == 't' && w[2] == 't' && w[3] == 'p';
      assert w[4] == url[4] && w[5] == url[5] && w[6] == url[6];
    }
  }

  lemma HomesMaskedIn(s: string, from: nat, end: nat)
    requires HomesMasked(s) && from <= end <= |s|
    requires end == |s| || IsWhitespace(s[end])
    ensures HomesMasked(s[from..end])
  {
    var t := s[from..end];
    forall i: nat | OccursAt(t, i, HOME) ensures HomeMaskedAt(t, i) {
      HomeChars(t, i);
      HomeChars(s, from + i);
      MaskedHomeChars(s, from + i);
      assert from + i + 12 <= end;
      ShiftedHome(s, t, from + i, i, if from + i + 12 < end then 13 else 12);
    }
  }

  lemma HomeBeforeUrl(s: string, start: nat, r: string, i: nat)
    requires start <= |s| && start + 4 <= |r| && s[..start] == r[..start]
    requires start < |s| && s[start] == 'h' && r[start] == 'h' && r[start + 1] == 't' && r[start + 2] == 't'
    requires i < start && HomesMasked(s) && OccursAt(r, i, HOME)
    ensures HomeMaskedAt(r, i)
  {
    HomeChars(r, i);
    forall k | 0 <= k < start ensures r[k] == s[k] {
      assert s[k] == s[..start][k] && r[k] == r[..start][k];
    }
    assert i + 6 <= start;
    HomeChars(s, i);
    MaskedHomeChars(s, i);
    assert i + 12 < start;
    ShiftedHome(s, r, i, i, 13);
  }

  lemma UrlIsHttp(s: string, start: nat)
    requires FirstUrl(s) == Some(start)
    ensures var end := FindChar(s, start, IsWhitespace);
            && start + 7 <= end <= |s| && IsHttp(s[start..end]) && (end == |s| || IsWhitespace(s[end]))
            && forall k :: start <= k < end ==> !IsWhitespace(s[k])
  {
    hide FirstUrl;
    UrlHasNoSpace(s, start);
  }

  lemma {:induction false} UrlsKeepHomesMasked(s: string)
    requires HomesMasked(s)
    ensures HomesMasked(MaskUrls(s))
    decreases |s|
  {
    hide MaskUrls, MaskUrl, HomesMasked, FirstUrl, IsHttp;
    MaskUrlsUnfold(s);
    if FirstUrl(s).Some? {
      var start := FirstUrl(s).value;
      var end := FindChar(s, start, IsWhitespace);
      UrlIsHttp(s, start);
      var tail := s[end..];
      HomesMaskedIn(s, start, end);
      HomesMaskedIn(s, end, |s|);
      assert s[end..|s|] == tail;
      UrlsKeepHomesMasked(tail);
      MaskUrlsHead(tail);
      UrlStepKeepsHomes(s, start, end, MaskUrls(tail));
    }
  }

  // A home path in the text with one URL masked, wherever it lies.
  lemma UrlStepHome(s: string, start: nat, end: nat, rest: string, masked: string,
                    w: string, a: nat, b: nat, q: string, i: nat)
    requires start + 7 <= end <= |s| && HomesMasked(s) && IsHttp(s[start..end])
    requires HomesMasked(s[start..end]) && forall k :: start <= k < end ==> !IsWhitespace(s[k])
    requires HomesMasked(rest) && (rest != "" ==> IsWhitespace(rest[0]))
    requires UrlParts(s[start..end], masked, w, a, b, q)
    requires OccursAt(s[..start] + masked + rest, i, HOME)
    ensures HomeMaskedAt(s[..start] + masked + rest, i)
  {
    hide UrlParts, HomesMasked, OccursAt, HomeMaskedAt, IsWhitespace;
    var url, r := s[start..end], s[..start] + masked + rest;
    assert forall k :: 0 <= k < |url| ==> url[k] == s[start + k];
    if i < start {
      MaskedUrlHead(url, masked, w, a, b, q);
      HomeBeforeUrl(s, start, r, i);
    } else {
      assert s[..start] + (masked + rest) == r;
      HomeAfter(s[..start], masked + rest, r, i);
      HomeInUrlOrAfter(url, masked, w, a, b, q, rest, i - start);
      MaskedBehind(s[..start], masked + rest, i - start);
    }
  }

  lemma UrlStepKeepsHomes(s: string, start: nat, end: nat, rest: string)
    requires start + 7 <= end <= |s| && HomesMasked(s) && IsHttp(s[start..end])
    requires HomesMasked(s[start..end]) && forall k :: start <= k < end ==> !IsWhitespace(s[k])
    requires HomesMasked(rest) && (rest != "" ==> IsWhitespace(rest[0]))
    ensures HomesMasked(s[..start] + MaskUrl(s[start..end]) + rest)
  {
    hide MaskUrl, UrlParts, OccursAt, HomeMaskedAt, IsHttp, IsWhitespace;
    var masked := MaskUrl(s[start..end]);
    var w, a, b, q := MaskUrlParts(s[start..end]);
    forall i: nat | OccursAt(s[..start] + masked + rest, i, HOME)
      ensures HomeMaskedAt(s[..start] + masked + rest, i)
    {
      UrlStepHome(s, start, end, rest, masked, w, a, b, q, i);
    }
  }

  lemma HomeInUrlOrAfter(url: string, masked: string, w: string, a: nat, b: nat, q: string, rest: string, j: nat)
    requires IsHttp(url) && UrlParts(url, masked, w, a, b, q)
    requires HomesMasked(url) && forall k :: 0 <= k < |url| ==> !IsWhitespace(url[k])
    requires HomesMasked(rest) && (rest != "" ==> IsWhitespace(rest[0]))
    requires OccursAt(masked + rest, j, HOME)
    ensures HomeMaskedAt(masked + rest, j)
  {
    hide UrlParts;
    if j + 6 <= |masked| {
      HomeInUrl(url, masked, w, a, b, q, rest, j);
    } else {
      NoHomeAcross(masked, rest, j);
      HomeAfter(masked, rest, masked + rest, j);
      assert HomeMaskedAt(rest, j - |masked|);
      MaskedBehind(masked, rest, j - |masked|);
    }
  }

  lemma NoHomeAcross(front: string, rest: string, j: nat)
    requires rest != "" ==> IsWhitespace(rest[0])
    requires OccursAt(front + rest, j, HOME) && j + 6 > |front|
    ensures j >= |front|
  {
    HomeChars(front + rest, j);
    assert rest != "" && (front + rest)[|front|] == rest[0];
  }

  lemma MaskedUrlHead(url: string, masked: string, w: string, a: nat, b: nat, q: string)
    requires IsHttp(url) && UrlParts(url, masked, w, a, b, q)
    ensures |masked| >= 4 && masked[0] == 'h' && masked[1] == 't' && masked[2] == 't'
  {
    if w == "" {
      assert masked[0] == url[a..b][0] && masked[1] == url[a..b][1] && masked[2] == url[a..b][2];
    }
  }

  lemma HomeAfter(front: string, rest: string, r: string, i: nat)
    requires r == front + rest && i >= |front| && OccursAt(r, i, HOME)
    ensures OccursAt(rest, i - |front|, HOME)
  {
    HomeChars(r, i);
    HomeChars(rest, i - |front|);
  }

  lemma MaskedBehind(front: string, rest: string, j: nat)
    requires OccursAt(rest, j, HOME) && HomeMaskedAt(rest, j)
    ensures HomeMaskedAt(front + rest, |front| + j)
  {
    UserChars(rest, j + 6);
    UserChars(front + rest, |front| + j + 6);
  }

  // ------------------------------------------------------------------- assignments

  lemma ReplaceKeepsHomes(s: string, at: nat, key: string)
    requires IsKey(key) && key[|key| - 1] == '=' && OccursAtIgnoringCase(s, at, key) && HomesMasked(s)
    ensures HomesMasked(Replace(s, at + |key|))
  {
    var start := at + |key|;
    var r, end := Replace(s, start), ValueEnd(s, start);
    assert Lower(s[at + (|key| - 1)]) == '=' && s[start - 1] == '=';
    Replaced(s, start);
    hide Replace;
    forall i: nat | OccursAt(r, i, HOME) ensures HomeMaskedAt(r, i) {
      HomeChars(r, i);
      if i < start {
        assert i + 6 <= start;
        HomeChars(s, i);
        MaskedHomeChars(s, i);
        assert i + 12 < start;
        ShiftedHome(s, r, i, i, 13);
      } else {
        assert i >= start + 3;
        HomeMovesWithTail(s, start, r, i);
      }
    }
  }

  lemma HomeMovesWithTail(s: string, start: nat, r: string, i: nat)
    requires start <= |s| && r == Replace(s, start) && HomesMasked(s)
    requires i >= start + 3 && OccursAt(r, i, HOME)
    ensures HomeMaskedAt(r, i)
  {
    hide Replace, ValueEnd, OccursAt, HomeMaskedAt, Plain, IsWhitespace;
    Replaced(s, start);
    var j := i - start - 3 + ValueEnd(s, start);
    HomeChars(r, i);
    HomeChars(s, j);
    MaskedHomeChars(s, j);
    ShiftedHome(s, r, j, i, if j + 12 < |s| then 13 else 12);
  }

  lemma Replaced(s: string, start: nat)
    requires start <= |s|
    ensures var r, end := Replace(s, start), ValueEnd(s, start);
            && (forall k :: 0 <= k < start ==> r[k] == s[k])
            && r[start] == '*' && r[start + 1] == '*' && r[start + 2] == '*'
            && (forall k :: start + 3 <= k < |r| ==> r[k] == s[k - start - 3 + end])
  {}

  lemma {:induction false} PassKeepsHomes(s: string, from: nat, key: string)
    requires from <= |s| && IsKey(key) && key[|key| - 1] == '=' && HomesMasked(s)
    ensures HomesMasked(MaskFrom(s, from, key))
    decreases |s| - from
  {
    hide MaskFrom, Replace, HomesMasked;
    MaskFromNext(s, from, key);
    var found := FindIgnoringCase(s, from, key);
    if found.Some? {
      ReplaceKeepsHomes(s, found.value, key);
      var start := found.value + |key|;
      PassKeepsHomes(Replace(s, start), start + 3, key);
    }
  }

  predicate EndInEquals(keys: seq<string>) {
    forall k :: 0 <= k < |keys| ==> IsKey(keys[k]) && keys[k][|keys[k]| - 1] == '='
  }

  lemma {:induction false} AssignmentsKeepHomesMasked(s: string, keys: seq<string>)
    requires EndInEquals(keys) && HomesMasked(s)
    ensures HomesMasked(MaskKeys(s, keys))
  {
    hide MaskFrom, HomesMasked;
    if keys != [] {
      var n := |keys| - 1;
      AssignmentsKeepHomesMasked(s, keys[..n]);
      PassKeepsHomes(MaskKeys(s, keys[..n]), 0, keys[n]);
    }
  }

  // -------------------------------------------------------------------- truncation

  // How many characters fit in `limit` bytes
  function Fitting(s: string, limit: nat): (n: nat)
    ensures n <= |s|
  {
    if ByteLength(s) <= limit then |s| else Fitting(s[..|s| - 1], limit)
  }

  datatype SanitizedLine = SanitizedLine(text: string, truncated: bool)

  function TruncateUtf8(s: string, limit: nat): SanitizedLine {
    SanitizedLine(s[..Fitting(s, limit)], ByteLength(s) > limit)
  }

  predicate IsBoundary(s: string, position: nat) {
    position == ByteLength(s[..Fitting(s, position)])
  }

  // The loop steps back byte by byte to a character boundary.
  method Truncate(s: string, limit: nat) returns (line: SanitizedLine)
    ensures line == TruncateUtf8(s, limit)
  {
    if ByteLength(s) <= limit {
      assert s[..|s|] == s;
      return SanitizedLine(s, false);
    }
    var end: nat := limit;
    while !IsBoundary(s, end)
      invariant Fitting(s, end) == Fitting(s, limit)
      decreases end
    {
      StepBack(s, end);
      end := end - 1;
    }
    line := SanitizedLine(s[..Fitting(s, end)], true);
  }

  lemma {:induction false} FittingIsLongest(s: string, limit: nat)
    ensures var n := Fitting(s, limit);
            && ByteLength(s[..n]) <= limit
            && (n == |s| || ByteLength(s[..n + 1]) > limit)
  {
    if ByteLength(s) <= limit {
      assert s[..|s|] == s;
    } else {
      var front := s[..|s| - 1];
      FittingIsLongest(front, limit);
      var n := Fitting(s, limit);
      assert front[..n] == s[..n];
      if n == |s| - 1 {
        assert s[..n + 1] == s;
      } else {
        assert front[..n + 1] == s[..n + 1];
      }
    }
  }

  lemma {:induction false} PrefixBytes(s: string, m: nat, n: nat)
    requires m <= n <= |s|
    ensures ByteLength(s[..m]) <= ByteLength(s[..n])
    decreases n
  {
    if m < n {
      assert s[..n][..n - 1] == s[..n - 1];
      PrefixBytes(s, m, n - 1);
    }
  }

  lemma FittingIs(s: string, limit: nat, n: nat)
    requires n <= |s| && ByteLength(s[..n]) <= limit
    requires n == |s| || ByteLength(s[..n + 1]) > limit
    ensures Fitting(s, limit) == n
  {
    FittingIsLongest(s, limit);
    var m := Fitting(s, limit);
    if m < n {
      PrefixBytes(s, m + 1, n);
    } else if n < m {
      PrefixBytes(s, n + 1, m);
    }
  }

  lemma StepBack(s: string, end: nat)
    requires !IsBoundary(s, end)
    ensures end > 0 && Fitting(s, end - 1) == Fitting(s, end)
  {
    FittingIsLongest(s, end);
    var n := Fitting(s, end);
    assert s[..0] == "";
    FittingIs(s, end - 1, n);
  }

  // ------------------------------------------------------------- the whole sanitizer

  function Masking(s: string): string {
    MaskKeys(MaskUrls(MaskHome(s)), KEYS)
  }

  // None stands for the panic in the scanner.
  function SanitizeTechnicalLine(input: string): Option<SanitizedLine> {
    var stripped := StripFrom(input, 0);
    if stripped.None? then None else Some(TruncateUtf8(Masking(stripped.value), MAX_TECHNICAL_LINE_BYTES))
  }

  method Sanitize(input: string) returns (line: Option<SanitizedLine>)
    ensures line == SanitizeTechnicalLine(input)
  {
    var withoutControls := StripTerminalControls(input);
    if withoutControls.None? {
      return None;
    }
    var withoutHome := MaskHomePaths(withoutControls.value);
    var withoutUrlSecrets := MaskUrlPaths(withoutHome);
    var masked := MaskAssignmentValues(withoutUrlSecrets);
    var truncated := Truncate(masked, MAX_TECHNICAL_LINE_BYTES);
    line := Some(truncated);
  }

  // After all the masking, no pass has undone another: every home path and every
  // assignment is masked.
  lemma MaskingHoldsTogether(s: string)
    ensures HomesMasked(Masking(s)) && AllMasked(Masking(s), KEYS)
  {
    EveryHomeIsMasked(s);
    UrlsKeepHomesMasked(MaskHome(s));
    AssignmentsKeepHomesMasked(MaskUrls(MaskHome(s)), KEYS);
    EveryAssignmentIsMasked(MaskUrls(MaskHome(s)));
  }

  // A stored line has at most 4096 bytes; it is the longest prefix of the masked
  // text that does, and says whether anything was cut off.
  lemma StoredLineIsBounded(input: string)
    requires SanitizeTechnicalLine(input).Some?
    ensures var line := SanitizeTechnicalLine(input).value;
            var masked := Masking(StripFrom(input, 0).value);
            && ByteLength(line.text) <= MAX_TECHNICAL_LINE_BYTES
            && line.text <= masked
            && (line.truncated <==> line.text != masked)
            && (line.truncated ==> ByteLength(masked[..|line.text| + 1]) > MAX_TECHNICAL_LINE_BYTES)
  {
    hide Masking;
    FittingIsLongest(Masking(StripFrom(input, 0).value), MAX_TECHNICAL_LINE_BYTES);
  }
}
