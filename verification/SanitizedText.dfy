/** What the sanitizer keeps and what it replaces: a line written as text and escape
    sequences, a text with a home path, a URL or an assignment in it. */
module SanitizedText {
  import opened Wrappers
  import opened Text
  import opened MaskAssignments
  import opened Sanitizer

  // ----------------------------------------------------- text and escape sequences

  // A piece of a line. A control or system sequence carries its end: "" if it has none.
  datatype Piece =
    | Kept(c: char) | NewLine | Control(c: char) | LoneEscape | Escaped(c: char)
    | ControlSequence(parameters: string, end: string)
    | SystemCommand(text: string, end: string)

  function Written(p: Piece): string {
    match p
    case Kept(c) => [c]
    case NewLine => "\n"
    case Control(c) => [c]
    case LoneEscape => [0x1b as char]
    case Escaped(c) => [0x1b as char, c]
    case ControlSequence(parameters, end) => [0x1b as char, '['] + parameters + end
    case SystemCommand(text, end) => [0x1b as char, ']'] + text + end
  }

  function Left(p: Piece): string {
    match p
    case Kept(c) => [c]
    case NewLine => " "
    case _ => ""
  }

  function Utf8(c: char): seq<int> {
    var n := c as int;
    if n < 0x80 then [n]
    else if n < 0x800 then [0xc0 + n / 64, 0x80 + n % 64]
    else if n < 0x10000 then [0xe0 + n / 4096, 0x80 + n / 64 % 64, 0x80 + n % 64]
    else [0xf0 + n / 262144, 0x80 + n / 4096 % 64, 0x80 + n / 64 % 64, 0x80 + n % 64]
  }

  // Every byte of the character but the first is a C1 control to the scanner.
  predicate LowBytes(c: char) {
    forall k :: 0 < k < |Utf8(c)| ==> Utf8(c)[k] <= 0x9f
  }

  // Whether a piece stands for itself where it is written: an unfinished one is the last.
  predicate Stands(p: Piece, last: bool) {
    match p
    case Kept(c) => c == '\t' || (c as int >= 0x20 && c as int != 0x7f)
    case NewLine => true
    case Control(c) => (c as int < 0x20 && c != '\t' && c != '\n' && c as int != 0x1b) || c as int == 0x7f
    case LoneEscape => last
    case Escaped(c) => c != '[' && c != ']' && LowBytes(c)
    case ControlSequence(parameters, end) =>
      && (forall k :: 0 <= k < |parameters| ==> !(0x40 <= parameters[k] as int <= 0x7e))
      && ((|end| == 1 && 0x40 <= end[0] as int <= 0x7e) || (end == "" && last))
    case SystemCommand(text, end) =>
      && (forall k :: 0 <= k < |text| ==>
            text[k] as int != 7 && !(text[k] as int == 0x1b && k + 1 < |text + end| && (text + end)[k + 1] == '\\'))
      && (end == [7 as char] || end == [0x1b as char, '\\'] || (end == "" && last))
  }

  function AllWritten(pieces: seq<Piece>): string {
    if pieces == [] then "" else Written(pieces[0]) + AllWritten(pieces[1..])
  }

  function AllLeft(pieces: seq<Piece>): string {
    if pieces == [] then "" else Left(pieces[0]) + AllLeft(pieces[1..])
  }

  predicate AllStand(pieces: seq<Piece>) {
    forall i :: 0 <= i < |pieces| ==> Stands(pieces[i], i == |pieces| - 1)
  }

  lemma LowBytesAre(c: char)
    ensures c as int >= 0x80 ==> (LowBytes(c) <==> LowContinuation(c))
    ensures c as int < 0x80 ==> LowBytes(c)
  {
    var n := c as int;
    if n >= 0x80 {
      assert LowBytes(c) ==> Utf8(c)[|Utf8(c)| - 1] <= 0x9f;
      assert LowBytes(c) && n >= 0x800 ==> Utf8(c)[|Utf8(c)| - 2] <= 0x9f;
      assert LowBytes(c) && n >= 0x10000 ==> Utf8(c)[|Utf8(c)| - 3] <= 0x9f;
    }
  }

  lemma {:induction false} CsiEndIs(s: string, i: nat, end: nat)
    requires i <= end <= |s|
    requires forall k :: i <= k < end ==> !(0x40 <= s[k] as int <= 0x7e)
    requires end < |s| ==> 0x40 <= s[end] as int <= 0x7e
    ensures CsiEnd(s, i) == if end < |s| then end + 1 else end
    decreases |s| - i
  {
    if i < end {
      CsiEndIs(s, i + 1, end);
    }
  }

  predicate EndsCommand(s: string, k: nat)
    requires k < |s|
  {
    s[k] as int == 7 || (s[k] as int == 0x1b && k + 1 < |s| && s[k + 1] == '\\')
  }

  lemma {:induction false} OscEndIs(s: string, i: nat, end: nat)
    requires i <= end <= |s|
    requires forall k :: i <= k < end ==> !EndsCommand(s, k)
    requires end < |s| ==> EndsCommand(s, end)
    ensures OscEnd(s, i) == if end == |s| then end else if s[end] as int == 7 then end + 1 else end + 2
    decreases |s| - i
  {
    if i < end {
      assert !EndsCommand(s, i);
      OscEndIs(s, i + 1, end);
    }
  }

  // Where a piece written at `i` ends for the scanner.
  lemma PieceEnds(s: string, i: nat, p: Piece, rest: string)
    requires i <= |s| && s[i..] == Written(p) + rest && Stands(p, rest == "")
    ensures i + |Written(p)| <= |s| && s[i + |Written(p)|..] == rest && i < |s|
    ensures !PanicsAt(s, i) && TokenEnd(s, i) == i + |Written(p)| && TokenText(s[i]) == Left(p)
  {
    hide CsiEnd, OscEnd, LowBytes, LowContinuation;
    var w := Written(p);
    assert forall k :: 0 <= k < |w| ==> s[i + k] == s[i..][k] == w[k];
    assert s[i + |w|..] == s[i..][|w|..] == rest;
    match p
    case Escaped(c) =>
      assert s[i + 1] == c;
      LowBytesAre(c);
    case ControlSequence(parameters, end) =>
      assert s[i + 1] == '[';
      assert forall k :: i + 2 <= k < i + 2 + |parameters| ==> s[k] == parameters[k - i - 2];
      CsiEndIs(s, i + 2, i + 2 + |parameters|);
    case SystemCommand(text, end) =>
      assert s[i + 1] == ']';
      BehindTheStart(s, i, [0x1b as char, ']'], text, end, rest);
      CommandEnds(s, i + 2, text, end, rest);
    case _ =>
  }

  lemma BehindTheStart(s: string, i: nat, start: string, text: string, end: string, rest: string)
    requires i <= |s| && s[i..] == start + text + end + rest
    ensures i + |start| <= |s| && s[i + |start|..] == text + end + rest
  {
    Regroup(start, text, end);
    Regroup(start, text + end, rest);
    assert s[i + |start|..] == s[i..][|start|..];
  }

  lemma CommandEnds(s: string, i: nat, text: string, end: string, rest: string)
    requires i <= |s| && s[i..] == text + end + rest && Stands(SystemCommand(text, end), rest == "")
    ensures OscEnd(s, i) == i + |text| + |end|
  {
    hide OscEnd;
    assert forall k :: i <= k < |s| ==> s[k] == s[i..][k - i];
    forall k | i <= k < i + |text|
      ensures !EndsCommand(s, k)
    {
      assert s[k] == text[k - i];
      if k + 1 < i + |text + end| {
        assert s[k + 1] == (text + end)[k - i + 1];
      } else {
        assert k + 1 == |s|;
      }
    }
    OscEndIs(s, i, i + |text|);
  }

  lemma {:induction false} StripLeaves(s: string, i: nat, pieces: seq<Piece>)
    requires i <= |s| && s[i..] == AllWritten(pieces) && AllStand(pieces)
    ensures StripFrom(s, i) == Some(AllLeft(pieces))
    decreases |pieces|
  {
    hide Stands, Written, Left, PanicsAt, TokenEnd, TokenText;
    if pieces == [] {
      assert i == |s|;
    } else {
      var p, rest := pieces[0], AllWritten(pieces[1..]);
      WrittenIsNotEmpty(pieces[1..]);
      PieceEnds(s, i, p, rest);
      StripLeaves(s, i + |Written(p)|, pieces[1..]);
    }
  }

  lemma WrittenIsNotEmpty(pieces: seq<Piece>)
    ensures AllWritten(pieces) == "" <==> pieces == []
  {
    if pieces != [] {
      assert |Written(pieces[0])| > 0;
    }
  }

  // The piece that the scanner meets at `i`.
  function PieceAt(s: string, i: nat): Piece
    requires i < |s|
  {
    if s[i] as int != 0x1b then
      if s[i] == '\n' then NewLine else if IsClean(s[i]) then Kept(s[i]) else Control(s[i])
    else if i + 1 == |s| then LoneEscape
    else if s[i + 1] == '[' then
      var end := FindChar(s, i + 2, IsFinal);
      ControlSequence(s[i + 2..end], if end < |s| then [s[end]] else "")
    else if s[i + 1] == ']' then
      var end := CommandEnd(s, i + 2);
      SystemCommand(s[i + 2..end], if end == |s| then "" else if s[end] as int == 7 then [s[end]] else s[end..end + 2])
    else Escaped(s[i + 1])
  }

  function CommandEnd(s: string, i: nat): (end: nat)
    requires i <= |s|
    ensures i <= end <= |s| && (end < |s| ==> EndsCommand(s, end))
    ensures forall k :: i <= k < end ==> !EndsCommand(s, k)
    decreases |s| - i
  {
    if i == |s| || EndsCommand(s, i) then i else CommandEnd(s, i + 1)
  }

  lemma PieceIsWritten(s: string, i: nat)
    requires i < |s| && !PanicsAt(s, i)
    ensures var w := Written(PieceAt(s, i));
            i + |w| <= |s| && s[i..i + |w|] == w && Stands(PieceAt(s, i), i + |w| == |s|)
  {
    hide LowContinuation, LowBytes;
    if s[i] as int == 0x1b && i + 1 < |s| {
      if s[i + 1] == ']' {
        CommandIsWritten(s, i);
      } else if s[i + 1] == '[' {
        SequenceIsWritten(s, i);
      } else {
        LowBytesAre(s[i + 1]);
      }
    }
  }

  lemma SequenceIsWritten(s: string, i: nat)
    requires i + 1 < |s| && s[i] as int == 0x1b && s[i + 1] == '['
    ensures var w := Written(PieceAt(s, i));
            i + |w| <= |s| && s[i..i + |w|] == w && Stands(PieceAt(s, i), i + |w| == |s|)
  {
    var end := FindChar(s, i + 2, IsFinal);
    var p := PieceAt(s, i);
    assert forall k :: 0 <= k < |p.parameters| ==> p.parameters[k] == s[i + 2 + k];
    assert forall k :: i + 2 <= k < end ==> !IsFinal(s[k]);
  }

  lemma CommandIsWritten(s: string, i: nat)
    requires i + 1 < |s| && s[i] as int == 0x1b && s[i + 1] == ']'
    ensures var w := Written(PieceAt(s, i));
            i + |w| <= |s| && s[i..i + |w|] == w && Stands(PieceAt(s, i), i + |w| == |s|)
  {
    hide CommandEnd, EndsCommand, Stands;
    var end := CommandEnd(s, i + 2);
    var p := PieceAt(s, i);
    EndOfCommand(s, end);
    CommandParts(s, i + 2, end, p.text, p.end);
    CommandStands(s, i + 2, p.text, p.end);
    CommandReads(s, i, p.text, p.end);
  }

  lemma CommandParts(s: string, i: nat, end: nat, text: string, tail: string)
    requires i <= end <= |s| && text == s[i..end] && end + |tail| <= |s| && s[end..end + |tail|] == tail
    ensures s[i..i + |text + tail|] == text + tail
  {}

  lemma CommandReads(s: string, i: nat, text: string, end: string)
    requires i + 2 + |text + end| <= |s| && s[i] as int == 0x1b && s[i + 1] == ']'
    requires s[i + 2..i + 2 + |text + end|] == text + end
    ensures s[i..i + 2 + |text + end|] == Written(SystemCommand(text, end))
  {
    var n := i + 2 + |text + end|;
    Joined(s, i, i + 2, n);
    assert s[i..i + 2] == [0x1b as char, ']'];
    Regroup([0x1b as char, ']'], text, end);
  }

  lemma Joined(s: string, i: nat, m: nat, n: nat)
    requires i <= m <= n <= |s|
    ensures s[i..n] == s[i..m] + s[m..n]
  {}

  lemma Regroup(a: string, b: string, c: string)
    ensures a + b + c == a + (b + c)
  {}

  lemma EndOfCommand(s: string, end: nat)
    requires end <= |s| && (end < |s| ==> EndsCommand(s, end))
    ensures end < |s| && s[end] as int != 7 ==> end + 2 <= |s| && s[end..end + 2] == [0x1b as char, '\\']
  {
  }

  lemma CommandStands(s: string, i: nat, text: string, end: string)
    requires i + |text + end| <= |s| && s[i..i + |text + end|] == text + end
    requires forall k :: i <= k < i + |text| ==> !EndsCommand(s, k)
    requires end == [7 as char] || end == [0x1b as char, '\\'] || (end == "" && i + |text| == |s|)
    ensures Stands(SystemCommand(text, end), i + |text + end| == |s|)
  {
    var both := text + end;
    assert forall k :: 0 <= k < |both| ==> both[k] == s[i..i + |both|][k] == s[i + k];
    assert forall k :: 0 <= k < |text| ==> text[k] == both[k] && !EndsCommand(s, i + k);
  }

  lemma {:induction false} EveryTextIsPieces(s: string, i: nat) returns (pieces: seq<Piece>)
    requires i <= |s| && StripFrom(s, i).Some?
    ensures s[i..] == AllWritten(pieces) && AllStand(pieces)
    decreases |s| - i
  {
    hide Stands, Written, PieceAt, PanicsAt, TokenEnd, TokenText;
    pieces := [];
    if i < |s| {
      var p := PieceAt(s, i);
      PieceIsWritten(s, i);
      var next := i + |Written(p)|;
      assert s[i..] == Written(p) + s[next..];
      PieceEnds(s, i, p, s[next..]);
      var rest := EveryTextIsPieces(s, next);
      WrittenIsNotEmpty(rest);
      pieces := [p] + rest;
      assert pieces[1..] == rest;
    }
  }

  // The scan leaves `r` of a line exactly if the line can be written as pieces of which
  // `r` is the text: every character that is no control and is in no sequence, tabs as
  // they are, a space for each line break, and nothing else.
  lemma StripsExactly(s: string, r: string)
    ensures StripFrom(s, 0) == Some(r) <==>
            exists pieces :: AllStand(pieces) && AllWritten(pieces) == s && AllLeft(pieces) == r
  {
    hide AllStand, StripFrom, AllWritten, AllLeft;
    assert s[0..] == s;
    if StripFrom(s, 0) == Some(r) {
      var pieces := EveryTextIsPieces(s, 0);
      StripLeaves(s, 0, pieces);
    }
    forall pieces | AllStand(pieces) && AllWritten(pieces) == s && AllLeft(pieces) == r
      ensures StripFrom(s, 0) == Some(r)
    {
      StripLeaves(s, 0, pieces);
    }
  }

  // -------------------------------------------------------------------- home paths

  lemma FindIs(s: string, from: nat, key: string, at: nat)
    requires from <= at && OccursAt(s, at, key) && forall i :: from <= i < at ==> !OccursAt(s, i, key)
    ensures Find(s, from, key) == Some(at)
  {}

  lemma OccursBetween(front: string, key: string, rest: string)
    ensures OccursAt(front + key + rest, |front|, key)
  {
    assert forall k :: 0 <= k < |key| ==> (front + key + rest)[|front| + k] == key[k];
  }

  // Only the user's name is replaced; a text without a home path stays as it is.
  lemma HomeIsReplaced(front: string, user: string, rest: string)
    requires forall c :: c in user ==> c != '/' && !IsWhitespace(c)
    requires rest != "" ==> rest[0] == '/' || IsWhitespace(rest[0])
    requires forall i :: 0 <= i < |front| ==> !OccursAt(front + "/home/" + user + rest, i, "/home/")
    ensures MaskHome(front + "/home/" + user + rest) == front + "/home/<user>" + MaskHome(rest)
  {
    hide MaskHome, OccursAt, FindChar, Find, IsWhitespace;
    var s := front + "/home/" + user + rest;
    assert s == front + "/home/" + (user + rest);
    OccursBetween(front, "/home/", user + rest);
    FindIs(s, 0, "/home/", |front|);
    UserEnds(front, user, rest);
    MaskHomeNext(s);
    Placeholder(front, MaskHome(rest));
  }

  lemma UserEnds(front: string, user: string, rest: string)
    requires forall c :: c in user ==> c != '/' && !IsWhitespace(c)
    requires rest != "" ==> rest[0] == '/' || IsWhitespace(rest[0])
    ensures var s, end := front + "/home/" + user + rest, |front| + 6 + |user|;
            && FindChar(s, |front| + 6, EndsUser) == end && s[..|front|] == front && s[end..] == rest
  {
    hide IsWhitespace;
    var s, after := front + "/home/" + user + rest, |front| + 6;
    var end := after + |user|;
    assert s[after..end] == user && s[end..] == rest;
    assert forall k :: after <= k < end ==> s[k] == s[after..end][k - after] && s[k] in user;
    assert end < |s| ==> s[end] == s[end..][0];
    FindCharIs(s, after, EndsUser, end);
  }

  lemma Placeholder(front: string, rest: string)
    ensures front + HOME + USER + rest == front + "/home/<user>" + rest
  {
    assert HOME + USER == "/home/<user>";
    assert front + HOME + USER == front + (HOME + USER);
  }

  lemma MaskHomeNext(s: string)
    ensures var found := Find(s, 0, "/home/");
            MaskHome(s) == if found.None? then s
                           else s[..found.value] + HOME + USER + MaskHome(s[FindChar(s, found.value + 6, EndsUser)..])
  {}

  lemma NoHomeNoChange(s: string)
    requires forall i: nat :: !OccursAt(s, i, "/home/")
    ensures MaskHome(s) == s
  {
    MaskHomeNext(s);
  }

  // -------------------------------------------------------------------------- URLs

  predicate IsScheme(scheme: string) {
    scheme == "http://" || scheme == "https://"
  }

  // What becomes of one URL: its credentials give way to stars, its query and fragment
  // to a mark; scheme, host and path stay.
  lemma UrlIsReplaced(scheme: string, host: string, path: string, query: string)
    requires IsScheme(scheme) && '/' !in host && '@' !in host
    requires path != "" ==> path[0] == '/'
    requires '?' !in path && '#' !in path
    requires query != "" ==> path != "" && (query[0] == '?' || query[0] == '#')
    ensures MaskUrl(scheme + host + path + query) == scheme + host + path + if query == "" then "" else "?***"
    ensures forall credentials :: '/' !in credentials ==>
              MaskUrl(scheme + (credentials + "@" + host) + path + query)
              == scheme + ("***@" + host) + path + if query == "" then "" else "?***"
  {
    hide MaskUrl;
    WithoutCredentials(scheme, host, path, query);
    forall credentials | '/' !in credentials
      ensures MaskUrl(scheme + (credentials + "@" + host) + path + query)
              == scheme + ("***@" + host) + path + if query == "" then "" else "?***"
    {
      WithCredentials(scheme, credentials, host, path, query);
    }
  }

  // Where the parts of a URL begin.
  lemma PartsBegin(scheme: string, authority: string, path: string, query: string)
    requires IsScheme(scheme) && '/' !in authority && (path != "" ==> path[0] == '/')
    requires '?' !in path && '#' !in path
    requires query != "" ==> path != "" && (query[0] == '?' || query[0] == '#')
    ensures var url := scheme + authority + path + query;
            && SchemeEnd(url) == |scheme| && url[..|scheme|] == scheme
            && FindChar(url, |scheme|, c => c == '/') == |scheme| + |authority|
            && FindChar(url, |scheme| + |authority|, StartsQuery) == |scheme| + |authority| + |path|
            && url[|scheme|..|scheme| + |authority|] == authority
  {
    hide SchemeEnd, IsHttp;
    var url, m := scheme + authority + path + query, |scheme|;
    var p, q := m + |authority|, m + |authority| + |path|;
    PartsAre(scheme, authority, path, query);
    SchemeStands(scheme, url);
    SlashBegins(url, m, p, authority, path);
    QueryBegins(url, p, q, path, query);
  }

  lemma PartsAre(scheme: string, authority: string, path: string, query: string)
    ensures var url := scheme + authority + path + query;
            var p := |scheme| + |authority|;
            && url[..|scheme|] == scheme && url[|scheme|..p] == authority
            && url[p..p + |path|] == path && url[p + |path|..] == query
  {}

  lemma SchemeStands(scheme: string, url: string)
    requires IsScheme(scheme) && scheme <= url
    ensures SchemeEnd(url) == |scheme|
  {
    assert forall k :: 0 <= k < |scheme| ==> url[k] == scheme[k];
    SchemeEndIs(url);
  }

  lemma SlashBegins(url: string, m: nat, p: nat, authority: string, path: string)
    requires m <= p <= |url| && url[m..p] == authority && '/' !in authority
    requires path <= url[p..] && (path == "" ==> p == |url|) && (path != "" ==> path[0] == '/')
    ensures FindChar(url, m, c => c == '/') == p
  {
    assert forall k :: m <= k < p ==> url[k] == authority[k - m] && url[k] in authority;
    assert p < |url| ==> url[p] == url[p..][0] == path[0];
    FindCharIs(url, m, c => c == '/', p);
  }

  lemma QueryBegins(url: string, p: nat, q: nat, path: string, query: string)
    requires p <= q <= |url| && url[p..q] == path && url[q..] == query
    requires '?' !in path && '#' !in path && (query != "" ==> query[0] == '?' || query[0] == '#')
    ensures FindChar(url, p, StartsQuery) == q
  {
    assert forall k :: p <= k < q ==> url[k] == path[k - p] && url[k] in path;
    assert q < |url| ==> url[q] == url[q..][0] == query[0];
    FindCharIs(url, p, StartsQuery, q);
  }

  lemma WithoutCredentials(scheme: string, host: string, path: string, query: string)
    requires IsScheme(scheme) && '/' !in host && '@' !in host && (path != "" ==> path[0] == '/')
    requires '?' !in path && '#' !in path
    requires query != "" ==> path != "" && (query[0] == '?' || query[0] == '#')
    ensures MaskUrl(scheme + host + path + query) == scheme + host + path + if query == "" then "" else "?***"
  {
    hide SchemeEnd, FindChar, LastIndex;
    PartsBegin(scheme, host, path, query);
    LastIndexIsLast(host, '@');
    var url := scheme + host + path + query;
    assert url[..|scheme| + |host| + |path|] == scheme + host + path;
  }

  lemma WithCredentials(scheme: string, credentials: string, host: string, path: string, query: string)
    requires IsScheme(scheme) && '/' !in credentials && '/' !in host && '@' !in host && (path != "" ==> path[0] == '/')
    requires '?' !in path && '#' !in path
    requires query != "" ==> path != "" && (query[0] == '?' || query[0] == '#')
    ensures MaskUrl(scheme + (credentials + "@" + host) + path + query)
            == scheme + ("***@" + host) + path + if query == "" then "" else "?***"
  {
    hide SchemeEnd, FindChar, LastIndex, MaskUrl, StartsQuery;
    var authority := credentials + "@" + host;
    JoinedAuthority(credentials, host);
    PartsBegin(scheme, authority, path, query);
    var url := scheme + authority + path + query;
    var m, q := |scheme|, |scheme| + |authority| + |path|;
    MaskUrlWithStars(url, |scheme|, |scheme| + |authority|, q, |credentials|);
    HostAndPath(scheme, credentials, host, path, query);
    Regrouped(url[..m], url[m + |credentials|..q], host, path);
  }

  lemma JoinedAuthority(credentials: string, host: string)
    requires '/' !in credentials && '/' !in host && '@' !in host
    ensures '/' !in credentials + "@" + host
    ensures LastIndex(credentials + "@" + host, '@') == Some(|credentials|)
  {
    hide LastIndex;
    AbsentInBoth(credentials, "@", '/');
    AbsentInBoth(credentials + "@", host, '/');
    LastBehind(credentials + "@", host);
  }

  lemma AbsentInBoth(a: string, b: string, c: char)
    requires c !in a && c !in b
    ensures c !in a + b
  {}

  lemma LastBehind(front: string, host: string)
    requires front != "" && front[|front| - 1] == '@' && '@' !in host
    ensures LastIndex(front + host, '@') == Some(|front| - 1)
  {
    hide LastIndex;
    var s := front + host;
    forall k | |front| <= k < |s|
      ensures s[k] != '@'
    {
      assert s[k] == host[k - |front|];
    }
    LastIndexIs(s, '@', |front| - 1);
  }

  lemma MaskUrlWithStars(url: string, m: nat, p: nat, q: nat, at: nat)
    requires m <= p <= q <= |url| && SchemeEnd(url) == m && FindChar(url, m, c => c == '/') == p && FindChar(url, p, StartsQuery) == q
    requires LastIndex(url[m..p], '@') == Some(at) && m + at <= q
    ensures MaskUrl(url) == url[..m] + STARS + url[m + at..q] + if q == |url| then "" else "?***"
  {}

  lemma HostAndPath(scheme: string, credentials: string, host: string, path: string, query: string)
    ensures var url := scheme + (credentials + "@" + host) + path + query;
            var from := |scheme| + |credentials|;
            && url[..|scheme|] == scheme
            && url[from..from + 1 + |host| + |path|] == "@" + host + path
  {}

  lemma Regrouped(scheme: string, stretch: string, host: string, path: string)
    requires stretch == "@" + host + path
    ensures scheme + STARS + stretch == scheme + ("***@" + host) + path
  {}

  lemma {:induction false} LastIndexIs(s: string, c: char, at: nat)
    requires at < |s| && s[at] == c && forall k :: at < k < |s| ==> s[k] != c
    ensures LastIndex(s, c) == Some(at)
  {
    if at < |s| - 1 {
      LastIndexIs(s[..|s| - 1], c, at);
    }
  }

  // Of a text with a URL in it, the text up to the URL stays, the URL up to the next
  // white space is masked, and so on; a text without a URL stays as it is.
  lemma FirstUrlIsMasked(front: string, scheme: string, rest: string, after: string)
    requires IsScheme(scheme) && forall c :: c in rest ==> !IsWhitespace(c)
    requires after != "" ==> IsWhitespace(after[0])
    requires forall i :: 0 <= i < |front| ==>
               !OccursAt(front + (scheme + rest) + after, i, "http://") && !OccursAt(front + (scheme + rest) + after, i, "https://")
    ensures MaskUrls(front + (scheme + rest) + after) == front + MaskUrl(scheme + rest) + MaskUrls(after)
  {
    hide MaskUrls, MaskUrl, FirstUrl, FindChar, IsWhitespace, OccursAt, IsScheme;
    var s := front + (scheme + rest) + after;
    FirstIn(front, scheme, rest, after);
    UrlEnds(front, scheme, rest, after);
    MaskUrlsUnfold(s);
  }

  lemma FirstIn(front: string, scheme: string, rest: string, after: string)
    requires IsScheme(scheme)
    requires forall i :: 0 <= i < |front| ==>
               !OccursAt(front + (scheme + rest) + after, i, "http://") && !OccursAt(front + (scheme + rest) + after, i, "https://")
    ensures FirstUrl(front + (scheme + rest) + after) == Some(|front|)
  {
    hide OccursAt, FirstUrl, IsScheme;
    assert front + (scheme + rest) + after == front + (scheme + (rest + after));
    FirstIs(front, scheme, rest + after);
  }

  lemma UrlEnds(front: string, scheme: string, rest: string, after: string)
    requires IsScheme(scheme) && forall c :: c in rest ==> !IsWhitespace(c)
    requires after != "" ==> IsWhitespace(after[0])
    ensures var s, end := front + (scheme + rest) + after, |front| + |scheme + rest|;
            && FindChar(s, |front|, IsWhitespace) == end
            && s[..|front|] == front && s[|front|..end] == scheme + rest && s[end..] == after
  {
    hide IsWhitespace, IsScheme, FindChar;
    var url := scheme + rest;
    forall k | 0 <= k < |url|
      ensures !IsWhitespace(url[k])
    {
      if k < |scheme| {
        NoSpaceIn(scheme, k);
      } else {
        assert url[k] == rest[k - |scheme|] && url[k] in rest;
      }
    }
    StretchEnds(front, url, after);
  }

  // A stretch without white space, up to white space or the end.
  lemma StretchEnds(front: string, url: string, after: string)
    requires forall k :: 0 <= k < |url| ==> !IsWhitespace(url[k])
    requires after != "" ==> IsWhitespace(after[0])
    ensures var s, end := front + url + after, |front| + |url|;
            && FindChar(s, |front|, IsWhitespace) == end
            && s[..|front|] == front && s[|front|..end] == url && s[end..] == after
  {
    hide IsWhitespace, FindChar;
    var s, end := front + url + after, |front| + |url|;
    forall k | |front| <= k < end
      ensures !IsWhitespace(s[k])
    {
      assert s[k] == url[k - |front|];
    }
    FindCharIs(s, |front|, IsWhitespace, end);
  }

  lemma NoSpaceIn(scheme: string, k: nat)
    requires IsScheme(scheme) && k < |scheme|
    ensures !IsWhitespace(scheme[k])
  {}

  lemma FirstIs(front: string, scheme: string, rest: string)
    requires IsScheme(scheme)
    requires forall i :: 0 <= i < |front| ==>
               !OccursAt(front + (scheme + rest), i, "http://") && !OccursAt(front + (scheme + rest), i, "https://")
    ensures FirstUrl(front + (scheme + rest)) == Some(|front|)
  {
    hide OccursAt, Find;
    var s := front + (scheme + rest);
    assert s == front + scheme + rest;
    OccursBetween(front, scheme, rest);
    FindIs(s, 0, scheme, |front|);
    OneScheme(s, |front|);
  }

  lemma OneScheme(s: string, i: nat)
    ensures !(OccursAt(s, i, "http://") && OccursAt(s, i, "https://"))
  {
    assert OccursAt(s, i, "http://") ==> s[i + 4] == "http://"[4];
    assert OccursAt(s, i, "https://") ==> s[i + 4] == "https://"[4];
  }

  lemma NoUrlNoChange(s: string)
    requires forall i: nat :: !OccursAt(s, i, "http://") && !OccursAt(s, i, "https://")
    ensures MaskUrls(s) == s
  {}

  // ------------------------------------------------------------------- assignments

  lemma {:induction false} SearchBehind(a: string, b: string, from: nat, key: string)
    requires from <= |b|
    ensures FindIgnoringCase(a + b, |a| + from, key)
            == if FindIgnoringCase(b, from, key).None? then None else Some(|a| + FindIgnoringCase(b, from, key).value)
    decreases |b| - from
  {
    hide OccursAtIgnoringCase;
    if from + |key| <= |b| {
      OccursBehind(a, b, from, key);
      if from < |b| {
        SearchBehind(a, b, from + 1, key);
      }
    }
  }

  lemma OccursBehind(a: string, b: string, i: nat, key: string)
    ensures OccursAtIgnoringCase(a + b, |a| + i, key) <==> OccursAtIgnoringCase(b, i, key)
  {
    if i + |key| <= |b| {
      assert forall j :: 0 <= j < |b| ==> (a + b)[|a| + j] == b[j];
      BothOccur(a + b, |a| + i, b, i, key);
    }
  }

  lemma BothOccur(s: string, i: nat, t: string, j: nat, key: string)
    requires i + |key| <= |s| && j + |key| <= |t|
    requires s[i..i + |key|] == t[j..j + |key|]
    ensures OccursAtIgnoringCase(s, i, key) <==> OccursAtIgnoringCase(t, j, key)
  {
    forall k | 0 <= k < |key|
      ensures Lower(s[i + k]) == key[k] <==> Lower(t[j + k]) == key[k]
    {
      assert s[i..i + |key|][k] == t[j..j + |key|][k];
    }
  }

  lemma {:induction false} EndBehind(a: string, b: string, from: nat)
    requires from <= |b|
    ensures ValueEnd(a + b, |a| + from) == |a| + ValueEnd(b, from)
  {
    var end := ValueEnd(b, from);
    assert forall k :: 0 <= k < |b| ==> (a + b)[|a| + k] == b[k];
    FindCharIs(a + b, |a| + from, EndsValue, |a| + end);
  }

  lemma ReplaceBehind(a: string, b: string, start: nat)
    requires start <= |b|
    ensures Replace(a + b, |a| + start) == a + Replace(b, start)
  {
    EndBehind(a, b, start);
    assert (a + b)[..|a| + start] == a + b[..start];
    assert (a + b)[|a| + ValueEnd(b, start)..] == b[ValueEnd(b, start)..];
  }

  // The loop never looks back.
  lemma {:induction false} MaskBehind(a: string, b: string, from: nat, key: string)
    requires from <= |b| && IsKey(key)
    ensures MaskFrom(a + b, |a| + from, key) == a + MaskFrom(b, from, key)
    decreases |b| - from
  {
    hide MaskFrom, FindIgnoringCase, OccursAtIgnoringCase, Replace, ValueEnd;
    MaskFromNext(a + b, |a| + from, key);
    MaskFromNext(b, from, key);
    SearchBehind(a, b, from, key);
    var found := FindIgnoringCase(b, from, key);
    if found.Some? {
      var start := found.value + |key|;
      ReplaceBehind(a, b, start);
      MaskBehind(a, Replace(b, start), start + 3, key);
    }
  }

  lemma {:induction false} SearchIs(s: string, from: nat, key: string, at: nat)
    requires from <= at && OccursAtIgnoringCase(s, at, key)
    requires forall i :: from <= i < at ==> !OccursAtIgnoringCase(s, i, key)
    ensures FindIgnoringCase(s, from, key) == Some(at)
  {}

  // Only the value is replaced, up to white space, `&` or `;`; the name is kept in its
  // case, and a text without the key stays as it is.
  lemma ValueIsReplaced(front: string, name: string, value: string, rest: string, key: string)
    requires IsKey(key) && |name| == |key| && forall k :: 0 <= k < |key| ==> Lower(name[k]) == key[k]
    requires forall c :: c in value ==> !IsWhitespace(c) && c != '&' && c != ';'
    requires rest != "" ==> IsWhitespace(rest[0]) || rest[0] == '&' || rest[0] == ';'
    requires forall i :: 0 <= i < |front| ==> !OccursAtIgnoringCase(front + name + value + rest, i, key)
    ensures MaskFrom(front + name + value + rest, 0, key) == front + name + "***" + MaskFrom(rest, 0, key)
  {
    hide MaskFrom, OccursAtIgnoringCase, FindIgnoringCase, Replace;
    var s, start := front + name + value + rest, |front| + |name|;
    assert forall k :: |front| <= k < start ==> s[k] == name[k - |front|];
    KeyOccurs(s, |front|, name, key);
    SearchIs(s, 0, key, |front|);
    MaskFromNext(s, 0, key);
    ValueReplaced(front + name, value, rest);
    MaskBehind(front + name + STARS, rest, 0, key);
  }

  lemma ValueReplaced(front: string, value: string, rest: string)
    requires forall c :: c in value ==> !EndsValue(c)
    requires rest != "" ==> EndsValue(rest[0])
    ensures Replace(front + value + rest, |front|) == front + STARS + rest
  {
    hide EndsValue;
    var s, start := front + value + rest, |front|;
    var end := start + |value|;
    assert s[start..end] == value && s[end..] == rest && s[..start] == front;
    assert forall k :: start <= k < end ==> s[k] == s[start..end][k - start] && s[k] in value;
    assert end < |s| ==> s[end] == s[end..][0];
    FindCharIs(s, start, EndsValue, end);
  }

  lemma KeyOccurs(s: string, at: nat, name: string, key: string)
    requires |name| == |key| && forall k :: 0 <= k < |key| ==> Lower(name[k]) == key[k]
    requires at + |name| <= |s| && forall k :: at <= k < at + |name| ==> s[k] == name[k - at]
    ensures OccursAtIgnoringCase(s, at, key)
  {
    assert forall k :: 0 <= k < |key| ==> s[at + k] == name[k];
  }

  lemma {:induction false} NoKeyNoChange(s: string, keys: seq<string>)
    requires forall k :: 0 <= k < |keys| ==> IsKey(keys[k])
    requires forall key, i: nat :: key in keys ==> !OccursAtIgnoringCase(s, i, key)
    ensures MaskKeys(s, keys) == s
  {
    hide MaskFrom, OccursAtIgnoringCase;
    if keys != [] {
      var n := |keys| - 1;
      assert keys == keys[..n] + [keys[n]];
      NoKeyNoChange(s, keys[..n]);
      MaskFromNext(s, 0, keys[n]);
    }
  }

  // What is masked first and what last: homes, URLs, then the six keys in this order.
  lemma PassesAre(s: string)
    ensures StripFrom(s, 0).None? ==> SanitizeTechnicalLine(s) == None
    ensures StripFrom(s, 0).Some? ==>
              var masked := MaskKeys(MaskUrls(MaskHome(StripFrom(s, 0).value)),
                                     ["token=", "password=", "passwd=", "secret=", "apikey=", "api_key="]);
              SanitizeTechnicalLine(s) == Some(SanitizedLine(masked[..Fitting(masked, 4096)], ByteLength(masked) > 4096))
  {
    hide StripFrom, MaskHome, MaskUrls, MaskKeys, ByteLength;
  }

  // A line with nothing to hide that fits is stored as it is.
  lemma PlainLineIsKept(s: string)
    requires forall c :: c in s ==> c == '\t' || (c as int >= 0x20 && c as int != 0x7f)
    requires forall i: nat :: !OccursAt(s, i, "/home/") && !OccursAt(s, i, "http://") && !OccursAt(s, i, "https://")
    requires forall key, i: nat ::
               key in ["token=", "password=", "passwd=", "secret=", "apikey=", "api_key="] ==> !OccursAtIgnoringCase(s, i, key)
    requires ByteLength(s) <= 4096
    ensures SanitizeTechnicalLine(s) == Some(SanitizedLine(s, false))
  {
    hide StripFrom, MaskHome, MaskUrls, MaskKeys, OccursAt, OccursAtIgnoringCase;
    assert s[0..] == s && s[..|s|] == s && forall k :: 0 <= k < |s| ==> s[k] in s;
    StripKeepsClean(s, 0);
    NoHomeNoChange(s);
    NoUrlNoChange(s);
    NoKeyNoChange(s, KEYS);
  }
}
