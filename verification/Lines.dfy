/** Newline framing: a file as a sequence of records, and the two bounded windows
    through which the appender looks at the first and the last record. */
module Lines {
  type byte = n: int | 0 <= n < 256
  type bytes = seq<byte>

  const NEWLINE: byte := 10

  predicate IsLine(line: bytes) {
    NEWLINE !in line
  }

  predicate AreLines(lines: seq<bytes>) {
    forall i :: 0 <= i < |lines| ==> IsLine(lines[i])
  }

  function Join(lines: seq<bytes>): bytes {
    if lines == [] then [] else lines[0] + [NEWLINE] + Join(lines[1..])
  }

  function Min(a: nat, b: nat): nat {
    if a <= b then a else b
  }

  // `take(limit)` on a file
  function Take(file: bytes, limit: nat): bytes {
    file[..Min(limit, |file|)]
  }

  lemma SliceOfTake(file: bytes, limit: nat, from: nat, end: nat)
    requires from <= end <= |Take(file, limit)|
    ensures Take(file, limit)[from..end] == file[from..end]
  {
    var taken := Take(file, limit);
    forall k | 0 <= k < end - from ensures taken[from..end][k] == file[from..end][k] {
      assert taken[from + k] == file[from + k];
    }
  }

  // One past the first newline in file[from..bound], or the bound.
  function LineEnd(file: bytes, from: nat, bound: nat): (end: nat)
    requires from <= bound <= |file|
    ensures from <= end <= bound
    ensures end == from <==> from == bound
    decreases bound - from
  {
    if from == bound then from
    else if file[from] == NEWLINE then from + 1
    else LineEnd(file, from + 1, bound)
  }

  // Where `take(limit).read_until(b'\n')` stops when it starts at `from`.
  function ReadUntil(file: bytes, from: nat, limit: nat): (end: nat)
    requires from <= |file|
    ensures from <= end <= |file| && end - from <= limit
    ensures limit > 0 ==> (end == from <==> from == |file|)
  {
    LineEnd(file, from, Min(from + limit, |file|))
  }

  // One past the last newline before `bound`, or the start.
  function LineStart(s: bytes, bound: nat): (start: nat)
    requires bound <= |s|
    ensures start <= bound
  {
    if bound == 0 || s[bound - 1] == NEWLINE then bound else LineStart(s, bound - 1)
  }

  // `slice.rsplit(|b| b == '\n').next()`: everything after the last newline.
  function AfterLastNewline(s: bytes): bytes {
    s[LineStart(s, |s|)..]
  }

  lemma {:induction false} LineEndIs(file: bytes, from: nat, bound: nat, end: nat)
    requires from < end <= bound <= |file|
    requires file[end - 1] == NEWLINE
    requires forall k :: from <= k < end - 1 ==> file[k] != NEWLINE
    ensures LineEnd(file, from, bound) == end
    decreases end - from
  {
    if from + 1 < end {
      LineEndIs(file, from + 1, bound, end);
    }
  }

  lemma {:induction false} LineEndFinds(file: bytes, from: nat, bound: nat)
    requires from <= bound <= |file|
    ensures forall k :: from <= k < LineEnd(file, from, bound) - 1 ==> file[k] != NEWLINE
    decreases bound - from
  {
    if from < bound && file[from] != NEWLINE {
      LineEndFinds(file, from + 1, bound);
    }
  }

  lemma {:induction false} LineStartIs(s: bytes, bound: nat, start: nat)
    requires start <= bound <= |s|
    requires start == 0 || s[start - 1] == NEWLINE
    requires forall k :: start <= k < bound ==> s[k] != NEWLINE
    ensures LineStart(s, bound) == start
    decreases bound
  {
    if start < bound {
      LineStartIs(s, bound - 1, start);
    }
  }

  lemma {:induction false} JoinConcat(a: seq<bytes>, b: seq<bytes>)
    ensures Join(a + b) == Join(a) + Join(b)
  {
    if a == [] {
      assert a + b == b;
    } else {
      assert (a + b)[1..] == a[1..] + b;
      JoinConcat(a[1..], b);
      assert a[0] + [NEWLINE] + (Join(a[1..]) + Join(b)) == (a[0] + [NEWLINE] + Join(a[1..])) + Join(b);
    }
  }

  lemma JoinSnoc(a: seq<bytes>, line: bytes)
    ensures Join(a + [line]) == Join(a) + line + [NEWLINE]
  {
    JoinConcat(a, [line]);
    assert Join([line]) == line + [NEWLINE];
    assert Join(a) + (line + [NEWLINE]) == Join(a) + line + [NEWLINE];
  }

  // Reading at the start of a record yields exactly that record, up to and
  // including a record that fills the limit to its last byte.
  lemma ReadUntilRecord(file: bytes, from: nat, line: bytes, limit: nat)
    requires IsLine(line) && |line| + 1 <= limit
    requires from + |line| + 1 <= |file| && file[from..from + |line| + 1] == line + [NEWLINE]
    ensures ReadUntil(file, from, limit) == from + |line| + 1
  {
    var record := line + [NEWLINE];
    forall k | from <= k < from + |line| ensures file[k] != NEWLINE {
      assert file[k] == file[from..from + |record|][k - from] == line[k - from];
    }
    assert file[from + |line|] == file[from..from + |record|][|line|];
    LineEndIs(file, from, Min(from + limit, |file|), from + |record|);
  }

  // The first record of a file is the first line of every framing of a prefix of it.
  lemma FirstRecord(lines: seq<bytes>, file: bytes)
    requires lines != [] && IsLine(lines[0]) && Join(lines) <= file
    ensures var n := ReadUntil(file, 0, |file|);
            n == |lines[0]| + 1 && file[..n] == lines[0] + [NEWLINE] && Join(lines[1..]) <= file[n..]
  {
    var first, others := lines[0] + [NEWLINE], Join(lines[1..]);
    assert Join(lines) == first + others;
    assert file[0..|first|] == file[..|first|] == Join(lines)[..|first|] == first;
    ReadUntilRecord(file, 0, lines[0], |file|);
    var rest := file[|first|..];
    assert rest[..|others|] == file[|first|..|first| + |others|] == Join(lines)[|first|..] == others;
  }

  // Two framings of prefixes of one file agree line by line.
  lemma {:induction false} FramingUnique(a: seq<bytes>, b: seq<bytes>, file: bytes)
    requires AreLines(a) && AreLines(b) && |a| <= |b|
    requires Join(a) <= file && Join(b) <= file
    ensures a == b[..|a|]
  {
    if a != [] {
      FirstRecord(a, file);
      FirstRecord(b, file);
      assert a[0] == (a[0] + [NEWLINE])[..|a[0]|] == (b[0] + [NEWLINE])[..|b[0]|] == b[0];
      FramingUnique(a[1..], b[1..], file[|a[0]| + 1..]);
      assert a == [a[0]] + a[1..];
      assert b[..|a|] == [b[0]] + b[1..][..|a| - 1];
    }
  }

  // --------------------------------------------------------------- windows

  function HeadWindow(file: bytes, limit: nat): bytes {
    file[..ReadUntil(file, 0, limit)]
  }

  function TailWindow(file: bytes, limit: nat): (r: bytes)
    ensures |r| <= limit && (file != [] && limit > 0 ==> r != [])
  {
    if |file| <= limit then file else file[|file| - limit..]
  }

  // The head window returns exactly the first record, up to and including a
  // record that fills the window to its last byte.
  lemma HeadWindowExact(lines: seq<bytes>, limit: nat)
    requires lines != [] && IsLine(lines[0]) && |lines[0]| + 1 <= limit
    ensures HeadWindow(Join(lines), limit) == lines[0] + [NEWLINE]
  {
    var file, first := Join(lines), lines[0] + [NEWLINE];
    assert file[0..|first|] == first;
    ReadUntilRecord(file, 0, lines[0], limit);
  }

  lemma AfterLastNewlineOf(front: bytes, line: bytes)
    requires IsLine(line)
    requires front == [] || front[|front| - 1] == NEWLINE
    ensures AfterLastNewline(front + line) == line
  {
    var s := front + line;
    forall k | |front| <= k < |s| ensures s[k] != NEWLINE {
      assert s[k] == line[k - |front|];
    }
    LineStartIs(s, |s|, |front|);
  }

  // The tail window returns exactly the last record.
  lemma TailWindowExact(lines: seq<bytes>, limit: nat)
    requires lines != [] && IsLine(lines[|lines| - 1]) && |lines[|lines| - 1]| + 1 <= limit
    ensures var tail := TailWindow(Join(lines), limit);
            tail != [] && tail[|tail| - 1] == NEWLINE &&
            AfterLastNewline(tail[..|tail| - 1]) == lines[|lines| - 1]
  {
    hide Join;
    var front, last := lines[..|lines| - 1], lines[|lines| - 1];
    assert lines == front + [last];
    JoinSnoc(front, last);
    var file := Join(lines);
    var tail := TailWindow(file, limit);
    JoinEndsInNewline(front);
    var cut := |file| - |tail|;
    assert cut <= |Join(front)|;
    var before := Join(front)[cut..];
    assert tail == file[cut..] == before + last + [NEWLINE];
    assert tail[..|tail| - 1] == before + last;
    AfterLastNewlineOf(before, last);
  }

  lemma {:induction false} JoinEndsInNewline(lines: seq<bytes>)
    ensures lines == [] ==> Join(lines) == []
    ensures lines != [] ==> Join(lines) != [] && Join(lines)[|Join(lines)| - 1] == NEWLINE
  {
    if |lines| > 1 {
      JoinEndsInNewline(lines[1..]);
    }
  }
}
