/** The bounded reader of a persisted history (`read_history`). */
module History {
  import opened Wrappers
  import opened Decimal
  import opened Lines
  import opened Events

  datatype EventHistory = EventHistory(events: seq<OperationEvent>, incomplete: bool)

  // A record may follow those read before it.
  predicate Follows(id: string, before: seq<OperationEvent>, e: OperationEvent) {
    var previous := if before == [] then 0 else before[|before| - 1].sequence;
    && e.operationId == id
    && ((before == [] && e.IsMarker()) || (e.sequence != 0 && e.sequence > previous))
  }

  // The reader takes input[pos..end] as its next record.
  predicate Continues(c: Codec, id: string, input: bytes, pos: nat, end: nat, events: seq<OperationEvent>)
    requires pos <= end <= |input|
  {
    && pos < end <= MAX_LEGACY_BYTES
    && end - pos <= MAX_RECORD_BYTES
    && input[end - 1] == NEWLINE
    && c.read(input[pos..end]).Some?
    && Follows(id, events, c.read(input[pos..end]).value)
  }

  function ReadFrom(c: Codec, id: string, input: bytes, pos: nat, events: seq<OperationEvent>): EventHistory
    requires pos <= |input|
    decreases |input| - pos
  {
    var end := ReadUntil(input, pos, MAX_RECORD_BYTES + 1);
    if Continues(c, id, input, pos, end, events) then
      ReadFrom(c, id, input, end, events + [c.read(input[pos..end]).value])
    else
      EventHistory(events, pos < end)
  }

  function Read(c: Codec, id: string, file: bytes): EventHistory {
    ReadFrom(c, id, Take(file, MAX_LEGACY_BYTES + 1), 0, [])
  }

  // ------------------------------------------------------------- what it returns

  ghost predicate AcceptsAt(c: Codec, id: string, line: bytes, before: seq<OperationEvent>, e: OperationEvent) {
    && IsLine(line)
    && |line| + 1 <= MAX_RECORD_BYTES
    && c.read(line + [NEWLINE]) == Some(e)
    && Follows(id, before, e)
  }

  // `lines` are valid records of the operation, in order, within the legacy size.
  ghost predicate Accepts(c: Codec, id: string, lines: seq<bytes>, events: seq<OperationEvent>) {
    && |lines| == |events|
    && |Join(lines)| <= MAX_LEGACY_BYTES
    && forall i :: 0 <= i < |lines| ==> AcceptsAt(c, id, lines[i], events[..i], events[i])
  }

  // One record that is accepted, outright: at most 16 KiB, of this operation, with a
  // sequence above zero and that before it, or the truncation marker at the very start.
  ghost predicate Stands(c: Codec, id: string, line: bytes, before: seq<OperationEvent>, e: OperationEvent) {
    && IsLine(line) && |line| + 1 <= 16 * 1024 && c.read(line + [NEWLINE]) == Some(e) && e.operationId == id
    && (if e.sequence > 0 then before != [] ==> before[|before| - 1].sequence < e.sequence
        else before == [] && IsTruncation(e))
  }

  lemma AcceptsIs(c: Codec, id: string, lines: seq<bytes>, events: seq<OperationEvent>)
    ensures Accepts(c, id, lines, events) <==>
            && |lines| == |events| && |Join(lines)| <= 8 * 1024 * 1024 + 16 * 1024
            && forall i :: 0 <= i < |lines| ==> Stands(c, id, lines[i], events[..i], events[i])
  {
    hide Join, ParseU64, IsLine, Follows, Stands, AcceptsAt;
    forall line, before, e
      ensures AcceptsAt(c, id, line, before, e) <==> Stands(c, id, line, before, e)
    {
      StandsIs(c, id, line, before, e);
    }
  }

  lemma StandsIs(c: Codec, id: string, line: bytes, before: seq<OperationEvent>, e: OperationEvent)
    ensures AcceptsAt(c, id, line, before, e) <==> Stands(c, id, line, before, e)
  {
    hide IsLine, Follows, IsTruncation;
    FollowsIs(id, before, e);
  }

  predicate IsTruncation(e: OperationEvent) {
    && e.messageId == "history-truncated" && e.technical == None
    && "lines" in e.fields && ParseU64(e.fields["lines"]).Some?
    && "high_sequence" in e.fields && ParseU64(e.fields["high_sequence"]).Some?
  }

  lemma FollowsIs(id: string, before: seq<OperationEvent>, e: OperationEvent)
    ensures Follows(id, before, e) <==>
              && e.operationId == id
              && (if e.sequence > 0 then before != [] ==> before[|before| - 1].sequence < e.sequence
                  else before == [] && IsTruncation(e))
  {
    hide ParseU64;
  }

  ghost predicate IsPrefixRead(c: Codec, id: string, file: bytes, lines: seq<bytes>, events: seq<OperationEvent>) {
    Accepts(c, id, lines, events) && Join(lines) <= file
  }

  // `h` holds the longest prefix of valid records of `file`, namely `lines`, and
  // is incomplete exactly when bytes remain after it.
  ghost predicate IsLongest(c: Codec, id: string, file: bytes, lines: seq<bytes>, h: EventHistory) {
    && IsPrefixRead(c, id, file, lines, h.events)
    && (h.incomplete <==> Join(lines) != file)
    && forall ls, es :: IsPrefixRead(c, id, file, ls, es) ==>
         |ls| <= |lines| && ls == lines[..|ls|] && es == h.events[..|es|]
  }

  // The reader has accepted `read`, which is exactly input[..pos].
  ghost predicate ReadSoFar(c: Codec, id: string, file: bytes, pos: nat, read: seq<bytes>, events: seq<OperationEvent>) {
    var input := Take(file, MAX_LEGACY_BYTES + 1);
    && Accepts(c, id, read, events)
    && pos <= |input| && Join(read) == input[..pos]
  }

  // On arbitrary bytes the reader returns the longest prefix of valid records,
  // and reports `incomplete` exactly when bytes remain after it.
  lemma ReaderReturnsLongestPrefix(c: Codec, id: string, file: bytes) returns (lines: seq<bytes>)
    ensures IsLongest(c, id, file, lines, Read(c, id, file))
  {
    lines := LongestFrom(c, id, file, 0, [], []);
  }

  lemma {:induction false} LongestFrom(
    c: Codec, id: string, file: bytes, pos: nat, read: seq<bytes>, events: seq<OperationEvent>)
    returns (lines: seq<bytes>)
    requires ReadSoFar(c, id, file, pos, read, events)
    ensures IsLongest(c, id, file, lines, ReadFrom(c, id, Take(file, MAX_LEGACY_BYTES + 1), pos, events))
    decreases |Take(file, MAX_LEGACY_BYTES + 1)| - pos
  {
    var input := Take(file, MAX_LEGACY_BYTES + 1);
    var end := ReadUntil(input, pos, MAX_RECORD_BYTES + 1);
    if Continues(c, id, input, pos, end, events) {
      TakeRecord(c, id, file, pos, read, events);
      lines := LongestFrom(c, id, file, end, read + [input[pos..end - 1]], events + [c.read(input[pos..end]).value]);
    } else {
      lines := read;
      StopIsLongest(c, id, file, pos, read, events);
    }
  }

  // One turn of the loop: the accepted records grow by one.
  lemma TakeRecord(c: Codec, id: string, file: bytes, pos: nat, read: seq<bytes>, events: seq<OperationEvent>)
    requires ReadSoFar(c, id, file, pos, read, events)
    requires var input := Take(file, MAX_LEGACY_BYTES + 1);
             Continues(c, id, input, pos, ReadUntil(input, pos, MAX_RECORD_BYTES + 1), events)
    ensures var input := Take(file, MAX_LEGACY_BYTES + 1);
            var end := ReadUntil(input, pos, MAX_RECORD_BYTES + 1);
            ReadSoFar(c, id, file, end, read + [input[pos..end - 1]], events + [c.read(input[pos..end]).value])
  {
    hide Accepts, Join;
    var input := Take(file, MAX_LEGACY_BYTES + 1);
    var end := ReadUntil(input, pos, MAX_RECORD_BYTES + 1);
    var line, e := input[pos..end - 1], c.read(input[pos..end]).value;
    assert input[pos..end] == line + [NEWLINE];
    LineEndFinds(input, pos, Min(pos + MAX_RECORD_BYTES + 1, |input|));
    assert AcceptsAt(c, id, line, events, e);
    assert |Join(read)| == pos;
    ExtendAccepted(c, id, read, events, line, e);
    assert input[..end] == input[..pos] + input[pos..end];
  }

  lemma NothingReadYet(c: Codec, id: string, file: bytes)
    ensures ReadSoFar(c, id, file, 0, [], [])
  {}

  lemma ExtendAccepted(c: Codec, id: string, lines: seq<bytes>, events: seq<OperationEvent>, line: bytes, e: OperationEvent)
    requires Accepts(c, id, lines, events) && AcceptsAt(c, id, line, events, e)
    requires |Join(lines)| + |line| + 1 <= MAX_LEGACY_BYTES
    ensures Accepts(c, id, lines + [line], events + [e])
    ensures Join(lines + [line]) == Join(lines) + (line + [NEWLINE])
  {
    JoinSnoc(lines, line);
    assert Join(lines) + line + [NEWLINE] == Join(lines) + (line + [NEWLINE]);
    forall i | 0 <= i < |lines| + 1
      ensures AcceptsAt(c, id, (lines + [line])[i], (events + [e])[..i], (events + [e])[i])
    {
      assert (events + [e])[..i] == events[..i];
      if i == |lines| {
        assert events[..i] == events;
      }
    }
  }

  lemma StopIsLongest(c: Codec, id: string, file: bytes, pos: nat, read: seq<bytes>, events: seq<OperationEvent>)
    requires ReadSoFar(c, id, file, pos, read, events)
    requires var input := Take(file, MAX_LEGACY_BYTES + 1);
             !Continues(c, id, input, pos, ReadUntil(input, pos, MAX_RECORD_BYTES + 1), events)
    ensures IsLongest(c, id, file, read, EventHistory(events, pos < |Take(file, MAX_LEGACY_BYTES + 1)|))
  {
    var input := Take(file, MAX_LEGACY_BYTES + 1);
    assert input[..pos] == file[..pos];
    assert |Join(read)| == pos && Join(read) <= file;
    if pos == |input| {
      assert pos <= MAX_LEGACY_BYTES;
      assert input == file;
    }
    forall ls, es | IsPrefixRead(c, id, file, ls, es)
      ensures |ls| <= |read| && ls == read[..|ls|] && es == events[..|es|]
    {
      if |ls| <= |read| {
        SamePrefix(c, id, file, ls, es, read, events);
      } else {
        SamePrefix(c, id, file, read, events, ls, es);
        NextRecord(c, id, file, pos, read, events, ls, es);
        assert false;
      }
    }
  }

  lemma SamePrefix(c: Codec, id: string, file: bytes,
                   a: seq<bytes>, ea: seq<OperationEvent>, b: seq<bytes>, eb: seq<OperationEvent>)
    requires IsPrefixRead(c, id, file, a, ea) && IsPrefixRead(c, id, file, b, eb) && |a| <= |b|
    ensures a == b[..|a|] && ea == eb[..|a|]
  {
    assert AreLines(a) by {
      forall i | 0 <= i < |a| ensures IsLine(a[i]) { assert AcceptsAt(c, id, a[i], ea[..i], ea[i]); }
    }
    assert AreLines(b) by {
      forall i | 0 <= i < |b| ensures IsLine(b[i]) { assert AcceptsAt(c, id, b[i], eb[..i], eb[i]); }
    }
    FramingUnique(a, b, file);
    forall i | 0 <= i < |a| ensures ea[i] == eb[i] {
      assert AcceptsAt(c, id, a[i], ea[..i], ea[i]);
      assert AcceptsAt(c, id, b[i], eb[..i], eb[i]);
      assert a[i] == b[i];
    }
  }

  // If a longer valid framing exists, the reader goes on with its next record.
  lemma NextRecord(c: Codec, id: string, file: bytes, pos: nat, read: seq<bytes>, events: seq<OperationEvent>,
                   ls: seq<bytes>, es: seq<OperationEvent>)
    requires ReadSoFar(c, id, file, pos, read, events)
    requires IsPrefixRead(c, id, file, ls, es) && |read| < |ls|
    requires read == ls[..|read|] && events == es[..|read|]
    ensures var input := Take(file, MAX_LEGACY_BYTES + 1);
            Continues(c, id, input, pos, ReadUntil(input, pos, MAX_RECORD_BYTES + 1), events)
  {
    hide Join;
    var n, input := |read|, Take(file, MAX_LEGACY_BYTES + 1);
    var line := ls[n];
    assert AcceptsAt(c, id, line, es[..n], es[n]);
    RecordInPlace(file, read, ls);
    assert |Join(read)| == pos;
    var end := pos + |line| + 1;
    assert end <= |Join(ls)| <= |file| && end <= |input|;
    assert file[pos..end] == line + [NEWLINE];
    SliceOfTake(file, MAX_LEGACY_BYTES + 1, pos, end);
    NextRecordAt(c, id, input, pos, line, events, es[n]);
  }

  lemma NextRecordAt(c: Codec, id: string, input: bytes, pos: nat, line: bytes,
                     events: seq<OperationEvent>, e: OperationEvent)
    requires AcceptsAt(c, id, line, events, e)
    requires pos + |line| + 1 <= |input| && pos + |line| + 1 <= MAX_LEGACY_BYTES
    requires input[pos..pos + |line| + 1] == line + [NEWLINE]
    ensures Continues(c, id, input, pos, ReadUntil(input, pos, MAX_RECORD_BYTES + 1), events)
  {
    ReadUntilRecord(input, pos, line, MAX_RECORD_BYTES + 1);
    assert input[pos + |line|] == input[pos..pos + |line| + 1][|line|];
  }

  // In a file that starts with `ls`, the record after ls[..n] lies at its place.
  lemma RecordInPlace(file: bytes, read: seq<bytes>, ls: seq<bytes>)
    requires |read| < |ls| && read == ls[..|read|] && Join(ls) <= file
    ensures var pos := |Join(read)|;
            var end := pos + |ls[|read|]| + 1;
            end <= |Join(ls)| && file[pos..end] == ls[|read|] + [NEWLINE]
  {
    JoinGrows(read, ls);
    var record, more := ls[|read|] + [NEWLINE], ls[|read|..];
    assert Join(more) == record + Join(more[1..]);
    MiddleOfPrefix(file, Join(read), record, Join(more[1..]));
  }

  lemma MiddleOfPrefix(file: bytes, a: bytes, b: bytes, rest: bytes)
    requires a + (b + rest) <= file
    ensures |a| + |b| <= |file| && file[|a|..|a| + |b|] == b
  {
    var whole := a + (b + rest);
    assert file[..|whole|] == whole;
    forall k | 0 <= k < |b| ensures file[|a| + k] == b[k] {
      assert file[|a| + k] == whole[|a| + k];
    }
  }

  lemma JoinGrows(a: seq<bytes>, b: seq<bytes>)
    requires |a| < |b| && a == b[..|a|]
    ensures Join(b) == Join(a) + Join(b[|a|..]) && Join(b[|a|..]) != []
  {
    var more := b[|a|..];
    assert a + more == b;
    JoinConcat(a, more);
    JoinEndsInNewline(more);
  }

  lemma LongestIsUnique(c: Codec, id: string, file: bytes, lines: seq<bytes>, h: EventHistory)
    requires IsLongest(c, id, file, lines, h)
    ensures h == Read(c, id, file)
  {
    var longest := ReaderReturnsLongestPrefix(c, id, file);
    var read := Read(c, id, file);
    assert IsPrefixRead(c, id, file, longest, read.events);
    assert IsPrefixRead(c, id, file, lines, h.events);
    assert longest == lines && h.events == read.events;
  }

  // The loop of `read_history`.
  method ReadHistory(c: Codec, id: string, file: bytes) returns (history: EventHistory)
    ensures history == Read(c, id, file)
  {
    hide Accepts, IsLongest;
    var input := Take(file, MAX_LEGACY_BYTES + 1);
    var total: nat, incomplete, previous := 0, false, 0;
    var events: seq<OperationEvent> := [];
    ghost var lines: seq<bytes> := [];
    NothingReadYet(c, id, file);
    while true
      invariant !incomplete
      invariant previous == if events == [] then 0 else events[|events| - 1].sequence
      invariant ReadSoFar(c, id, file, total, lines, events)
      decreases |input| - total
    {
      var end := ReadUntil(input, total, MAX_RECORD_BYTES + 1);
      if end == total {
        break;
      }
      var record := input[total..end];
      if |record| > MAX_RECORD_BYTES || end > MAX_LEGACY_BYTES || record[|record| - 1] != NEWLINE {
        incomplete := true;
        break;
      }
      var decoded := c.read(record);
      if decoded.None? {
        incomplete := true;
        break;
      }
      var event := decoded.value;
      var marker := events == [] && event.IsMarker();
      if event.operationId != id || (!marker && (event.sequence == 0 || event.sequence <= previous)) {
        incomplete := true;
        break;
      }
      TakeRecord(c, id, file, total, lines, events);
      previous := event.sequence;
      events := events + [event];
      lines := lines + [input[total..end - 1]];
      total := end;
    }
    StopIsLongest(c, id, file, total, lines, events);
    history := EventHistory(events, incomplete);
    LongestIsUnique(c, id, file, lines, history);
  }

  // ------------------------------------------------------- files the appender leaves

  // A file made of valid records alone is read back whole.
  lemma CompleteFileIsReadBack(c: Codec, id: string, lines: seq<bytes>, events: seq<OperationEvent>)
    requires Accepts(c, id, lines, events)
    ensures Read(c, id, Join(lines)) == EventHistory(events, false)
  {
    var file := Join(lines);
    var longest := ReaderReturnsLongestPrefix(c, id, file);
    assert IsPrefixRead(c, id, file, lines, events);
    if |lines| < |longest| {
      JoinGrows(lines, longest);
    }
    assert lines == longest;
  }

  // A torn last record leaves the whole history before it, marked incomplete.
  lemma TornFileKeepsItsPrefix(c: Codec, id: string, lines: seq<bytes>, events: seq<OperationEvent>, torn: bytes)
    requires Accepts(c, id, lines, events) && torn != [] && IsLine(torn)
    ensures Read(c, id, Join(lines) + torn) == EventHistory(events, true)
  {
    var file := Join(lines) + torn;
    var longest := ReaderReturnsLongestPrefix(c, id, file);
    assert IsPrefixRead(c, id, file, lines, events);
    if |lines| < |longest| {
      JoinGrows(lines, longest);
      TornTailHasNoRecord(Join(lines), torn, longest[|lines|..]);
    }
    assert lines == longest;
  }

  lemma TornTailHasNoRecord(front: bytes, torn: bytes, more: seq<bytes>)
    requires IsLine(torn) && front + Join(more) <= front + torn
    ensures more == []
  {
    JoinEndsInNewline(more);
    assert Join(more) == (front + Join(more))[|front|..] <= (front + torn)[|front|..] == torn;
  }
}
