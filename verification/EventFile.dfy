/** The persisted history of one operation: every append, every failure, every run. */
module EventFile {
  import opened Wrappers
  import opened Decimal
  import opened Lines
  import opened Events
  import opened History
  import opened Compaction

  // What goes wrong below `append_event`: an error before anything is written, a
  // write cut short after some bytes, or an error reported once all is written.
  datatype Fault = NoFault | Unavailable | Torn(written: nat) | Unsynced

  datatype Outcome = Outcome(file: bytes, result: Result<(), AppendError>)

  // The constant-size check: the first record through the head window, the last
  // one through the tail window.
  function CheckEnds(c: Codec, id: string, file: bytes, e: OperationEvent): (r: Result<(), AppendError>)
    requires file != []
    ensures r != Err(Io)
  {
    var first := c.read(HeadWindow(file, MAX_RECORD_BYTES));
    if first.None? then Err(Json)
    else if first.value.sequence == 0
            && (first.value.messageId != TRUNCATED_MESSAGE
                || first.value.Field(HIGH_FIELD).None?
                || first.value.Field(HIGH_FIELD).value >= e.sequence) then
      Err(InvalidHistory)
    else
      var tail := TailWindow(file, MAX_RECORD_BYTES);
      if tail[|tail| - 1] != NEWLINE then Err(InvalidHistory)
      else
        var previous := c.read(AfterLastNewline(tail[..|tail| - 1]));
        if previous.None? then Err(Json)
        else if previous.value.operationId != id || previous.value.sequence >= e.sequence then Err(InvalidHistory)
        else Ok(())
  }

  function WriteRecord(file: bytes, record: bytes, fault: Fault): Outcome
    requires record != []
  {
    match fault
    case Torn(written) => Outcome(file + record[..Min(written, |record| - 1)], Err(Io))
    case Unsynced => Outcome(file + record, Err(Io))
    case _ => Outcome(file + record, Ok(()))
  }

  // The new file replaces the old one in one rename; a short write hits only the
  // temporary file.
  function ReplaceFile(file: bytes, output: bytes, fault: Fault): Outcome {
    match fault
    case Torn(_) => Outcome(file, Err(Io))
    case Unsynced => Outcome(output, Err(Io))
    case _ => Outcome(output, Ok(()))
  }

  function Append(c: Codec, id: string, file: bytes, e: OperationEvent, fault: Fault): Outcome {
    if e.operationId != id || e.sequence == 0 then Outcome(file, Err(UnsafePath))
    else if !c.Fits(e) then Outcome(file, Err(TooLarge))
    else if fault.Unavailable? then Outcome(file, Err(Io))
    else if file != [] && CheckEnds(c, id, file, e).Err? then
      Outcome(file, Err(CheckEnds(c, id, file, e).error))
    else if SaturatingAdd(|file|, |c.Record(e)|) <= MAX_PERSISTED_EVENT_BYTES then
      WriteRecord(file, c.Record(e), fault)
    else
      var history := Read(c, id, file);
      if history.incomplete then Outcome(file, Err(InvalidHistory))
      else
        var output := Compact(c, history.events, e);
        if output.Err? then Outcome(file, Err(output.error)) else ReplaceFile(file, output.value, fault)
  }

  // The file on disk, changed in place by the appender.
  class EventLogFile {
    const codec: Codec
    const operationId: string
    var content: bytes

    constructor (codec: Codec, operationId: string)
      ensures content == [] && this.codec == codec && this.operationId == operationId
    {
      this.codec, this.operationId, this.content := codec, operationId, [];
    }

    method AppendEvent(e: OperationEvent, fault: Fault) returns (result: Result<(), AppendError>)
      modifies this`content
      ensures Outcome(content, result) == Append(codec, operationId, old(content), e, fault)
    {
      if e.operationId != operationId || e.sequence == 0 {
        return Err(UnsafePath);
      }
      var record := codec.Record(e);
      if |record| > MAX_RECORD_BYTES {
        return Err(TooLarge);
      }
      if fault.Unavailable? {
        return Err(Io);
      }
      var size := |content|;
      if size != 0 {
        var head := HeadWindow(content, MAX_RECORD_BYTES);
        var first := codec.read(head);
        if first.None? {
          return Err(Json);
        }
        if first.value.sequence == 0 {
          var high := first.value.Field(HIGH_FIELD);
          if first.value.messageId != TRUNCATED_MESSAGE || high.None? || high.value >= e.sequence {
            return Err(InvalidHistory);
          }
        }
        var tail := TailWindow(content, MAX_RECORD_BYTES);
        if tail[|tail| - 1] != NEWLINE {
          return Err(InvalidHistory);
        }
        var previous := codec.read(AfterLastNewline(tail[..|tail| - 1]));
        if previous.None? {
          return Err(Json);
        }
        if previous.value.operationId != operationId || previous.value.sequence >= e.sequence {
          return Err(InvalidHistory);
        }
      }
      if SaturatingAdd(size, |record|) <= MAX_PERSISTED_EVENT_BYTES {
        var written := WriteRecord(content, record, fault);
        content := written.file;
        return written.result;
      }
      var history := ReadHistory(codec, operationId, content);
      if history.incomplete {
        return Err(InvalidHistory);
      }
      var output := CompactHistory(codec, history.events, e);
      if output.Err? {
        return Err(output.error);
      }
      var replaced := ReplaceFile(content, output.value, fault);
      content := replaced.file;
      return replaced.result;
    }
  }

  // -------------------------------------------------------- what a file stands for

  // `accepted`: the events ever written, in order. Of these the `dropped` oldest
  // technical ones are gone; the last compaction happened on accepted[mark].
  datatype Log = Log(accepted: seq<OperationEvent>, dropped: nat, mark: nat)

  function Kept(l: Log): seq<OperationEvent> {
    DropTechnical(l.accepted, l.dropped)
  }

  function LogMarker(l: Log): seq<OperationEvent> {
    if l.dropped == 0 || l.mark >= |l.accepted| then [] else [Marker(l.accepted[l.mark], SaturatingAdd(l.dropped, 0))]
  }

  ghost predicate AcceptedOk(c: Codec, id: string, accepted: seq<OperationEvent>) {
    && Increasing(accepted)
    && forall e :: e in accepted ==> e.operationId == id && e.sequence > 0 && c.Fits(e)
  }

  ghost predicate LogOk(c: Codec, id: string, l: Log) {
    && AcceptedOk(c, id, l.accepted)
    && l.dropped <= |Technicals(l.accepted)|
    && (l.dropped != 0 ==>
          && l.mark < |l.accepted|
          && l.dropped <= |Technicals(l.accepted[..l.mark + 1])|
          && AllFit(c, LogMarker(l)))
  }

  function Shown(l: Log): seq<OperationEvent> {
    LogMarker(l) + Kept(l)
  }

  ghost predicate Represents(c: Codec, id: string, file: bytes, l: Log) {
    && LogOk(c, id, l)
    && file == c.File(Shown(l))
    && |file| <= MAX_PERSISTED_EVENT_BYTES
  }

  lemma KeptOk(c: Codec, id: string, l: Log)
    requires LogOk(c, id, l)
    ensures AcceptedOk(c, id, Kept(l))
  {
    IncreasingIsAscending(l.accepted);
    DropTechnicalAscending(l.accepted, l.dropped);
    IncreasingIsAscending(Kept(l));
    DropTechnicalMembers(l.accepted, l.dropped);
  }

  lemma KeptFollows(c: Codec, id: string, l: Log, j: nat)
    requires LogOk(c, id, l) && j < |Kept(l)|
    ensures var e := Kept(l)[j];
            e.operationId == id && e.sequence > 0 && c.Fits(e) && (j > 0 ==> Kept(l)[j - 1].sequence < e.sequence)
  {
    KeptOk(c, id, l);
    IncreasingIsAscending(Kept(l));
    hide Kept, Increasing;
    assert Kept(l)[j] in Kept(l);
  }

  lemma ShownFollows(c: Codec, id: string, l: Log, i: nat)
    requires LogOk(c, id, l) && i < |Shown(l)|
    ensures Follows(id, Shown(l)[..i], Shown(l)[i]) && c.Fits(Shown(l)[i])
  {
    hide Kept, Increasing;
    var shown, m := Shown(l), |LogMarker(l)|;
    if i < m {
      assert shown[..i] == [] && shown[i] == LogMarker(l)[i];
      assert shown[i] in LogMarker(l) && l.accepted[l.mark] in l.accepted;
    } else {
      KeptFollows(c, id, l, i - m);
      assert shown[i] == Kept(l)[i - m];
      if i > m {
        assert shown[i - 1] == Kept(l)[i - 1 - m];
      }
    }
  }

  lemma ShownAccepted(c: Codec, id: string, file: bytes, l: Log)
    requires c.Valid() && Represents(c, id, file, l)
    ensures Accepts(c, id, c.Lines(Shown(l)), Shown(l))
  {
    hide Shown;
    var shown, lines := Shown(l), c.Lines(Shown(l));
    forall i | 0 <= i < |lines| ensures AcceptsAt(c, id, lines[i], shown[..i], shown[i]) {
      ShownFollows(c, id, l, i);
      assert c.read(c.write(shown[i]) + [NEWLINE]) == Some(shown[i]);
    }
  }

  // Every such file is read back as a complete history: the marker, then what is kept.
  lemma HistoryIsReadBack(c: Codec, id: string, file: bytes, l: Log)
    requires c.Valid() && Represents(c, id, file, l)
    ensures Read(c, id, file) == EventHistory(Shown(l), false)
  {
    ShownAccepted(c, id, file, l);
    CompleteFileIsReadBack(c, id, c.Lines(Shown(l)), Shown(l));
  }

  // ------------------------------------------------ the constant-size check is exact

  lemma LastKept(c: Codec, id: string, l: Log)
    requires LogOk(c, id, l) && l.accepted != []
    requires l.dropped == 0 || l.mark < |l.accepted| - 1
    ensures Kept(l) != [] && Kept(l)[|Kept(l)| - 1] == l.accepted[|l.accepted| - 1]
  {
    hide AcceptedOk, Technicals, LogMarker;
    if l.dropped != 0 {
      var front, rest := l.accepted[..l.mark + 1], l.accepted[l.mark + 1..];
      assert l.accepted == front + rest;
      DropTechnicalConcat(front, rest, l.dropped);
    }
  }

  lemma KeptIsBelow(c: Codec, id: string, l: Log)
    requires LogOk(c, id, l)
    ensures forall e :: e in Kept(l) ==> e.sequence <= l.accepted[|l.accepted| - 1].sequence
  {
    DropTechnicalMembers(l.accepted, l.dropped);
    IncreasingIsAscending(l.accepted);
  }

  lemma NothingWritten(c: Codec, id: string, file: bytes, l: Log)
    requires Represents(c, id, file, l)
    ensures file == [] <==> l.accepted == []
  {
    JoinEndsInNewline(c.Lines(Shown(l)));
    DropTechnicalLength(l.accepted, l.dropped);
  }

  // The two windows show the first and the last record of the file.
  lemma CheckEndsReads(c: Codec, id: string, file: bytes, l: Log, e: OperationEvent)
    requires c.Valid() && Represents(c, id, file, l) && file != []
    ensures var shown := Shown(l);
            && shown != []
            && (CheckEnds(c, id, file, e).Ok? <==>
                 && (shown[0].sequence == 0 ==>
                       shown[0].messageId == TRUNCATED_MESSAGE && shown[0].Field(HIGH_FIELD).Some?
                       && shown[0].Field(HIGH_FIELD).value < e.sequence)
                 && shown[|shown| - 1].sequence < e.sequence)
    ensures CheckEnds(c, id, file, e).Err? ==> CheckEnds(c, id, file, e) == Err(InvalidHistory)
  {
    hide Shown;
    var shown := Shown(l);
    var lines := c.Lines(shown);
    JoinEndsInNewline(lines);
    var n := |shown|;
    ShownAccepted(c, id, file, l);
    assert AcceptsAt(c, id, lines[0], shown[..0], shown[0]);
    assert AcceptsAt(c, id, lines[n - 1], shown[..n - 1], shown[n - 1]);
    HeadWindowExact(lines, MAX_RECORD_BYTES);
    TailWindowExact(lines, MAX_RECORD_BYTES);
    assert c.read(HeadWindow(file, MAX_RECORD_BYTES)) == Some(shown[0]);
    assert c.read(lines[n - 1]) == Some(shown[n - 1]);
  }

  lemma HeadShows(c: Codec, id: string, l: Log)
    requires LogOk(c, id, l) && l.accepted != []
    ensures Shown(l) != []
    ensures var head := Shown(l)[0];
            if l.dropped == 0 then head.sequence > 0
            else head.IsMarker() && head.Field(HIGH_FIELD) == Some(l.accepted[l.mark].sequence)
  {
    if l.dropped == 0 {
      assert Shown(l) == l.accepted;
      assert l.accepted[0] in l.accepted;
    }
  }

  // The marker's high-water mark and the last record bound everything ever accepted.
  lemma EndsBoundAll(c: Codec, id: string, l: Log, sequence: u64)
    requires LogOk(c, id, l) && l.accepted != [] && Shown(l) != []
    ensures var shown := Shown(l);
            ((l.dropped != 0 ==> l.accepted[l.mark].sequence < sequence) && shown[|shown| - 1].sequence < sequence)
            <==> l.accepted[|l.accepted| - 1].sequence < sequence
  {
    hide Kept;
    var shown := Shown(l);
    KeptIsBelow(c, id, l);
    IncreasingIsAscending(l.accepted);
    if Kept(l) != [] {
      assert shown[|shown| - 1] == Kept(l)[|Kept(l)| - 1];
      assert shown[|shown| - 1] in Kept(l);
    }
    if l.dropped == 0 || l.mark < |l.accepted| - 1 {
      LastKept(c, id, l);
    }
  }

  ghost predicate ExceedsAll(events: seq<OperationEvent>, e: OperationEvent) {
    forall before :: before in events ==> before.sequence < e.sequence
  }

  // Looking at two windows of the file decides exactly as a scan of everything
  // ever accepted would, evicted records included.
  lemma CheckEndsIsFullScan(c: Codec, id: string, file: bytes, l: Log, e: OperationEvent)
    requires c.Valid() && Represents(c, id, file, l) && file != []
    ensures l.accepted != []
    ensures CheckEnds(c, id, file, e).Ok? <==> ExceedsAll(l.accepted, e)
  {
    hide Shown, Kept, CheckEnds;
    NothingWritten(c, id, file, l);
    CheckEndsReads(c, id, file, l, e);
    HeadShows(c, id, l);
    EndsBoundAll(c, id, l, e.sequence);
    IncreasingIsAscending(l.accepted);
    assert l.accepted[|l.accepted| - 1] in l.accepted;
  }

  // ------------------------------------------------------------------ one append

  predicate Durable(c: Codec, id: string, file: bytes, e: OperationEvent, fault: Fault) {
    var result := Append(c, id, file, e, fault).result;
    result.Ok? || (fault.Unsynced? && result == Err(Io))
  }

  lemma TornRecordIsLine(c: Codec, e: OperationEvent, torn: bytes)
    requires c.Valid() && torn <= c.Record(e) && |torn| < |c.Record(e)|
    ensures IsLine(torn)
  {
    assert IsLine(c.write(e));
    assert torn <= c.write(e);
  }

  // The append gets as far as writing.
  predicate Admitted(c: Codec, id: string, file: bytes, e: OperationEvent, fault: Fault) {
    && e.operationId == id && e.sequence != 0 && c.Fits(e) && !fault.Unavailable?
    && (file == [] || CheckEnds(c, id, file, e).Ok?)
  }

  function Extended(l: Log, e: OperationEvent): Log {
    l.(accepted := l.accepted + [e])
  }

  lemma AcceptedGrows(c: Codec, id: string, file: bytes, l: Log, e: OperationEvent)
    requires c.Valid() && Represents(c, id, file, l)
    requires e.operationId == id && e.sequence > 0 && c.Fits(e)
    requires file == [] || CheckEnds(c, id, file, e).Ok?
    ensures AcceptedOk(c, id, l.accepted + [e])
  {
    NothingWritten(c, id, file, l);
    if file != [] {
      CheckEndsIsFullScan(c, id, file, l, e);
    }
    var n := |l.accepted|;
    assert (l.accepted + [e])[..n] == l.accepted;
    if n > 0 {
      assert l.accepted[n - 1] in l.accepted;
    }
  }

  lemma WrittenInPlace(c: Codec, id: string, file: bytes, l: Log, e: OperationEvent)
    requires Represents(c, id, file, l) && AcceptedOk(c, id, l.accepted + [e])
    requires |file| + |c.Record(e)| <= MAX_PERSISTED_EVENT_BYTES
    ensures Represents(c, id, file + c.Record(e), Extended(l, e))
  {
    hide Marker, DropTechnical, Increasing, Technicals;
    var m := Extended(l, e);
    TechnicalsConcat(l.accepted, [e]);
    DropTechnicalConcat(l.accepted, [e], l.dropped);
    if l.dropped != 0 {
      assert m.accepted[..m.mark + 1] == l.accepted[..l.mark + 1];
    }
    assert Shown(m) == Shown(l) + [e];
    FileAppend(c, Shown(l), e);
  }

  // Evicting `k` more technical records from what is kept, the new event included.
  lemma EvictMore(l: Log, e: OperationEvent, k: nat)
    requires l.dropped <= |Technicals(l.accepted)|
    requires k <= |Technicals(Kept(l) + [e])|
    ensures DropTechnical(Kept(l) + [e], k) == DropTechnical(l.accepted + [e], l.dropped + k)
    ensures l.dropped + k <= |Technicals(l.accepted + [e])|
  {
    var all := l.accepted + [e];
    TechnicalsConcat(l.accepted, [e]);
    DropTechnicalConcat(l.accepted, [e], l.dropped);
    DropTechnicalKeeps(all, l.dropped);
    DropTechnicalCompose(all, l.dropped, k);
  }

  lemma CompactReads(c: Codec, id: string, l: Log, e: OperationEvent)
    requires LogOk(c, id, l)
    ensures Rewritten(Shown(l), e) == Kept(l) + [e]
    ensures PreviouslyDropped(Shown(l)) == Some(SaturatingAdd(l.dropped, 0))
  {
    KeptOk(c, id, l);
    if l.dropped != 0 {
      assert Shown(l)[1..] == Kept(l);
    } else {
      assert Shown(l) == Kept(l);
    }
  }

  lemma CompactedLog(c: Codec, id: string, l: Log, e: OperationEvent, k: nat)
    requires LogOk(c, id, l) && AcceptedOk(c, id, l.accepted + [e])
    requires k <= |Technicals(Kept(l) + [e])|
    requires AllFit(c, MarkerFor(e, SaturatingAdd(SaturatingAdd(l.dropped, 0), k)))
    ensures var m := Log(l.accepted + [e], l.dropped + k, |l.accepted|);
            && LogOk(c, id, m)
            && Shown(m) == MarkerFor(e, SaturatingAdd(SaturatingAdd(l.dropped, 0), k)) + DropTechnical(Kept(l) + [e], k)
  {
    hide DropTechnical, Marker, Increasing, Technicals, Codec.Fits, AcceptedOk, OperationEvent.IsMarker;
    EvictMore(l, e, k);
    var m := Log(l.accepted + [e], l.dropped + k, |l.accepted|);
    assert m.accepted[..m.mark + 1] == m.accepted;
    assert MarkerFor(e, SaturatingAdd(SaturatingAdd(l.dropped, 0), k)) == LogMarker(m);
  }

  lemma Compacted(c: Codec, id: string, file: bytes, l: Log, e: OperationEvent) returns (m: Log)
    requires c.Valid() && Represents(c, id, file, l) && AcceptedOk(c, id, l.accepted + [e])
    requires Compact(c, Shown(l), e).Ok?
    ensures m.accepted == l.accepted + [e]
    ensures m.dropped == l.dropped + Evictions(c, Kept(l) + [e], c.Size(Kept(l) + [e]))
    ensures var records := Kept(l) + [e];
            var k := Evictions(c, records, c.Size(records));
            Shown(m) == MarkerFor(e, SaturatingAdd(SaturatingAdd(l.dropped, 0), k)) + DropTechnical(records, k)
    ensures Represents(c, id, Compact(c, Shown(l), e).value, m)
  {
    hide Shown, Kept, LogOk, AcceptedOk, Marker, DropTechnical;
    var records := Kept(l) + [e];
    CompactReads(c, id, l, e);
    var k := Evictions(c, records, c.Size(records));
    EvictionsIsLeast(c, records, c.Size(records));
    CompactedLog(c, id, l, e, k);
    m := Log(l.accepted + [e], l.dropped + k, |l.accepted|);
  }

  // Whatever happens, the file afterwards stands for what was durably appended,
  // possibly followed by a torn record.
  lemma AppendKeeps(c: Codec, id: string, file: bytes, l: Log, e: OperationEvent, fault: Fault)
    returns (m: Log, torn: bytes)
    requires c.Valid() && Represents(c, id, file, l)
    ensures m.accepted == if Durable(c, id, file, e, fault) then l.accepted + [e] else l.accepted
    ensures IsLine(torn) && (torn != [] ==> fault.Torn?)
    ensures Represents(c, id, c.File(Shown(m)), m)
    ensures Append(c, id, file, e, fault).file == c.File(Shown(m)) + torn
  {
    hide Shown, LogOk, CheckEnds, Compact, AcceptedOk, Codec.Valid;
    m, torn := l, [];
    if Admitted(c, id, file, e, fault) {
      AcceptedGrows(c, id, file, l, e);
      if |file| + |c.Record(e)| > MAX_PERSISTED_EVENT_BYTES {
        HistoryIsReadBack(c, id, file, l);
        if Compact(c, Shown(l), e).Ok? && !fault.Torn? {
          m := Compacted(c, id, file, l, e);
        }
      } else if fault.Torn? {
        torn := c.Record(e)[..Min(fault.written, |c.Record(e)| - 1)];
        TornRecordIsLine(c, e, torn);
      } else {
        WrittenInPlace(c, id, file, l, e);
        m := Extended(l, e);
      }
    }
    assert c.File(Shown(m)) + [] == c.File(Shown(m));
  }

  // --------------------------------------------------------------------- every run

  datatype Attempt = Attempt(event: OperationEvent, fault: Fault)

  function RunFrom(c: Codec, id: string, file: bytes, attempts: seq<Attempt>): bytes {
    if attempts == [] then file
    else
      var last := attempts[|attempts| - 1];
      Append(c, id, RunFrom(c, id, file, attempts[..|attempts| - 1]), last.event, last.fault).file
  }

  // The events whose record reached the disk, in order.
  function Written(c: Codec, id: string, attempts: seq<Attempt>): seq<OperationEvent> {
    if attempts == [] then []
    else
      var before, last := attempts[..|attempts| - 1], attempts[|attempts| - 1];
      Written(c, id, before) +
      (if Durable(c, id, RunFrom(c, id, [], before), last.event, last.fault) then [last.event] else [])
  }

  lemma TornEndIsRefused(c: Codec, id: string, front: bytes, torn: bytes, e: OperationEvent)
    requires torn != [] && IsLine(torn)
    ensures var file := front + torn;
            file[|file| - 1] != NEWLINE && CheckEnds(c, id, file, e).Err? && CheckEnds(c, id, file, e) != Err(Io)
  {
    var file := front + torn;
    var tail := TailWindow(file, MAX_RECORD_BYTES);
    assert tail[|tail| - 1] == file[|file| - 1] == torn[|torn| - 1];
    assert torn[|torn| - 1] in torn;
  }

  lemma TornFileRefuses(c: Codec, id: string, front: bytes, torn: bytes, e: OperationEvent, fault: Fault)
    requires torn != [] && IsLine(torn)
    ensures Append(c, id, front + torn, e, fault).file == front + torn
    ensures Append(c, id, front + torn, e, fault).result.Err?
    ensures !Durable(c, id, front + torn, e, fault)
  {
    hide CheckEnds;
    TornEndIsRefused(c, id, front, torn, e);
  }

  lemma {:induction false} RunKeeps(c: Codec, id: string, attempts: seq<Attempt>) returns (l: Log, torn: bytes)
    requires c.Valid()
    ensures l.accepted == Written(c, id, attempts)
    ensures Represents(c, id, c.File(Shown(l)), l) && IsLine(torn)
    ensures RunFrom(c, id, [], attempts) == c.File(Shown(l)) + torn
    ensures torn != [] ==> exists i :: 0 <= i < |attempts| && attempts[i].fault.Torn?
  {
    if attempts == [] {
      l, torn := Log([], 0, 0), [];
      assert Shown(l) == [];
    } else {
      var before, last := attempts[..|attempts| - 1], attempts[|attempts| - 1];
      l, torn := RunKeeps(c, id, before);
      var file := RunFrom(c, id, [], before);
      if torn == [] {
        assert file == c.File(Shown(l));
        l, torn := AppendKeeps(c, id, file, l, last.event, last.fault);
      } else {
        TornFileRefuses(c, id, c.File(Shown(l)), torn, last.event, last.fault);
        var i :| 0 <= i < |before| && before[i].fault.Torn?;
        assert attempts[i].fault.Torn?;
      }
    }
  }

  // A history without its marker.
  function Body(events: seq<OperationEvent>): seq<OperationEvent> {
    if events != [] && events[0].sequence == 0 then events[1..] else events
  }

  // Over every run of appends from an empty file, with any failures and through
  // any number of compactions: the reader returns everything written except the
  // oldest technical lines, state changes are all there in order, and the marker
  // counts exactly the technical lines that are missing.
  lemma HistoryOfEveryRun(c: Codec, id: string, attempts: seq<Attempt>)
    requires c.Valid()
    ensures var written := Written(c, id, attempts);
            var h := Read(c, id, RunFrom(c, id, [], attempts));
            && PreviouslyDropped(h.events).Some?
            && Normatives(Body(h.events)) == Normatives(written)
            && Increasing(written)
            && (exists dropped: nat ::
                  && dropped <= |Technicals(written)|
                  && Body(h.events) == DropTechnical(written, dropped)
                  && PreviouslyDropped(h.events).value == SaturatingAdd(dropped, 0))
            && (|Technicals(written)| <= U64_MAX ==>
                  PreviouslyDropped(h.events).value + |Technicals(Body(h.events))| == |Technicals(written)|)
            && (h.incomplete ==> exists i :: 0 <= i < |attempts| && attempts[i].fault.Torn?)
  {
    var l := HistoryShows(c, id, attempts);
    ShownContents(c, id, l);
  }

  lemma HistoryShows(c: Codec, id: string, attempts: seq<Attempt>) returns (l: Log)
    requires c.Valid()
    ensures LogOk(c, id, l) && l.accepted == Written(c, id, attempts)
    ensures var h := Read(c, id, RunFrom(c, id, [], attempts));
            && h.events == Shown(l)
            && (h.incomplete ==> exists i :: 0 <= i < |attempts| && attempts[i].fault.Torn?)
  {
    var torn;
    l, torn := RunKeeps(c, id, attempts);
    var file := c.File(Shown(l));
    if torn == [] {
      assert file + torn == file;
      HistoryIsReadBack(c, id, file, l);
    } else {
      ShownAccepted(c, id, file, l);
      TornFileKeepsItsPrefix(c, id, c.Lines(Shown(l)), Shown(l), torn);
    }
  }

  lemma ShownContents(c: Codec, id: string, l: Log)
    requires LogOk(c, id, l)
    ensures PreviouslyDropped(Shown(l)) == Some(SaturatingAdd(l.dropped, 0))
    ensures Body(Shown(l)) == Kept(l)
    ensures Normatives(Kept(l)) == Normatives(l.accepted)
    ensures |Technicals(Kept(l))| + l.dropped == |Technicals(l.accepted)|
  {
    hide Increasing, Technicals, Normatives;
    KeptOk(c, id, l);
    DropTechnicalKeeps(l.accepted, l.dropped);
    if l.dropped != 0 {
      assert Shown(l)[1..] == Kept(l);
    } else {
      assert Shown(l) == Kept(l);
    }
  }

  // In every run, torn writes included, the appender's check of two windows admits an
  // event exactly when the file ends in a whole record and the event's sequence is above
  // everything ever written.
  lemma AdmissionInEveryRun(c: Codec, id: string, attempts: seq<Attempt>, e: OperationEvent)
    requires c.Valid() && e.operationId == id && e.sequence > 0 && c.Fits(e)
    ensures var file := RunFrom(c, id, [], attempts);
            (file == [] || CheckEnds(c, id, file, e).Ok?) <==>
              (file == [] || file[|file| - 1] == NEWLINE) && ExceedsAll(Written(c, id, attempts), e)
  {
    hide Shown, CheckEnds, Represents, Append, LogOk, Written, RunFrom;
    var l, torn := RunKeeps(c, id, attempts);
    var whole := c.File(Shown(l));
    if torn == [] {
      assert whole + torn == whole;
      NothingWritten(c, id, whole, l);
      JoinEndsInNewline(c.Lines(Shown(l)));
      if whole != [] {
        CheckEndsIsFullScan(c, id, whole, l, e);
      }
    } else {
      TornEndIsRefused(c, id, whole, torn, e);
    }
  }

  // An append that reports anything but an input/output error leaves the file alone,
  // and so does one that meets the error before writing.
  lemma RefusedAppendChangesNothing(c: Codec, id: string, file: bytes, e: OperationEvent, fault: Fault)
    requires Append(c, id, file, e, fault).result.Err?
    requires fault.NoFault? || fault.Unavailable? || Append(c, id, file, e, fault).result != Err(Io)
    ensures Append(c, id, file, e, fault).file == file
  {
    if file != [] {
      assert CheckEnds(c, id, file, e) != Err(Io);
    }
  }

  // ------------------------------------------------------- how often it compacts

  ghost predicate NeverCompacts(c: Codec, id: string, file: bytes, attempts: seq<Attempt>) {
    forall i :: 0 <= i < |attempts| && c.Fits(attempts[i].event) ==>
      |RunFrom(c, id, file, attempts[..i])| + |c.Record(attempts[i].event)| <= MAX_PERSISTED_EVENT_BYTES
  }

  lemma OneAppendGrows(c: Codec, id: string, file: bytes, e: OperationEvent, fault: Fault)
    requires |file| + MAX_RECORD_BYTES <= MAX_PERSISTED_EVENT_BYTES
    ensures |Append(c, id, file, e, fault).file| <= |file| + MAX_RECORD_BYTES
  {
    hide CheckEnds, Read, Compact;
  }

  lemma {:induction false} GrowthInPlace(c: Codec, id: string, file: bytes, attempts: seq<Attempt>)
    requires |file| + |attempts| * MAX_RECORD_BYTES <= MAX_PERSISTED_EVENT_BYTES
    ensures |RunFrom(c, id, file, attempts)| <= |file| + |attempts| * MAX_RECORD_BYTES
    ensures NeverCompacts(c, id, file, attempts)
  {
    hide Append;
    if attempts != [] {
      var n := |attempts| - 1;
      var before, last := attempts[..n], attempts[n];
      GrowthInPlace(c, id, file, before);
      OneAppendGrows(c, id, RunFrom(c, id, file, before), last.event, last.fault);
      forall i | 0 <= i <= n && c.Fits(attempts[i].event)
        ensures |RunFrom(c, id, file, attempts[..i])| + |c.Record(attempts[i].event)| <= MAX_PERSISTED_EVENT_BYTES
      {
        if i < n {
          assert before[..i] == attempts[..i] && before[i] == attempts[i];
        }
      }
    }
  }

  // Compaction pays for itself: once the retained records fit the target, the next
  // 255 appends, whatever they are, need no compaction.
  lemma RoomAfterCompaction(c: Codec, id: string, events: seq<OperationEvent>, incoming: OperationEvent, attempts: seq<Attempt>)
    requires Compact(c, events, incoming).Ok? && |attempts| <= 255
    requires var records := Rewritten(events, incoming);
             c.Size(DropTechnical(records, Evictions(c, records, c.Size(records)))) <= TARGET
    ensures NeverCompacts(c, id, Compact(c, events, incoming).value, attempts)
  {
    hide Evictions, DropTechnical, Marker, NeverCompacts;
    var records := Rewritten(events, incoming);
    var k := Evictions(c, records, c.Size(records));
    var marker := MarkerFor(incoming, SaturatingAdd(PreviouslyDropped(events).value, k));
    var output := Compact(c, events, incoming).value;
    FileSize(c, marker + DropTechnical(records, k));
    SizeConcat(c, marker, DropTechnical(records, k));
    assert c.Size(marker) <= MAX_RECORD_BYTES by {
      if marker != [] {
        assert marker[0] in marker;
        SizeOne(c, marker[0]);
        assert marker == [marker[0]];
      } else {
        assert c.Size(marker) == 0;
      }
    }
    assert 256 * MAX_RECORD_BYTES + TARGET == MAX_PERSISTED_EVENT_BYTES;
    GrowthInPlace(c, id, output, attempts);
  }

  // What a compaction evicts is the shortest prefix of the technical records that
  // brings the retained bytes to the target, or all of them; nothing else goes.
  lemma CompactionEvictsShortestPrefix(c: Codec, events: seq<OperationEvent>, incoming: OperationEvent)
    returns (evicted: nat)
    requires Compact(c, events, incoming).Ok?
    ensures var records := Rewritten(events, incoming);
            var kept := DropTechnical(records, evicted);
            && evicted <= |Technicals(records)|
            && (exists marker :: |marker| <= 1 && AllFit(c, marker)
                  && Compact(c, events, incoming).value == c.File(marker + kept))
            && |Compact(c, events, incoming).value| <= MAX_PERSISTED_EVENT_BYTES
            && (c.Size(kept) <= TARGET || Technicals(kept) == [])
            && (forall fewer: nat :: fewer < evicted ==> c.Size(DropTechnical(records, fewer)) > TARGET)
  {
    var records := Rewritten(events, incoming);
    var size := c.Size(records);
    evicted := Evictions(c, records, size);
    EvictionsIsLeast(c, records, size);
    DropTechnicalKeeps(records, evicted);
    DropTechnicalSize(c, records, evicted);
    forall fewer: nat | fewer < evicted ensures c.Size(DropTechnical(records, fewer)) > TARGET {
      DropTechnicalSize(c, records, fewer);
    }
    var marker := MarkerFor(incoming, SaturatingAdd(PreviouslyDropped(events).value, evicted));
    assert |marker| <= 1 && AllFit(c, marker);
  }
}
