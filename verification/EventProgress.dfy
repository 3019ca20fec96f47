/** What one append to a sound history does, said outright: the record behind the file, or
    the compacted history; and that in every run such an append is never lost. */
module EventProgress {
  import opened Wrappers
  import opened Decimal
  import opened Lines
  import opened Events
  import opened History
  import opened Compaction
  import opened EventFile

  // The file is empty or ends in a whole record.
  predicate EndsWhole(file: bytes) {
    file == [] || file[|file| - 1] == NEWLINE
  }

  // An event that the history of a run can take.
  ghost predicate Welcome(c: Codec, id: string, attempts: seq<Attempt>, e: OperationEvent) {
    && EndsWhole(RunFrom(c, id, [], attempts))
    && e.operationId == id && e.sequence > 0 && |c.write(e)| + 1 <= 16 * 1024
    && ExceedsAll(Written(c, id, attempts), e)
  }

  lemma WelcomePasses(c: Codec, id: string, attempts: seq<Attempt>, e: OperationEvent)
    requires c.Valid() && Welcome(c, id, attempts, e)
    ensures var file := RunFrom(c, id, [], attempts); file == [] || CheckEnds(c, id, file, e).Ok?
    ensures c.Fits(e)
  {
    hide RunFrom, Written, CheckEnds, ExceedsAll;
    AdmissionInEveryRun(c, id, attempts, e);
  }

  // While there is room, the record goes behind the file: whole without a fault or when
  // only the report fails, a proper beginning of it when the write is cut short, and
  // nothing when the error comes first.
  lemma AppendInPlace(c: Codec, id: string, attempts: seq<Attempt>, e: OperationEvent, written: nat)
    requires c.Valid() && Welcome(c, id, attempts, e)
    requires |RunFrom(c, id, [], attempts)| + |c.write(e)| + 1 <= 8 * 1024 * 1024
    ensures var file, record := RunFrom(c, id, [], attempts), c.write(e) + [NEWLINE];
            && Append(c, id, file, e, NoFault) == Outcome(file + record, Ok(()))
            && Append(c, id, file, e, Unsynced) == Outcome(file + record, Err(Io))
            && Append(c, id, file, e, Torn(written))
               == Outcome(file + record[..if written < |record| then written else |record| - 1], Err(Io))
            && Append(c, id, file, e, Unavailable) == Outcome(file, Err(Io))
  {
    hide RunFrom, Written, CheckEnds, ExceedsAll, Read, Compact;
    WelcomePasses(c, id, attempts, e);
  }

  // Why an append is refused: an event of another operation or without a sequence, one
  // that is too large, an error before anything is read; then a sequence already used.
  lemma RefusalIs(c: Codec, id: string, attempts: seq<Attempt>, e: OperationEvent, fault: Fault)
    requires c.Valid()
    ensures var file := RunFrom(c, id, [], attempts);
            var refused := Append(c, id, file, e, fault);
            if e.operationId != id || e.sequence == 0 then refused == Outcome(file, Err(UnsafePath))
            else if |c.write(e)| + 1 > 16 * 1024 then refused == Outcome(file, Err(TooLarge))
            else if fault == Unavailable then refused == Outcome(file, Err(Io))
            else EndsWhole(file) && !ExceedsAll(Written(c, id, attempts), e) ==> refused == Outcome(file, Err(InvalidHistory))
  {
    hide RunFrom, Written, CheckEnds, ExceedsAll, Read, Compact;
    if e.operationId == id && e.sequence > 0 && c.Fits(e) {
      AdmissionInEveryRun(c, id, attempts, e);
      if EndsWhole(RunFrom(c, id, [], attempts)) {
        SoundEndsRefuse(c, id, attempts, e);
      }
    }
  }

  // The two ends of a sound file can be read, so that only the order is left to object to.
  lemma SoundEndsRefuse(c: Codec, id: string, attempts: seq<Attempt>, e: OperationEvent)
    requires c.Valid() && EndsWhole(RunFrom(c, id, [], attempts))
    ensures var file := RunFrom(c, id, [], attempts);
            file != [] && CheckEnds(c, id, file, e).Err? ==> CheckEnds(c, id, file, e) == Err(InvalidHistory)
  {
    hide RunFrom, Shown, LogOk, CheckEnds;
    var file := RunFrom(c, id, [], attempts);
    var l := WholeRun(c, id, attempts);
    if file != [] {
      CheckEndsReads(c, id, file, l, e);
    }
  }

  // What the check of the ends demands of any file of lines, whoever wrote them: both ends
  // are records, the first is no foreign marker and none of a later sequence, and the last
  // is of this operation and of an earlier one.
  lemma EndsAre(c: Codec, id: string, lines: seq<bytes>, e: OperationEvent)
    requires lines != [] && IsLine(lines[0]) && IsLine(lines[|lines| - 1])
    requires |lines[0]| + 1 <= 16 * 1024 && |lines[|lines| - 1]| + 1 <= 16 * 1024
    ensures var first, last := c.read(lines[0] + [NEWLINE]), c.read(lines[|lines| - 1]);
            Join(lines) != []
            && CheckEnds(c, id, Join(lines), e) ==
               if first.None? then Err(Json)
               else if first.value.sequence == 0
                       && !(first.value.messageId == "history-truncated" && "high_sequence" in first.value.fields
                            && ParseU64(first.value.fields["high_sequence"]).Some?
                            && ParseU64(first.value.fields["high_sequence"]).value < e.sequence) then Err(InvalidHistory)
               else if last.None? then Err(Json)
               else if last.value.operationId == id && last.value.sequence < e.sequence then Ok(())
               else Err(InvalidHistory)
  {
    hide Join, HeadWindow, TailWindow, AfterLastNewline, ParseU64, IsLine;
    HeadWindowExact(lines, 16 * 1024);
    TailWindowExact(lines, 16 * 1024);
    JoinEndsInNewline(lines);
  }

  // ----------------------------------------------------------------- a full file

  function TruncationMarker(e: OperationEvent, lines: u64): OperationEvent {
    OperationEvent(e.operationId, 0, e.occurredAt, e.state, Warning, "history-truncated",
                   map["lines" := ToDecimal(lines), "high_sequence" := ToDecimal(e.sequence)], None)
  }

  // `k` technical records from the front are the fewest that bring the bytes to 4 MiB, or
  // all there are.
  ghost predicate Fewest(c: Codec, records: seq<OperationEvent>, k: nat) {
    && k <= |Technicals(records)|
    && (c.Size(DropTechnical(records, k)) <= 4 * 1024 * 1024 || k == |Technicals(records)|)
    && forall fewer: nat :: fewer < k ==> c.Size(DropTechnical(records, fewer)) > 4 * 1024 * 1024
  }

  lemma EvictionsAreFewest(c: Codec, records: seq<OperationEvent>)
    ensures Fewest(c, records, Evictions(c, records, c.Size(records)))
  {
    hide DropTechnical, Evictions, Technicals, Codec.Size;
    var k := Evictions(c, records, c.Size(records));
    EvictionsIsLeast(c, records, c.Size(records));
    DropTechnicalSize(c, records, k);
    forall fewer: nat | fewer < k
      ensures c.Size(DropTechnical(records, fewer)) > 4 * 1024 * 1024
    {
      DropTechnicalSize(c, records, fewer);
    }
  }

  // What a compaction leaves: the marker, if anything is missing, and what is kept.
  function AfterEviction(history: seq<OperationEvent>, e: OperationEvent, k: nat, missing: u64): seq<OperationEvent> {
    (if missing == 0 then [] else [TruncationMarker(e, missing)]) + DropTechnical(Body(history) + [e], k)
  }

  lemma MarkerIsTruncation(e: OperationEvent, lines: u64)
    ensures MarkerFor(e, lines) == if lines == 0 then [] else [TruncationMarker(e, lines)]
  {}

  lemma HistoryFits(c: Codec, id: string, l: Log, e: OperationEvent)
    requires LogOk(c, id, l) && c.Fits(e)
    ensures AllFit(c, Body(Shown(l)) + [e]) && PreviouslyDropped(Shown(l)).Some?
  {
    hide Kept, LogOk, Increasing, Technicals;
    KeptOk(c, id, l);
    ShownContents(c, id, l);
  }

  // The compaction of the history that is read back.
  lemma CompactSays(c: Codec, history: seq<OperationEvent>, e: OperationEvent) returns (k: nat, missing: u64)
    requires PreviouslyDropped(history).Some? && AllFit(c, Body(history) + [e])
    ensures k == Evictions(c, Body(history) + [e], c.Size(Body(history) + [e]))
    ensures AfterEviction(history, e, k, missing) == MarkerFor(e, missing) + DropTechnical(Body(history) + [e], k)
    ensures Fewest(c, Body(history) + [e], k) && missing == SaturatingAdd(PreviouslyDropped(history).value, k)
    ensures var events := AfterEviction(history, e, k, missing);
            Compact(c, history, e) ==
              if (missing != 0 ==> c.Fits(TruncationMarker(e, missing))) && c.Size(events) <= 8 * 1024 * 1024
              then Ok(c.File(events)) else Err(TooLarge)
  {
    hide DropTechnical, Evictions, Codec.Size, Codec.File, Fewest, Marker, TruncationMarker, Codec.Fits, OperationEvent.Field;
    var records := Body(history) + [e];
    assert Rewritten(history, e) == records;
    k := Evictions(c, records, c.Size(records));
    missing := SaturatingAdd(PreviouslyDropped(history).value, k);
    EvictionsAreFewest(c, records);
    MarkerIsTruncation(e, missing);
    FileSize(c, AfterEviction(history, e, k, missing));
  }

  // Once the file is full, it is rewritten as the old history with the event added and
  // the shortest sufficient prefix of technical records gone, exactly if that fits.
  lemma AppendWhenFull(c: Codec, id: string, attempts: seq<Attempt>, e: OperationEvent, written: nat)
    returns (k: nat, missing: u64)
    requires c.Valid() && Welcome(c, id, attempts, e)
    requires |RunFrom(c, id, [], attempts)| + |c.write(e)| + 1 > 8 * 1024 * 1024
    ensures var file := RunFrom(c, id, [], attempts);
            var history := Read(c, id, file).events;
            var events := AfterEviction(history, e, k, missing);
            && Fewest(c, Body(history) + [e], k)
            && PreviouslyDropped(history).Some? && missing == SaturatingAdd(PreviouslyDropped(history).value, k)
            && (if (missing != 0 ==> |c.write(TruncationMarker(e, missing))| + 1 <= 16 * 1024) && c.Size(events) <= 8 * 1024 * 1024 then
                  && Append(c, id, file, e, NoFault) == Outcome(c.File(events), Ok(()))
                  && Append(c, id, file, e, Unsynced) == Outcome(c.File(events), Err(Io))
                  && Append(c, id, file, e, Torn(written)) == Outcome(file, Err(Io))
                  && Read(c, id, c.File(events)) == EventHistory(events, false)
                else
                  Append(c, id, file, e, NoFault) == Outcome(file, Err(TooLarge)))
  {
    hide RunFrom, Written, CheckEnds, ExceedsAll, Compact, Read, Shown, LogOk, AcceptedOk, Fewest, Codec.Valid;
    hide AfterEviction, Codec.File, Codec.Size, TruncationMarker;
    WelcomePasses(c, id, attempts, e);
    var file := RunFrom(c, id, [], attempts);
    var l := WholeRun(c, id, attempts);
    HistoryIsReadBack(c, id, file, l);
    HistoryFits(c, id, l, e);
    k, missing := CompactSays(c, Shown(l), e);
    if Compact(c, Shown(l), e).Ok? {
      AcceptedGrows(c, id, file, l, e);
      var m := Compacted(c, id, file, l, e);
      HistoryIsReadBack(c, id, Compact(c, Shown(l), e).value, m);
      ShownContents(c, id, l);
      assert Shown(m) == AfterEviction(Shown(l), e, k, missing);
    }
  }

  lemma WholeRun(c: Codec, id: string, attempts: seq<Attempt>) returns (l: Log)
    requires c.Valid() && EndsWhole(RunFrom(c, id, [], attempts))
    ensures Represents(c, id, RunFrom(c, id, [], attempts), l)
  {
    hide Shown, LogOk, RunFrom;
    var torn;
    l, torn := RunKeeps(c, id, attempts);
    if torn != [] {
      TornEnd(c.File(Shown(l)), torn);
    }
    assert c.File(Shown(l)) + [] == c.File(Shown(l));
  }

  lemma TornEnd(front: bytes, torn: bytes)
    requires torn != [] && IsLine(torn)
    ensures !EndsWhole(front + torn)
  {
    assert torn[|torn| - 1] in torn;
  }

  // ------------------------------------------------------------------------ whole runs

  // There is room for the event, behind the file or after a compaction.
  ghost predicate HasRoom(c: Codec, id: string, attempts: seq<Attempt>, e: OperationEvent) {
    var file := RunFrom(c, id, [], attempts);
    var history := Read(c, id, file).events;
    || |file| + |c.write(e)| + 1 <= 8 * 1024 * 1024
    || forall k: nat, missing: u64 ::
         Fewest(c, Body(history) + [e], k) && PreviouslyDropped(history).Some?
         && missing == SaturatingAdd(PreviouslyDropped(history).value, k) ==>
           && (missing != 0 ==> |c.write(TruncationMarker(e, missing))| + 1 <= 16 * 1024)
           && c.Size(AfterEviction(history, e, k, missing)) <= 8 * 1024 * 1024
  }

  lemma {:induction false} WrittenGrows(c: Codec, id: string, attempts: seq<Attempt>, i: nat)
    requires i <= |attempts|
    ensures Written(c, id, attempts[..i]) <= Written(c, id, attempts)
  {
    hide RunFrom, Append;
    if i < |attempts| {
      WrittenGrows(c, id, attempts[..|attempts| - 1], i);
      assert attempts[..|attempts| - 1][..i] == attempts[..i];
    } else {
      assert attempts[..i] == attempts;
    }
  }

  // In every run, an attempt that meets no fault, with an event that the history can take
  // and has room for, succeeds, and what was appended stays among the events written.
  lemma GoodAttemptsAreWritten(c: Codec, id: string, attempts: seq<Attempt>, i: nat)
    requires c.Valid() && i < |attempts| && attempts[i].fault.NoFault?
    requires Welcome(c, id, attempts[..i], attempts[i].event) && HasRoom(c, id, attempts[..i], attempts[i].event)
    ensures Append(c, id, RunFrom(c, id, [], attempts[..i]), attempts[i].event, NoFault).result == Ok(())
    ensures Written(c, id, attempts[..i + 1]) == Written(c, id, attempts[..i]) + [attempts[i].event]
    ensures attempts[i].event in Written(c, id, attempts)
  {
    hide RunFrom, Append, Welcome, Read, Fewest, Written;
    var before, e := attempts[..i], attempts[i].event;
    assert attempts[..i + 1][..i] == before;
    if |RunFrom(c, id, [], before)| + |c.write(e)| + 1 <= 8 * 1024 * 1024 {
      AppendInPlace(c, id, before, e, 0);
    } else {
      var k, missing := AppendWhenFull(c, id, before, e, 0);
    }
    WrittenNext(c, id, attempts[..i + 1]);
    WrittenGrows(c, id, attempts, i + 1);
    var written := Written(c, id, attempts[..i + 1]);
    assert written[|written| - 1] == e && Written(c, id, attempts)[|written| - 1] == e;
  }

  lemma WrittenNext(c: Codec, id: string, attempts: seq<Attempt>)
    requires attempts != []
    ensures var before, last := attempts[..|attempts| - 1], attempts[|attempts| - 1];
            Append(c, id, RunFrom(c, id, [], before), last.event, last.fault).result.Ok? ==>
              Written(c, id, attempts) == Written(c, id, before) + [last.event]
  {
    hide RunFrom, Append;
  }
}
