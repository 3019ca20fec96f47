/** Rewriting a full history: the oldest technical records are evicted (`compact`). */
module Compaction {
  import opened Wrappers
  import opened Decimal
  import opened Lines
  import opened Events

  const TARGET := MAX_PERSISTED_EVENT_BYTES / 2

  datatype AppendError = UnsafePath | TooLarge | Io | Json | InvalidHistory

  function Marker(incoming: OperationEvent, lines: u64): (m: OperationEvent)
    ensures m.IsMarker() && m.Field(LINES_FIELD) == Some(lines) && m.Field(HIGH_FIELD) == Some(incoming.sequence)
  {
    ParseOfDecimal(lines);
    ParseOfDecimal(incoming.sequence);
    incoming.(sequence := 0, level := Warning, messageId := TRUNCATED_MESSAGE, technical := None,
              fields := map[LINES_FIELD := ToDecimal(lines), HIGH_FIELD := ToDecimal(incoming.sequence)])
  }

  // How many technical records the retaining pass evicts when it starts with
  // `size` bytes: one after the other, while the size is above the target.
  function Evictions(c: Codec, events: seq<OperationEvent>, size: int): nat {
    if events == [] then 0
    else if size > TARGET && events[0].technical.Some? then
      1 + Evictions(c, events[1..], size - |c.Record(events[0])|)
    else
      Evictions(c, events[1..], size)
  }

  // The evicted records are the shortest prefix of the technical ones that brings
  // the size to the target, or all of them if that is impossible.
  lemma {:induction false} EvictionsIsLeast(c: Codec, events: seq<OperationEvent>, size: int)
    ensures var k := Evictions(c, events, size);
            && k <= |Technicals(events)|
            && (k == |Technicals(events)| || size - c.Size(Technicals(events)[..k]) <= TARGET)
            && (forall j :: 0 <= j < k ==> size - c.Size(Technicals(events)[..j]) > TARGET)
  {
    if events != [] {
      var rest := events[1..];
      if size > TARGET && events[0].technical.Some? {
        var first := [events[0]];
        var left := size - |c.Record(events[0])|;
        EvictionsIsLeast(c, rest, left);
        var k := Evictions(c, events, size);
        assert Technicals(events) == first + Technicals(rest);
        forall j | 0 < j <= |Technicals(events)|
          ensures c.Size(Technicals(events)[..j]) == |c.Record(events[0])| + c.Size(Technicals(rest)[..j - 1])
        {
          assert Technicals(events)[..j] == first + Technicals(rest)[..j - 1];
          SizeConcat(c, first, Technicals(rest)[..j - 1]);
        }
        forall j | 0 <= j < k ensures size - c.Size(Technicals(events)[..j]) > TARGET {
          if j == 0 {
            assert Technicals(events)[..0] == [];
          }
        }
      } else {
        EvictionsIsLeast(c, rest, size);
        assert events[0].technical.None? ==> Technicals(events) == Technicals(rest);
        if size <= TARGET {
          NothingToEvict(c, rest, size);
          assert Technicals(events)[..0] == [];
        }
      }
    }
  }

  lemma {:induction false} NothingToEvict(c: Codec, events: seq<OperationEvent>, size: int)
    requires size <= TARGET
    ensures Evictions(c, events, size) == 0
  {
    if events != [] {
      NothingToEvict(c, events[1..], size);
    }
  }

  predicate AllFit(c: Codec, events: seq<OperationEvent>) {
    forall e :: e in events ==> c.Fits(e)
  }

  // The records to rewrite: the history without its marker, then the new event.
  function Rewritten(events: seq<OperationEvent>, incoming: OperationEvent): seq<OperationEvent> {
    (if events != [] && events[0].sequence == 0 then events[1..] else events) + [incoming]
  }

  function PreviouslyDropped(events: seq<OperationEvent>): Option<u64> {
    if events != [] && events[0].sequence == 0 then events[0].Field(LINES_FIELD) else Some(0)
  }

  function MarkerFor(incoming: OperationEvent, dropped: u64): seq<OperationEvent> {
    if dropped == 0 then [] else [Marker(incoming, dropped)]
  }

  function Compact(c: Codec, events: seq<OperationEvent>, incoming: OperationEvent): (r: Result<bytes, AppendError>)
    ensures r.Ok? || r == Err(InvalidHistory) || r == Err(TooLarge)
  {
    var before := PreviouslyDropped(events);
    if before.None? then Err(InvalidHistory)
    else
      var records := Rewritten(events, incoming);
      var k := Evictions(c, records, c.Size(records));
      var marker := MarkerFor(incoming, SaturatingAdd(before.value, k));
      var output := c.File(marker + DropTechnical(records, k));
      if !AllFit(c, records) || !AllFit(c, marker) || |output| > MAX_PERSISTED_EVENT_BYTES then Err(TooLarge)
      else Ok(output)
  }

  // The retaining pass with its running size, which never underflows.
  method Retain(c: Codec, records: seq<OperationEvent>, before: u64)
    returns (kept: seq<OperationEvent>, dropped: u64)
    ensures kept == DropTechnical(records, Evictions(c, records, c.Size(records)))
    ensures dropped == SaturatingAdd(before, Evictions(c, records, c.Size(records)))
  {
    var size: nat := c.Size(records);
    kept, dropped := [], before;
    ghost var evicted := 0;
    var i := 0;
    assert records[0..] == records;
    while i < |records|
      invariant Retaining(c, records, i, size, kept, evicted)
      invariant dropped == SaturatingAdd(before, evicted)
    {
      var event := records[i];
      RetainNext(c, records, i, size, kept, evicted);
      if size > TARGET && event.technical.Some? {
        size := size - |c.Record(event)|;
        dropped := SaturatingAdd(dropped, 1);
        evicted := evicted + 1;
      } else {
        kept := kept + [event];
      }
      i := i + 1;
    }
    assert records[..i] == records;
  }

  // Before records[i] is looked at, `evicted` technical records are gone.
  ghost predicate Retaining(
    c: Codec, records: seq<OperationEvent>, i: nat, size: nat, kept: seq<OperationEvent>, evicted: nat)
  {
    && i <= |records|
    && kept == DropTechnical(records[..i], evicted)
    && evicted <= |Technicals(records[..i])|
    && (size > TARGET ==> evicted == |Technicals(records[..i])|)
    && size >= c.Size(records[i..])
    && evicted + Evictions(c, records[i..], size) == Evictions(c, records, c.Size(records))
  }

  lemma RetainNext(c: Codec, records: seq<OperationEvent>, i: nat, size: nat, kept: seq<OperationEvent>, evicted: nat)
    requires i < |records| && Retaining(c, records, i, size, kept, evicted)
    ensures var e := records[i];
      if size > TARGET && e.technical.Some? then
        && size >= |c.Record(e)|
        && Retaining(c, records, i + 1, size - |c.Record(e)|, kept, evicted + 1)
      else
        Retaining(c, records, i + 1, size, kept + [e], evicted)
  {
    var e, before, after := records[i], records[..i], records[i + 1..];
    assert records[i..] == [e] + after;
    SizeConcat(c, [e], after);
    SizeOne(c, e);
    assert records[..i + 1] == before + [e];
    TechnicalsConcat(before, [e]);
    if size > TARGET && e.technical.Some? {
      EvictNext(before, e);
    } else {
      DropTechnicalConcat(before, [e], evicted);
    }
  }

  lemma SizeOne(c: Codec, e: OperationEvent)
    ensures c.Size([e]) == |c.Record(e)| && c.File([e]) == c.Record(e)
  {
    FileAppend(c, [], e);
    assert [] + [e] == [e];
    assert c.File([]) == [];
  }

  lemma {:induction false} EvictNext(events: seq<OperationEvent>, e: OperationEvent)
    requires e.technical.Some?
    ensures DropTechnical(events + [e], |Technicals(events)| + 1) == DropTechnical(events, |Technicals(events)|)
  {
    if events == [] {
      assert events + [e] == [e];
    } else {
      assert (events + [e])[1..] == events[1..] + [e];
      EvictNext(events[1..], e);
      if Technicals(events) == [] {
        assert DropTechnical(events[1..], 0) == events[1..];
      }
    }
  }

  method CompactHistory(c: Codec, events: seq<OperationEvent>, incoming: OperationEvent)
    returns (result: Result<bytes, AppendError>)
    ensures result == Compact(c, events, incoming)
  {
    hide Codec.Size, Marker;
    var dropped: u64 := 0;
    var records := events;
    if events != [] && events[0].sequence == 0 {
      var parsed := events[0].Field(LINES_FIELD);
      if parsed.None? {
        return Err(InvalidHistory);
      }
      dropped := parsed.value;
      records := events[1..];
    }
    records := records + [incoming];
    ghost var before := dropped;
    for i := 0 to |records|
      invariant AllFit(c, records[..i])
    {
      if |c.Record(records[i])| > MAX_RECORD_BYTES {
        assert !c.Fits(records[i]);
        return Err(TooLarge);
      }
    }
    assert records[..|records|] == records;
    var kept;
    kept, dropped := Retain(c, records, dropped);
    var output: bytes := [];
    ghost var marker := MarkerFor(incoming, dropped);
    if dropped != 0 {
      var m := Marker(incoming, dropped);
      if |c.Record(m)| > MAX_RECORD_BYTES {
        assert !c.Fits(marker[0]);
        return Err(TooLarge);
      }
      output := c.Record(m);
      SizeOne(c, m);
    }
    output := Extend(c, output, marker, kept);
    if |output| > MAX_PERSISTED_EVENT_BYTES {
      return Err(TooLarge);
    }
    return Ok(output);
  }

  method Extend(c: Codec, start: bytes, ghost before: seq<OperationEvent>, events: seq<OperationEvent>)
    returns (output: bytes)
    requires start == c.File(before)
    ensures output == c.File(before + events)
  {
    output := start;
    assert before + events[..0] == before;
    for i := 0 to |events|
      invariant output == c.File(before + events[..i])
    {
      ExtendNext(c, before, events, i);
      output := output + c.Record(events[i]);
    }
    assert events[..|events|] == events;
  }

  lemma ExtendNext(c: Codec, before: seq<OperationEvent>, events: seq<OperationEvent>, i: nat)
    requires i < |events|
    ensures c.File(before + events[..i + 1]) == c.File(before + events[..i]) + c.Record(events[i])
  {
    FileAppend(c, before + events[..i], events[i]);
    assert before + events[..i + 1] == before + events[..i] + [events[i]];
  }
}
