/** The event log a running worker keeps in memory (`EventLog`). */
module MemoryLog {
  import opened Wrappers
  import opened Decimal
  import opened Text
  import opened Events
  import opened Sanitizer

  const MAX_TECHNICAL_LINES := 10_000
  const MAX_TECHNICAL_BYTES := 4 * 1024 * 1024

  function TextBytes(events: seq<OperationEvent>): nat {
    if events == [] then 0
    else TextBytes(events[1..]) + if events[0].technical.Some? then ByteLength(events[0].technical.value.text) else 0
  }

  predicate WithinBudget(events: seq<OperationEvent>) {
    |Technicals(events)| <= MAX_TECHNICAL_LINES && TextBytes(events) <= MAX_TECHNICAL_BYTES
  }

  lemma {:induction false} TextBytesConcat(a: seq<OperationEvent>, b: seq<OperationEvent>)
    ensures TextBytes(a + b) == TextBytes(a) + TextBytes(b)
  {
    if a == [] {
      assert a + b == b;
    } else {
      assert (a + b)[1..] == a[1..] + b && (a + b)[0] == a[0];
      TextBytesConcat(a[1..], b);
    }
  }

  lemma {:induction false} NoTechnicalNoText(events: seq<OperationEvent>)
    requires Technicals(events) == []
    ensures TextBytes(events) == 0
  {
    if events != [] {
      NoTechnicalNoText(events[1..]);
    }
  }

  // Index of the oldest technical event
  function FirstTechnical(events: seq<OperationEvent>): (i: nat)
    requires Technicals(events) != []
    ensures i < |events| && events[i].technical.Some?
  {
    if events[0].technical.Some? then 0 else 1 + FirstTechnical(events[1..])
  }

  lemma {:induction false} RemoveFirstTechnical(events: seq<OperationEvent>)
    requires Technicals(events) != []
    ensures var i := FirstTechnical(events);
            && events[..i] + events[i + 1..] == DropTechnical(events, 1)
            && |Technicals(DropTechnical(events, 1))| == |Technicals(events)| - 1
            && TextBytes(DropTechnical(events, 1)) == TextBytes(events) - ByteLength(events[i].technical.value.text)
  {
    var i := FirstTechnical(events);
    var front, e, back := events[..i], events[i], events[i + 1..];
    FirstTechnicalIsFirst(events);
    assert events == front + ([e] + back);
    TextBytesConcat(front, [e] + back);
    TextBytesConcat(front, back);
    DropTechnicalKeeps(events, 1);
  }

  lemma {:induction false} FirstTechnicalIsFirst(events: seq<OperationEvent>)
    requires Technicals(events) != []
    ensures var i := FirstTechnical(events);
            events[..i] + events[i + 1..] == DropTechnical(events, 1)
  {
    var i, rest := FirstTechnical(events), events[1..];
    if events[0].technical.Some? {
      assert events[..0] + events[1..] == events[1..];
      assert DropTechnical(rest, 0) == rest;
    } else {
      FirstTechnicalIsFirst(rest);
      assert events[..i] == [events[0]] + rest[..i - 1];
      assert events[i + 1..] == rest[i..];
    }
  }

  // What trimming leaves: technical events go, oldest first, while a budget is exceeded.
  function Trimmed(events: seq<OperationEvent>): seq<OperationEvent>
    decreases |Technicals(events)|
  {
    if WithinBudget(events) || Technicals(events) == [] then events
    else
      RemoveFirstTechnical(events);
      Trimmed(DropTechnical(events, 1))
  }

  // Trimming drops the fewest oldest technical events that restore both budgets.
  lemma {:induction false} TrimmedDropsFewest(events: seq<OperationEvent>) returns (count: nat)
    ensures count <= |Technicals(events)|
    ensures Trimmed(events) == DropTechnical(events, count) && WithinBudget(Trimmed(events))
    ensures forall fewer: nat :: fewer < count ==> !WithinBudget(DropTechnical(events, fewer))
    decreases |Technicals(events)|
  {
    if WithinBudget(events) || Technicals(events) == [] {
      count := 0;
      if Technicals(events) == [] {
        NoTechnicalNoText(events);
      }
    } else {
      RemoveFirstTechnical(events);
      var next := DropTechnical(events, 1);
      var rest := TrimmedDropsFewest(next);
      count := rest + 1;
      DropTechnicalCompose(events, 1, rest);
      forall fewer: nat | fewer < count ensures !WithinBudget(DropTechnical(events, fewer)) {
        if fewer > 0 {
          DropTechnicalCompose(events, 1, fewer - 1);
        }
      }
    }
  }

  function HighMark(e: OperationEvent): u64 {
    if e.sequence == 0 then e.Field(HIGH_FIELD).GetOr(0) else e.sequence
  }

  function Max(a: u64, b: u64): u64 {
    if a >= b then a else b
  }

  // The highest sequence a restored history has used, evicted records included.
  function RestoredSequence(events: seq<OperationEvent>): u64 {
    if events == [] then 0
    else Max(RestoredSequence(events[..|events| - 1]), HighMark(events[|events| - 1]))
  }

  lemma RestoredNext(history: seq<OperationEvent>, i: nat)
    requires i < |history|
    ensures RestoredSequence(history[..i + 1]) == Max(RestoredSequence(history[..i]), HighMark(history[i]))
  {
    assert history[..i + 1][..i] == history[..i];
  }

  lemma NothingCounted()
    ensures Technicals([]) == [] && TextBytes([]) == 0 && RestoredSequence([]) == 0
  {}

  class EventLog {
    var events: seq<OperationEvent>
    var technicalLines: nat
    var technicalBytes: nat
    var lastSequence: u64
    var persistenceFailed: bool

    ghost predicate Counted()
      reads this
    {
      technicalLines == |Technicals(events)| && technicalBytes == TextBytes(events)
    }

    ghost predicate Valid()
      reads this
    {
      Counted() && WithinBudget(events)
    }

    constructor Restore(history: seq<OperationEvent>)
      ensures Valid() && !persistenceFailed
      ensures events == Trimmed(history) && lastSequence == RestoredSequence(history)
    {
      hide Technicals, TextBytes, RestoredSequence, ParseU64;
      events, technicalLines, technicalBytes, lastSequence, persistenceFailed := [], 0, 0, 0, false;
      new;
      NothingCounted();
      assert history[..0] == [];
      for i := 0 to |history|
        invariant Counted() && !persistenceFailed
        invariant events == history[..i] && lastSequence == RestoredSequence(history[..i])
      {
        var event := history[i];
        lastSequence := Max(lastSequence, event.sequence);
        if event.sequence == 0 {
          lastSequence := Max(lastSequence, event.Field(HIGH_FIELD).GetOr(0));
        }
        if event.technical.Some? {
          technicalLines := technicalLines + 1;
          technicalBytes := technicalBytes + ByteLength(event.technical.value.text);
        }
        CountNext(events, event);
        RestoredNext(history, i);
        events := events + [event];
        assert history[..i + 1] == history[..i] + [event];
      }
      assert history[..|history|] == history;
      TrimTechnical();
    }

    function NextSequence(): u64
      reads this
    {
      SaturatingAdd(lastSequence, 1)
    }

    method PushNormative(event: OperationEvent)
      requires Valid() && event.technical.None?
      modifies this
      ensures Valid() && events == old(events) + [event]
      ensures lastSequence == Max(old(lastSequence), event.sequence)
      ensures persistenceFailed == old(persistenceFailed)
    {
      CountNext(events, event);
      lastSequence := Max(lastSequence, event.sequence);
      events := events + [event];
    }

    // None when sanitizing the line panics, before anything is changed.
    method PushTechnical(event: OperationEvent, source: EventSource, raw: string) returns (pushed: Option<OperationEvent>)
      requires Valid()
      modifies this
      ensures Valid() && persistenceFailed == old(persistenceFailed)
      ensures pushed.None? <==> SanitizeTechnicalLine(raw).None?
      ensures pushed.None? ==> events == old(events) && lastSequence == old(lastSequence)
      ensures pushed.Some? ==>
        var line := SanitizeTechnicalLine(raw).value;
        && pushed.value == event.(technical := Some(TechnicalLine(source, line.text, line.truncated)))
        && events == Trimmed(old(events) + [pushed.value])
        && lastSequence == Max(old(lastSequence), event.sequence)
        && events != [] && events[|events| - 1] == pushed.value
    {
      hide SanitizeTechnicalLine;
      var sanitized := Sanitize(raw);
      if sanitized.None? {
        return None;
      }
      var line := sanitized.value;
      StoredLineIsBounded(raw);
      technicalLines := SaturatingAdd(technicalLines, 1);
      technicalBytes := SaturatingAdd(technicalBytes, ByteLength(line.text));
      var e := event.(technical := Some(TechnicalLine(source, line.text, line.truncated)));
      NewestSurvives(events, e);
      CountNext(events, e);
      lastSequence := Max(lastSequence, event.sequence);
      events := events + [e];
      TrimTechnical();
      pushed := Some(e);
    }

    method TrimTechnical()
      requires Counted()
      modifies this`events, this`technicalLines, this`technicalBytes
      ensures Valid() && events == Trimmed(old(events))
    {
      ghost var start := events;
      while technicalLines > MAX_TECHNICAL_LINES || technicalBytes > MAX_TECHNICAL_BYTES
        invariant Counted() && Trimmed(events) == Trimmed(start)
        decreases |Technicals(events)|
      {
        // The source resets both counters when no technical event is left; exact
        // counters never reach that branch.
        if Technicals(events) == [] {
          NoTechnicalNoText(events);
          assert false;
        }
        RemoveFirstTechnical(events);
        var i := FirstTechnical(events);
        var line := events[i].technical.value;
        events := events[..i] + events[i + 1..];
        technicalLines := SaturatingSub(technicalLines, 1);
        technicalBytes := SaturatingSub(technicalBytes, ByteLength(line.text));
      }
    }

    method After(sequence: u64) returns (r: seq<OperationEvent>)
      ensures r == NewerThan(events, sequence)
    {
      r := [];
      for i := 0 to |events|
        invariant r == NewerThan(events[..i], sequence)
      {
        assert events[..i + 1][..i] == events[..i];
        if events[i].sequence > sequence {
          r := r + [events[i]];
        }
      }
      assert events[..|events|] == events;
    }
  }

  function NewerThan(events: seq<OperationEvent>, sequence: u64): seq<OperationEvent> {
    if events == [] then []
    else
      var front, last := events[..|events| - 1], events[|events| - 1];
      NewerThan(front, sequence) + if last.sequence > sequence then [last] else []
  }

  lemma CountNext(events: seq<OperationEvent>, e: OperationEvent)
    ensures |Technicals(events + [e])| == |Technicals(events)| + if e.technical.Some? then 1 else 0
    ensures TextBytes(events + [e]) == TextBytes(events) + if e.technical.Some? then ByteLength(e.technical.value.text) else 0
  {
    TechnicalsConcat(events, [e]);
    TextBytesConcat(events, [e]);
  }

  // A line of at most 4096 bytes is never trimmed by its own push.
  lemma NewestSurvives(events: seq<OperationEvent>, e: OperationEvent)
    requires e.technical.Some? && ByteLength(e.technical.value.text) <= MAX_TECHNICAL_LINE_BYTES
    ensures var trimmed := Trimmed(events + [e]);
            trimmed != [] && trimmed[|trimmed| - 1] == e
  {
    var all, n := events + [e], |Technicals(events)|;
    var count := TrimmedDropsFewest(all);
    CountNext(events, e);
    if count > n {
      DropTechnicalConcat(events, [e], n);
      DropTechnicalKeeps(events, n);
      var left := DropTechnical(events, n);
      NoTechnicalNoText(left);
      CountNext(left, e);
      assert WithinBudget(DropTechnical(all, n));
    }
    DropTechnicalConcat(events, [e], count);
  }
}
