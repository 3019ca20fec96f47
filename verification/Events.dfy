/** Operation events, the codec that writes them, and the eviction of technical lines. */
module Events {
  import opened Wrappers
  import opened Decimal
  import opened Lines
  import opened Operation

  const MAX_RECORD_BYTES := 16 * 1024
  const MAX_PERSISTED_EVENT_BYTES := 8 * 1024 * 1024
  const MAX_LEGACY_BYTES := MAX_PERSISTED_EVENT_BYTES + MAX_RECORD_BYTES
  const TRUNCATED_MESSAGE := "history-truncated"
  const LINES_FIELD := "lines"
  const HIGH_FIELD := "high_sequence"

  datatype EventLevel = Info | Warning | Error
  datatype EventSource = Service | ZypperStdout | ZypperStderr
  datatype TechnicalLine = TechnicalLine(source: EventSource, text: string, truncated: bool)

  datatype OperationEvent = OperationEvent(
    operationId: string, sequence: u64, occurredAt: string, state: OperationState,
    level: EventLevel, messageId: string, fields: map<string, string>,
    technical: Option<TechnicalLine>)
  {
    function Field(name: string): Option<u64> {
      if name in fields then ParseU64(fields[name]) else None
    }

    // The reserved sequence-0 record left by a compaction.
    predicate IsMarker() {
      && sequence == 0
      && messageId == TRUNCATED_MESSAGE
      && technical.None?
      && Field(LINES_FIELD).Some?
      && Field(HIGH_FIELD).Some?
    }
  }

  // JSON is not modelled. What the history needs of it: reading undoes writing,
  // with or without the record's newline, and a written event holds no raw newline.
  datatype Codec = Codec(write: OperationEvent -> bytes, read: bytes -> Option<OperationEvent>) {
    ghost predicate Valid() {
      forall e: OperationEvent ::
        && IsLine(write(e))
        && read(write(e)) == Some(e)
        && read(write(e) + [NEWLINE]) == Some(e)
    }

    predicate Fits(e: OperationEvent) {
      |write(e)| + 1 <= MAX_RECORD_BYTES
    }

    function Record(e: OperationEvent): (r: bytes)
      ensures r != []
    {
      write(e) + [NEWLINE]
    }

    function Lines(events: seq<OperationEvent>): (r: seq<bytes>)
      ensures |r| == |events|
      ensures forall i :: 0 <= i < |r| ==> r[i] == write(events[i])
    {
      seq(|events|, i requires 0 <= i < |events| => write(events[i]))
    }

    function File(events: seq<OperationEvent>): bytes {
      Join(Lines(events))
    }

    // Sum of the record lengths.
    function Size(events: seq<OperationEvent>): nat {
      if events == [] then 0 else Size(events[..|events| - 1]) + |Record(events[|events| - 1])|
    }
  }

  // Sequences increase from each event to the next.
  predicate Increasing(events: seq<OperationEvent>) {
    var n := |events|;
    n <= 1 || (events[n - 2].sequence < events[n - 1].sequence && Increasing(events[..n - 1]))
  }

  ghost predicate Ascending(events: seq<OperationEvent>) {
    forall i, j :: 0 <= i < j < |events| ==> events[i].sequence < events[j].sequence
  }

  lemma {:induction false} IncreasingIsAscending(events: seq<OperationEvent>)
    ensures Increasing(events) <==> Ascending(events)
  {
    var n := |events|;
    if n > 1 {
      var front := events[..n - 1];
      IncreasingIsAscending(front);
      assert front[n - 2] == events[n - 2];
      if Ascending(events) {
        assert Ascending(front);
      }
      if Increasing(events) {
        forall i, j | 0 <= i < j < n ensures events[i].sequence < events[j].sequence {
          assert events[i] == front[i];
          if j < n - 1 {
            assert events[j] == front[j];
          }
        }
      }
    }
  }

  // ------------------------------------------------- technical and normative events

  function Technicals(events: seq<OperationEvent>): (r: seq<OperationEvent>)
    ensures |r| <= |events|
  {
    if events == [] then []
    else if events[0].technical.Some? then [events[0]] + Technicals(events[1..])
    else Technicals(events[1..])
  }

  function Normatives(events: seq<OperationEvent>): seq<OperationEvent> {
    if events == [] then []
    else if events[0].technical.None? then [events[0]] + Normatives(events[1..])
    else Normatives(events[1..])
  }

  // The events without their oldest `count` technical ones.
  function DropTechnical(events: seq<OperationEvent>, count: nat): seq<OperationEvent> {
    if events == [] || count == 0 then events
    else if events[0].technical.Some? then DropTechnical(events[1..], count - 1)
    else [events[0]] + DropTechnical(events[1..], count)
  }

  lemma {:induction false} TechnicalsConcat(a: seq<OperationEvent>, b: seq<OperationEvent>)
    ensures Technicals(a + b) == Technicals(a) + Technicals(b)
  {
    if a == [] {
      assert a + b == b;
    } else {
      assert (a + b)[1..] == a[1..] + b && (a + b)[0] == a[0];
      TechnicalsConcat(a[1..], b);
    }
  }

  lemma {:induction false} NormativesConcat(a: seq<OperationEvent>, b: seq<OperationEvent>)
    ensures Normatives(a + b) == Normatives(a) + Normatives(b)
  {
    if a == [] {
      assert a + b == b;
    } else {
      assert (a + b)[1..] == a[1..] + b && (a + b)[0] == a[0];
      NormativesConcat(a[1..], b);
    }
  }

  // Eviction keeps every state change in order, and keeps the newest technical lines.
  lemma {:induction false} DropTechnicalKeeps(events: seq<OperationEvent>, count: nat)
    requires count <= |Technicals(events)|
    ensures Normatives(DropTechnical(events, count)) == Normatives(events)
    ensures Technicals(DropTechnical(events, count)) == Technicals(events)[count..]
  {
    if events != [] && count != 0 {
      var e, rest := events[0], events[1..];
      if e.technical.Some? {
        DropTechnicalKeeps(rest, count - 1);
        assert Technicals(events)[count..] == Technicals(rest)[count - 1..];
      } else {
        DropTechnicalKeeps(rest, count);
        var dropped := DropTechnical(events, count);
        assert dropped[0] == e && dropped[1..] == DropTechnical(rest, count);
      }
    }
  }

  lemma {:induction false} DropTechnicalCompose(events: seq<OperationEvent>, a: nat, b: nat)
    ensures DropTechnical(DropTechnical(events, a), b) == DropTechnical(events, a + b)
  {
    if events != [] && a != 0 {
      var rest := events[1..];
      if events[0].technical.Some? {
        DropTechnicalCompose(rest, a - 1, b);
      } else {
        DropTechnicalCompose(rest, a, b);
        var left := DropTechnical(events, a);
        assert left[1..] == DropTechnical(rest, a);
      }
    }
  }

  lemma {:induction false} DropTechnicalConcat(a: seq<OperationEvent>, b: seq<OperationEvent>, count: nat)
    requires count <= |Technicals(a)|
    ensures DropTechnical(a + b, count) == DropTechnical(a, count) + b
  {
    if a == [] {
      assert a + b == b;
    } else if count != 0 {
      assert (a + b)[1..] == a[1..] + b;
      DropTechnicalConcat(a[1..], b, if a[0].technical.Some? then count - 1 else count);
    }
  }

  // What survives was there before, in the same order.
  lemma {:induction false} DropTechnicalMembers(events: seq<OperationEvent>, count: nat)
    ensures forall e :: e in DropTechnical(events, count) ==> e in events
  {
    if events != [] && count != 0 {
      DropTechnicalMembers(events[1..], if events[0].technical.Some? then count - 1 else count);
    }
  }

  lemma {:induction false} DropTechnicalAscending(events: seq<OperationEvent>, count: nat)
    requires Ascending(events)
    ensures Ascending(DropTechnical(events, count))
  {
    if events != [] && count != 0 {
      var rest := events[1..];
      assert Ascending(rest) by {
        forall i, j | 0 <= i < j < |rest| ensures rest[i].sequence < rest[j].sequence {
          assert rest[i] == events[i + 1] && rest[j] == events[j + 1];
        }
      }
      DropTechnicalAscending(rest, if events[0].technical.Some? then count - 1 else count);
      if events[0].technical.None? {
        var tail := DropTechnical(rest, count);
        DropTechnicalMembers(rest, count);
        forall j | 0 <= j < |tail| ensures events[0].sequence < tail[j].sequence {
          assert tail[j] in rest;
          var k :| 0 <= k < |rest| && rest[k] == tail[j];
          assert rest[k] == events[k + 1];
        }
      }
    }
  }

  lemma {:induction false} DropTechnicalLength(events: seq<OperationEvent>, count: nat)
    requires count <= |Technicals(events)|
    ensures |DropTechnical(events, count)| == |events| - count
  {
    if events != [] && count != 0 {
      DropTechnicalLength(events[1..], if events[0].technical.Some? then count - 1 else count);
    }
  }

  // --------------------------------------------------------------------- file sizes

  lemma {:induction false} FileSize(c: Codec, events: seq<OperationEvent>)
    ensures |c.File(events)| == c.Size(events)
  {
    if events != [] {
      var front, last := events[..|events| - 1], events[|events| - 1];
      FileSize(c, front);
      FileAppend(c, front, last);
      assert front + [last] == events;
    }
  }

  lemma FileAppend(c: Codec, events: seq<OperationEvent>, e: OperationEvent)
    ensures c.File(events + [e]) == c.File(events) + c.Record(e)
    ensures c.Size(events + [e]) == c.Size(events) + |c.Record(e)|
  {
    assert c.Lines(events + [e]) == c.Lines(events) + [c.write(e)];
    JoinSnoc(c.Lines(events), c.write(e));
    assert (events + [e])[..|events|] == events;
    assert c.File(events) + c.write(e) + [NEWLINE] == c.File(events) + c.Record(e);
  }

  lemma {:induction false} SizeConcat(c: Codec, a: seq<OperationEvent>, b: seq<OperationEvent>)
    ensures c.Size(a + b) == c.Size(a) + c.Size(b)
  {
    if b == [] {
      assert a + b == a;
    } else {
      var front, last := b[..|b| - 1], b[|b| - 1];
      SizeConcat(c, a, front);
      assert a + b == (a + front) + [last];
      FileAppend(c, a + front, last);
    }
  }

  lemma {:induction false} DropTechnicalSize(c: Codec, events: seq<OperationEvent>, count: nat)
    requires count <= |Technicals(events)|
    ensures c.Size(DropTechnical(events, count)) == c.Size(events) - c.Size(Technicals(events)[..count])
  {
    if events == [] || count == 0 {
      assert Technicals(events)[..count] == [];
    } else {
      var head, rest := [events[0]], events[1..];
      assert events == head + rest;
      SizeConcat(c, head, rest);
      if events[0].technical.Some? {
        DropTechnicalSize(c, rest, count - 1);
        assert Technicals(events)[..count] == head + Technicals(rest)[..count - 1];
        SizeConcat(c, head, Technicals(rest)[..count - 1]);
      } else {
        DropTechnicalSize(c, rest, count);
        SizeConcat(c, head, DropTechnical(rest, count));
        assert Technicals(events) == Technicals(rest);
      }
    }
  }
}
