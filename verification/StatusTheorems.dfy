/** Whatever fails below it, a running worker's status shows every state change exactly
    once and in order, invents nothing, and conceals no failed write. */
module StatusTheorems {
  import opened Wrappers
  import opened Decimal
  import opened Lines
  import opened Operation
  import opened Events
  import opened History
  import opened Compaction
  import opened EventFile
  import opened MemoryLog
  import opened RestoredHistory
  import opened Sanitizer
  import opened Observer
  import Orders

  // ------------------------------------------------------- events told by sequence

  ghost predicate SequencesIdentify(events: seq<OperationEvent>) {
    Orders.KeysIdentify(events, EventKey)
  }

  lemma KeyOfSequence(a: OperationEvent, b: OperationEvent)
    ensures Orders.KeyLe(EventKey(a), EventKey(b)) <==> a.sequence <= b.sequence
    ensures EventKey(a) == EventKey(b) <==> a.sequence == b.sequence
  {
    var x, y := EventKey(a), EventKey(b);
    assert x[0] == Orders.Number(a.sequence) && y[0] == Orders.Number(b.sequence);
    assert x[1..] == [] && y[1..] == [];
    assert Orders.FieldLess(y[0], x[0]) <==> b.sequence < a.sequence;
    assert Orders.LexLess(y, x, Orders.FieldLess) <==> Orders.FieldLess(y[0], x[0]);
  }

  lemma AscendingByKey(events: seq<OperationEvent>)
    ensures Orders.Ascending(events, EventKey) <==> Ascending(events)
  {
    forall i, j | 0 <= i < j < |events|
      ensures Orders.KeyLe(EventKey(events[i]), EventKey(events[j])) && EventKey(events[i]) != EventKey(events[j])
              <==> events[i].sequence < events[j].sequence
    {
      KeyOfSequence(events[i], events[j]);
    }
  }

  lemma {:induction false} DedupIsDedup(events: seq<OperationEvent>)
    requires SequencesIdentify(events)
    ensures DedupBySequence(events) == Orders.Dedup(events)
  {
    var n := |events|;
    if n > 0 {
      var front := events[..n - 1];
      DedupIsDedup(front);
      if n > 1 {
        KeyOfSequence(events[n - 2], events[n - 1]);
        assert front[n - 2] == events[n - 2] && events[n - 2] in events && events[n - 1] in events;
      }
    }
  }

  // The merge holds each event of either side once, in order of sequence.
  lemma MergedExactly(durable: seq<OperationEvent>, cached: seq<OperationEvent>)
    requires SequencesIdentify(durable + cached)
    ensures Ascending(Merged(durable, cached))
    ensures forall e :: e in Merged(durable, cached) <==> e in durable || e in cached
  {
    hide Orders.Ascending, Ascending, Orders.Sort, Orders.Dedup, DedupBySequence, Orders.SortedBy;
    var all := durable + cached;
    var sorted := Orders.Sort(all, EventKey);
    Orders.SortKeeps(all, EventKey);
    forall e
      ensures e in sorted <==> e in all
    {
      assert e in sorted <==> e in multiset(sorted);
      assert e in all <==> e in multiset(all);
    }
    DedupIsDedup(sorted);
    Orders.CanonicalKeeps(all, EventKey);
    AscendingByKey(Orders.Dedup(sorted));
  }

  lemma SameAscending(a: seq<OperationEvent>, b: seq<OperationEvent>)
    requires Ascending(a) && Ascending(b) && forall e :: e in a <==> e in b
    ensures a == b
  {
    hide Ascending, Orders.Ascending;
    AscendingByKey(a);
    AscendingByKey(b);
    Orders.AscendingIsUnique(a, b, EventKey);
  }

  // ----------------------------------------------------------------- order-keeping filters

  lemma AscendingFront(events: seq<OperationEvent>)
    requires events != [] && Ascending(events)
    ensures Ascending(events[..|events| - 1])
    ensures forall e :: e in events[..|events| - 1] ==> e.sequence < events[|events| - 1].sequence
  {}

  lemma {:induction false} NewerThanExactly(events: seq<OperationEvent>, after: u64)
    ensures forall e :: e in NewerThan(events, after) <==> e in events && e.sequence > after
    ensures Ascending(events) ==> Ascending(NewerThan(events, after))
  {
    if events != [] {
      var front, last := events[..|events| - 1], events[|events| - 1];
      assert events == front + [last];
      NewerThanExactly(front, after);
      if Ascending(events) {
        AscendingFront(events);
      }
    }
  }

  lemma {:induction false} SinceExactly(events: seq<OperationEvent>, after: u64)
    ensures forall e :: e in Since(events, after) <==> e in events && (e.sequence == 0 || e.sequence > after)
    ensures Ascending(events) ==> Ascending(Since(events, after))
  {
    if events != [] {
      var front, last := events[..|events| - 1], events[|events| - 1];
      assert events == front + [last];
      SinceExactly(front, after);
      if Ascending(events) {
        AscendingFront(events);
      }
    }
  }

  lemma {:induction false} NormativesExactly(events: seq<OperationEvent>)
    ensures forall e :: e in Normatives(events) <==> e in events && e.technical.None?
    ensures Ascending(events) ==> Ascending(Normatives(events))
  {
    if events != [] {
      var rest := events[1..];
      NormativesExactly(rest);
      if Ascending(events) {
        assert Ascending(rest) by {
          forall i, j | 0 <= i < j < |rest| ensures rest[i].sequence < rest[j].sequence {
            assert rest[i] == events[i + 1] && rest[j] == events[j + 1];
          }
        }
        forall e | e in Normatives(rest) ensures events[0].sequence < e.sequence {
          var i :| 0 <= i < |rest| && rest[i] == e;
          assert rest[i] == events[i + 1];
        }
      }
    }
  }

  // ---------------------------------------------------------------------- a whole run

  function After(c: Codec, id: string, s: Session, emissions: seq<Emission>): Session {
    if emissions == [] then s
    else Emit(c, id, After(c, id, s, emissions[..|emissions| - 1]), emissions[|emissions| - 1])
  }

  // What one emission tries to append.
  function Tries(id: string, s: Session, emission: Emission): seq<Attempt> {
    if s.poisoned || EventOf(id, s, emission).None? then []
    else [Attempt(EventOf(id, s, emission).value, emission.fault)]
  }

  function Tried(c: Codec, id: string, s: Session, emissions: seq<Emission>): seq<Attempt> {
    if emissions == [] then []
    else
      var before := emissions[..|emissions| - 1];
      Tried(c, id, s, before) + Tries(id, After(c, id, s, before), emissions[|emissions| - 1])
  }

  function EventsOf(attempts: seq<Attempt>): (r: seq<OperationEvent>)
    ensures |r| == |attempts| && forall i :: 0 <= i < |r| ==> r[i] == attempts[i].event
  {
    seq(|attempts|, i requires 0 <= i < |attempts| => attempts[i].event)
  }

  // All events of the operation: those written before this worker began, and those it
  // emitted, written or not.
  function Reported(c: Codec, id: string, earlier: seq<Attempt>, s: Session, emissions: seq<Emission>): seq<OperationEvent> {
    Written(c, id, earlier) + EventsOf(Tried(c, id, s, emissions))
  }

  // Some append of these, after the earlier ones, reported an error.
  predicate SomeFailed(c: Codec, id: string, earlier: seq<Attempt>, tried: seq<Attempt>) {
    exists k :: 0 <= k < |tried| && Refused(c, id, earlier + tried[..k], tried[k])
  }

  predicate Refused(c: Codec, id: string, before: seq<Attempt>, a: Attempt) {
    Append(c, id, RunFrom(c, id, [], before), a.event, a.fault).result.Err?
  }

  lemma SomeFailedNext(c: Codec, id: string, earlier: seq<Attempt>, tried: seq<Attempt>, a: Attempt)
    ensures SomeFailed(c, id, earlier, tried + [a]) <==> SomeFailed(c, id, earlier, tried) || Refused(c, id, earlier + tried, a)
  {
    hide Refused;
    var next, n := tried + [a], |tried|;
    assert next[..n] == tried;
    if k :| 0 <= k < |next| && Refused(c, id, earlier + next[..k], next[k]) {
      assert k == n || next[..k] == tried[..k];
    }
    if k :| 0 <= k < |tried| && Refused(c, id, earlier + tried[..k], tried[k]) {
      assert next[..k] == tried[..k] && next[k] == tried[k];
    }
    if Refused(c, id, earlier + tried, a) {
      assert next[n] == a;
    }
  }

  // How the file stands after one more attempt.
  lemma RunNext(c: Codec, id: string, before: seq<Attempt>, a: Attempt)
    ensures RunFrom(c, id, [], before + [a]) == Append(c, id, RunFrom(c, id, [], before), a.event, a.fault).file
    ensures Written(c, id, before + [a])
            == Written(c, id, before) + (if EventFile.Durable(c, id, RunFrom(c, id, [], before), a.event, a.fault) then [a.event] else [])
  {
    assert (before + [a])[..|before|] == before;
  }

  // The log in memory holds everything but some oldest technical lines.
  ghost predicate Remembers(log: seq<OperationEvent>, all: seq<OperationEvent>) {
    exists dropped: nat :: dropped <= |Technicals(all)| && log == DropTechnical(all, dropped)
  }

  lemma RemembersNext(log: seq<OperationEvent>, all: seq<OperationEvent>, e: OperationEvent)
    requires Remembers(log, all)
    ensures Remembers(log + [e], all + [e])
    ensures Remembers(Trimmed(log + [e]), all + [e])
  {
    var d: nat :| d <= |Technicals(all)| && log == DropTechnical(all, d);
    TechnicalsConcat(all, [e]);
    DropTechnicalConcat(all, [e], d);
    var k := TrimmedDropsFewest(log + [e]);
    DropTechnicalKeeps(all + [e], d);
    DropTechnicalCompose(all + [e], d, k);
    assert Trimmed(log + [e]) == DropTechnical(all + [e], d + k);
  }

  lemma RemembersAtFirst(history: seq<OperationEvent>)
    ensures Remembers(Trimmed(history), history)
  {
    var k := TrimmedDropsFewest(history);
  }

  // File, memory and flags after a run, in terms of what was tried.
  ghost predicate InStep(c: Codec, id: string, earlier: seq<Attempt>, first: Session, s: Session, tried: seq<Attempt>) {
    && s.file == RunFrom(c, id, [], earlier + tried)
    && s.last == first.last + |tried|
    && Remembers(s.events, Read(c, id, first.file).events + EventsOf(tried))
    && (forall i :: 0 <= i < |tried| ==> tried[i].event.sequence == first.last + 1 + i)
    && (s.failed <==> SomeFailed(c, id, earlier, tried))
    && (s.marked ==> s.failed)
  }

  lemma EventsOfNext(attempts: seq<Attempt>, a: Attempt)
    ensures EventsOf(attempts + [a]) == EventsOf(attempts) + [a.event]
  {}

  lemma OneMoreEmission(c: Codec, id: string, earlier: seq<Attempt>, first: Session, s: Session, tried: seq<Attempt>, emission: Emission)
    requires InStep(c, id, earlier, first, s, tried) && s.last < U64_MAX
    ensures InStep(c, id, earlier, first, Emit(c, id, s, emission), tried + Tries(id, s, emission))
  {
    hide Append, RunFrom, Read, Remembers, SomeFailed, Trimmed, SanitizeTechnicalLine, StateName, EventsOf;
    if Tries(id, s, emission) == [] {
      assert tried + [] == tried;
    } else {
      var a := Tries(id, s, emission)[0];
      RunNext(c, id, earlier + tried, a);
      assert earlier + (tried + [a]) == (earlier + tried) + [a];
      SomeFailedNext(c, id, earlier, tried, a);
      var all := Read(c, id, first.file).events + EventsOf(tried);
      RemembersNext(s.events, all, a.event);
      EventsOfNext(tried, a);
      assert Read(c, id, first.file).events + EventsOf(tried + [a]) == all + [a.event];
    }
  }

  lemma {:induction false} RunInStep(c: Codec, id: string, earlier: seq<Attempt>, first: Session, emissions: seq<Emission>)
    requires Begin(c, id, RunFrom(c, id, [], earlier), false, first.current) == Some(first)
    requires first.last + |emissions| <= U64_MAX
    ensures InStep(c, id, earlier, first, After(c, id, first, emissions), Tried(c, id, first, emissions))
    ensures |Tried(c, id, first, emissions)| <= |emissions|
  {
    hide RunFrom, Read, Remembers, Trimmed, RestoredSequence;
    if emissions == [] {
      assert earlier + [] == earlier;
      var history := Read(c, id, first.file).events;
      RemembersAtFirst(history);
      assert history + EventsOf([]) == history;
    } else {
      var before := emissions[..|emissions| - 1];
      hide Emit, InStep;
      RunInStep(c, id, earlier, first, before);
      assert After(c, id, first, before).last < U64_MAX by {
        LastInStep(c, id, earlier, first, After(c, id, first, before), Tried(c, id, first, before));
      }
      OneMoreEmission(c, id, earlier, first, After(c, id, first, before), Tried(c, id, first, before), emissions[|emissions| - 1]);
    }
  }

  lemma LastInStep(c: Codec, id: string, earlier: seq<Attempt>, first: Session, s: Session, tried: seq<Attempt>)
    requires InStep(c, id, earlier, first, s, tried)
    ensures s.last == first.last + |tried|
  {}

  // ------------------------------------------------------------- what was reported

  lemma {:induction false} WrittenInRun(c: Codec, id: string, earlier: seq<Attempt>, tried: seq<Attempt>)
    ensures forall e :: e in Written(c, id, earlier + tried) ==> e in Written(c, id, earlier) + EventsOf(tried)
    ensures !SomeFailed(c, id, earlier, tried) ==> Written(c, id, earlier + tried) == Written(c, id, earlier) + EventsOf(tried)
  {
    hide Written, SomeFailed, Append, RunFrom;
    if tried == [] {
      assert earlier + [] == earlier;
    } else {
      var front, a := tried[..|tried| - 1], tried[|tried| - 1];
      assert tried == front + [a] && earlier + tried == (earlier + front) + [a];
      WrittenInRun(c, id, earlier, front);
      RunNext(c, id, earlier + front, a);
      SomeFailedNext(c, id, earlier, front, a);
      assert EventsOf(tried) == EventsOf(front) + [a.event];
    }
  }

  // Without a failure the file stays whole.
  lemma {:induction false} CleanRun(c: Codec, id: string, earlier: seq<Attempt>, tried: seq<Attempt>) returns (l: Log)
    requires c.Valid() && !Read(c, id, RunFrom(c, id, [], earlier)).incomplete && !SomeFailed(c, id, earlier, tried)
    ensures Represents(c, id, RunFrom(c, id, [], earlier + tried), l)
  {
    hide SomeFailed, RunFrom, Append, EventFile.Shown, LogOk, Read;
    var torn;
    if tried == [] {
      assert earlier + [] == earlier;
      l, torn := RunKeeps(c, id, earlier);
      if torn != [] {
        ShownAccepted(c, id, c.File(EventFile.Shown(l)), l);
        TornFileKeepsItsPrefix(c, id, c.Lines(EventFile.Shown(l)), EventFile.Shown(l), torn);
      }
      assert c.File(EventFile.Shown(l)) + [] == c.File(EventFile.Shown(l));
    } else {
      var front, a := tried[..|tried| - 1], tried[|tried| - 1];
      assert tried == front + [a] && earlier + tried == (earlier + front) + [a];
      SomeFailedNext(c, id, earlier, front, a);
      l := CleanRun(c, id, earlier, front);
      RunNext(c, id, earlier + front, a);
      TornIsReported(c, id, RunFrom(c, id, [], earlier + front), a);
      l, torn := AppendKeeps(c, id, RunFrom(c, id, [], earlier + front), l, a.event, a.fault);
      assert c.File(EventFile.Shown(l)) + [] == c.File(EventFile.Shown(l));
    }
  }

  lemma TornIsReported(c: Codec, id: string, file: bytes, a: Attempt)
    ensures a.fault.Torn? ==> Append(c, id, file, a.event, a.fault).result.Err?
  {
    hide CheckEnds, Read, Compact;
  }

  // What was written before the worker began lies below what it numbers.
  lemma WrittenBefore(c: Codec, id: string, earlier: seq<Attempt>, first: Session)
    requires c.Valid() && Begin(c, id, RunFrom(c, id, [], earlier), false, first.current) == Some(first)
    ensures Ascending(Written(c, id, earlier))
    ensures forall e :: e in Written(c, id, earlier) ==> 0 < e.sequence <= first.last
  {
    hide Written, RunFrom, Read, RestoredSequence, EventFile.Shown, Increasing, Trimmed;
    var l := HistoryShows(c, id, earlier);
    RestoreContinuesTheSequence(c, id, earlier);
    IncreasingIsAscending(l.accepted);
  }

  // Everything reported is numbered upwards, whether it was written or not.
  lemma ReportedAscends(c: Codec, id: string, earlier: seq<Attempt>, first: Session, s: Session, tried: seq<Attempt>)
    requires c.Valid() && InStep(c, id, earlier, first, s, tried)
    requires Begin(c, id, RunFrom(c, id, [], earlier), false, first.current) == Some(first)
    ensures var all := Written(c, id, earlier) + EventsOf(tried);
            Ascending(all) && forall e :: e in all ==> e.sequence > 0
  {
    WrittenBefore(c, id, earlier, first);
    hide Begin;
    NumberedOn(c, id, earlier, first, s, tried);
    NumbersAscend(Written(c, id, earlier), EventsOf(tried), first.last);
  }

  lemma NumberedOn(c: Codec, id: string, earlier: seq<Attempt>, first: Session, s: Session, tried: seq<Attempt>)
    requires InStep(c, id, earlier, first, s, tried)
    ensures forall i :: 0 <= i < |EventsOf(tried)| ==> EventsOf(tried)[i].sequence == first.last + 1 + i
  {}

  lemma NumbersAscend(before: seq<OperationEvent>, more: seq<OperationEvent>, last: u64)
    requires Ascending(before) && forall e :: e in before ==> 0 < e.sequence <= last
    requires forall i :: 0 <= i < |more| ==> more[i].sequence == last + 1 + i
    ensures Ascending(before + more) && forall e :: e in before + more ==> e.sequence > 0
  {
    var all := before + more;
    forall i | 0 <= i < |all|
      ensures if i < |before| then 0 < all[i].sequence <= last else all[i].sequence == last + 1 + i - |before|
    {
      if i < |before| {
        assert all[i] in before;
      }
    }
    forall i, j | 0 <= i < j < |all|
      ensures all[i].sequence < all[j].sequence
    {
      if j < |before| {
        assert all[i] == before[i] && all[j] == before[j];
      }
    }
  }

  // ------------------------------------------------------------- what each side holds

  // The durable side: at most a marker, and events that were reported.
  lemma DurableSide(c: Codec, id: string, attempts: seq<Attempt>)
    requires c.Valid()
    ensures var events := Read(c, id, RunFrom(c, id, [], attempts)).events;
            && Ascending(events)
            && (forall e :: e in events && e.sequence > 0 ==> e in Written(c, id, attempts))
            && (forall e :: e in Written(c, id, attempts) && e.technical.None? ==> e in events)
            && (forall e :: e in events && e.sequence == 0 ==> e.technical.None?)
  {
    hide RunFrom, Read, Written, Kept, Increasing;
    var l := HistoryShows(c, id, attempts);
    KeptOk(c, id, l);
    IncreasingIsAscending(Kept(l));
    ShownContents(c, id, l);
    NormativesExactly(Kept(l));
    NormativesExactly(l.accepted);
    DropTechnicalMembers(l.accepted, l.dropped);
    assert Kept(l) == DropTechnical(l.accepted, l.dropped) by {
      KeptIs(l);
    }
  }

  lemma KeptIs(l: Log)
    ensures Kept(l) == DropTechnical(l.accepted, l.dropped)
  {}

  // The side in memory: events of the restored history and of this run, state changes all.
  lemma CachedSide(log: seq<OperationEvent>, history: seq<OperationEvent>, emitted: seq<OperationEvent>)
    requires Remembers(log, history + emitted)
    ensures forall e :: e in log ==> e in history || e in emitted
    ensures forall e :: (e in history || e in emitted) && e.technical.None? ==> e in log
  {
    hide Technicals, Normatives, DropTechnical;
    var all := history + emitted;
    var d: nat :| d <= |Technicals(all)| && log == DropTechnical(all, d);
    DropTechnicalMembers(all, d);
    DropTechnicalKeeps(all, d);
    NormativesExactly(all);
    NormativesExactly(log);
  }

  // Any two collections of reported events with all state changes among them, merged.
  lemma MergedShows(durable: seq<OperationEvent>, cached: seq<OperationEvent>, all: seq<OperationEvent>, after: u64)
    requires Ascending(all) && (forall e :: e in all ==> e.sequence > 0)
    requires Ascending(durable) && forall e :: e in durable && e.sequence > 0 ==> e in all && e.sequence > after
    requires forall e :: e in cached ==> e in all && e.sequence > after
    ensures var numbered := NewerThan(Merged(durable, cached), 0);
            && Ascending(numbered)
            && (forall e :: e in numbered <==> e.sequence > 0 && (e in durable || e in cached))
  {
    hide Merged, Ascending;
    forall x, y | x in durable + cached && y in durable + cached && EventKey(x) == EventKey(y)
      ensures x == y
    {
      KeyOfSequence(x, y);
      if x.sequence == 0 {
        assert x in durable && y in durable;
        OneBySequence(durable, x, y);
      } else {
        OneBySequence(all, x, y);
      }
    }
    MergedExactly(durable, cached);
    NewerThanExactly(Merged(durable, cached), 0);
  }

  lemma OneBySequence(events: seq<OperationEvent>, x: OperationEvent, y: OperationEvent)
    requires Ascending(events) && x in events && y in events && x.sequence == y.sequence
    ensures x == y
  {
    var i :| 0 <= i < |events| && events[i] == x;
    var j :| 0 <= j < |events| && events[j] == y;
  }

  // Ascending events among the reported ones that hold all state changes after `after`
  // hold them in order.
  lemma SameStateChanges(shown: seq<OperationEvent>, all: seq<OperationEvent>, after: u64)
    requires Ascending(shown) && Ascending(all)
    requires forall e :: e in shown ==> e in all && e.sequence > after
    requires forall e :: e in all && e.sequence > after && e.technical.None? ==> e in shown
    ensures Normatives(shown) == Normatives(NewerThan(all, after))
  {
    hide Ascending, Normatives, NewerThan;
    NormativesExactly(shown);
    NewerThanExactly(all, after);
    NormativesExactly(NewerThan(all, after));
    SameAscending(Normatives(shown), Normatives(NewerThan(all, after)));
  }

  // ------------------------------------------------------------------ the main results

  ghost predicate Begins(c: Codec, id: string, earlier: seq<Attempt>, first: Session, emissions: seq<Emission>) {
    && c.Valid()
    && Begin(c, id, RunFrom(c, id, [], earlier), false, first.current) == Some(first)
    && first.last + |emissions| <= U64_MAX
  }

  lemma DisplayedShows(c: Codec, id: string, earlier: seq<Attempt>, first: Session, emissions: seq<Emission>,
                       after: u64, readable: bool)
    requires Begins(c, id, earlier, first, emissions)
    ensures var s := After(c, id, first, emissions);
            var all := Reported(c, id, earlier, first, emissions);
            var numbered := NewerThan(Displayed(c, id, s, after, readable).events, 0);
            && Ascending(all) && Ascending(numbered)
            && (forall e :: e in numbered ==> e in all && e.sequence > after)
            && (!s.poisoned ==> forall e :: e in all && e.sequence > after && e.technical.None? ==> e in numbered)
  {
    hide After, Tried, Read, RunFrom, Written, Ascending, Since, NewerThan, Merged, SomeFailed, Remembers, Trimmed, RestoredSequence, EventsOf;
    var s, tried := After(c, id, first, emissions), Tried(c, id, first, emissions);
    RunInStep(c, id, earlier, first, emissions);
    ReportedAscends(c, id, earlier, first, s, tried);
    WrittenInRun(c, id, earlier, tried);
    DurableSide(c, id, earlier);
    DurableSide(c, id, earlier + tried);
    var all := Reported(c, id, earlier, first, emissions);
    CachedSide(s.events, Read(c, id, first.file).events, EventsOf(tried));
    var history := Read(c, id, s.file);
    SinceExactly(history.events, after);
    NewerThanExactly(s.events, after);
    var durable := Persisted(c, id, s, after, readable).events;
    NewerThanExactly(durable, 0);
    NothingAscends();
    MergedShows(durable, NewerThan(s.events, after), all, after);
  }

  // The sanitizer panics on the line of this emission.
  predicate Panics(emission: Emission) {
    emission.CommandLine? && SanitizeTechnicalLine(emission.program + ": " + emission.line).None?
  }

  lemma PoisonedNext(c: Codec, id: string, s: Session, emission: Emission)
    ensures Emit(c, id, s, emission).poisoned <==> s.poisoned || Panics(emission)
    ensures !Emit(c, id, s, emission).poisoned ==> |Tries(id, s, emission)| == 1
  {
    hide Append, Trimmed, SanitizeTechnicalLine;
  }

  // The log is lost exactly to a line that makes the sanitizer panic; without one every
  // emission is reported.
  lemma {:induction false} PoisonedExactly(c: Codec, id: string, first: Session, emissions: seq<Emission>)
    requires !first.poisoned
    ensures After(c, id, first, emissions).poisoned <==> exists e :: e in emissions && Panics(e)
    ensures !After(c, id, first, emissions).poisoned ==> |Tried(c, id, first, emissions)| == |emissions|
  {
    hide Emit, Tries, Panics;
    if emissions != [] {
      var before, last := emissions[..|emissions| - 1], emissions[|emissions| - 1];
      assert emissions == before + [last];
      PoisonedExactly(c, id, first, before);
      PoisonedNext(c, id, After(c, id, first, before), last);
    }
  }

  // After such a line nothing the worker does is recorded any more.
  lemma {:induction false} PanicSilencesTheWorker(c: Codec, id: string, first: Session, emissions: seq<Emission>, more: seq<Emission>)
    requires !first.poisoned && exists e :: e in emissions && Panics(e)
    ensures var s, later := After(c, id, first, emissions), After(c, id, first, emissions + more);
            later.poisoned && later.file == s.file && later.events == s.events
    ensures Tried(c, id, first, emissions + more) == Tried(c, id, first, emissions)
  {
    hide Append, Trimmed, Panics;
    PoisonedExactly(c, id, first, emissions);
    if more == [] {
      assert emissions + more == emissions;
    } else {
      var before := more[..|more| - 1];
      assert (emissions + more)[..|emissions + more| - 1] == emissions + before;
      PanicSilencesTheWorker(c, id, first, emissions, before);
    }
  }

  // What is recorded is exactly what came before the first such line.
  lemma TriedBeforeThePanic(c: Codec, id: string, first: Session, emissions: seq<Emission>, k: nat)
    requires !first.poisoned && k < |emissions| && Panics(emissions[k]) && forall i :: 0 <= i < k ==> !Panics(emissions[i])
    ensures Tried(c, id, first, emissions) == Tried(c, id, first, emissions[..k]) && |Tried(c, id, first, emissions)| == k
  {
    hide Emit, Tries, Panics;
    var before, upTo := emissions[..k], emissions[..k + 1];
    PoisonedExactly(c, id, first, before);
    assert upTo[..|upTo| - 1] == before && upTo[k] == emissions[k];
    PanicTriesNothing(id, After(c, id, first, before), emissions[k]);
    assert upTo + emissions[k + 1..] == emissions;
    PanicSilencesTheWorker(c, id, first, upTo, emissions[k + 1..]);
  }

  lemma PanicTriesNothing(id: string, s: Session, emission: Emission)
    requires Panics(emission)
    ensures Tries(id, s, emission) == []
  {
    hide SanitizeTechnicalLine;
  }

  lemma NothingAscends()
    ensures Ascending([])
  {}

  // What a client is told is numbered upwards, was reported, and holds every state
  // change after the sequence it asks for, exactly once and in order, whichever appends
  // failed and even if the file cannot be opened; unless a line made the sanitizer panic.
  lemma StatusShowsEveryStateChange(c: Codec, id: string, earlier: seq<Attempt>, first: Session, emissions: seq<Emission>,
                                    after: u64, readable: bool, at: string, state: OperationState)
    requires Begins(c, id, earlier, first, emissions)
    ensures var s := After(c, id, first, emissions);
            var all := Reported(c, id, earlier, first, emissions);
            var numbered := NewerThan(StatusReport(c, id, s, after, readable, at, state).events, 0);
            && Ascending(numbered)
            && (forall e :: e in numbered ==> e in all && e.sequence > after)
            && ((forall e :: e in emissions ==> !Panics(e)) ==>
                  && |all| == |Written(c, id, earlier)| + |emissions|
                  && Normatives(numbered) == Normatives(NewerThan(all, after)))
  {
    hide After, Tried, Written, Ascending, Displayed, Normatives, Panics;
    var s := After(c, id, first, emissions);
    PoisonedExactly(c, id, first, emissions);
    DisplayedShows(c, id, earlier, first, emissions, after, readable);
    var displayed := Displayed(c, id, s, after, readable).events;
    var told := StatusReport(c, id, s, after, readable, at, state).events;
    if told != displayed {
      assert told[..|displayed|] == displayed;
    }
    assert NewerThan(told, 0) == NewerThan(displayed, 0);
    if !s.poisoned {
      SameStateChanges(NewerThan(told, 0), Reported(c, id, earlier, first, emissions), after);
    }
  }

  // An error is reported exactly when the history could not be opened, a line made the
  // sanitizer panic, or some append failed; without one the file holds all that was reported.
  lemma NoFailureIsConcealed(c: Codec, id: string, earlier: seq<Attempt>, first: Session, emissions: seq<Emission>,
                             after: u64, readable: bool, at: string, state: OperationState)
    requires Begins(c, id, earlier, first, emissions)
    ensures var s := After(c, id, first, emissions);
            var tried := Tried(c, id, first, emissions);
            var report := StatusReport(c, id, s, after, readable, at, state);
            && (report.error.None? <==>
                  readable && (forall e :: e in emissions ==> !Panics(e)) && !SomeFailed(c, id, earlier, tried))
            && (report.error.None? ==> Written(c, id, earlier + tried) == Reported(c, id, earlier, first, emissions))
  {
    hide After, Tried, Read, RunFrom, Written, Since, NewerThan, Merged, SomeFailed, Remembers, Trimmed, RestoredSequence, EventsOf, Panics;
    var s, tried := After(c, id, first, emissions), Tried(c, id, first, emissions);
    PoisonedExactly(c, id, first, emissions);
    RunInStep(c, id, earlier, first, emissions);
    WrittenInRun(c, id, earlier, tried);
    if !SomeFailed(c, id, earlier, tried) {
      var l := CleanRun(c, id, earlier, tried);
      HistoryIsReadBack(c, id, s.file, l);
    }
  }

  // After a line that made the sanitizer panic, the state changes shown are those that
  // reached the file: a change whose append failed is gone with the log in memory.
  lemma PanicLeavesTheWritten(c: Codec, id: string, earlier: seq<Attempt>, first: Session, emissions: seq<Emission>,
                              after: u64, at: string, state: OperationState)
    requires Begins(c, id, earlier, first, emissions) && exists e :: e in emissions && Panics(e)
    ensures var s, tried := After(c, id, first, emissions), Tried(c, id, first, emissions);
            Normatives(NewerThan(StatusReport(c, id, s, after, true, at, state).events, 0))
            == Normatives(NewerThan(Written(c, id, earlier + tried), after))
  {
    hide After, Tried, Read, RunFrom, Written, Ascending, Since, NewerThan, Merged, SomeFailed, Remembers, Trimmed, RestoredSequence, Panics, Normatives;
    var s, tried := After(c, id, first, emissions), Tried(c, id, first, emissions);
    PoisonedExactly(c, id, first, emissions);
    RunInStep(c, id, earlier, first, emissions);
    var written := Written(c, id, earlier + tried);
    DurableSide(c, id, earlier + tried);
    WrittenAscends(c, id, earlier + tried);
    var events := Read(c, id, s.file).events;
    var shown := Since(events, after);
    SinceExactly(events, after);
    NewerThanExactly(shown, 0);
    OneMoreUnnumbered(shown, Diagnostic(id, at, state, ReadFailed));
    SameStateChanges(NewerThan(shown, 0), written, after);
  }

  lemma OneMoreUnnumbered(events: seq<OperationEvent>, e: OperationEvent)
    requires e.sequence == 0
    ensures NewerThan(events + [e], 0) == NewerThan(events, 0)
  {
    assert (events + [e])[..|events|] == events;
  }

  lemma WrittenAscends(c: Codec, id: string, attempts: seq<Attempt>)
    requires c.Valid()
    ensures Ascending(Written(c, id, attempts)) && forall e :: e in Written(c, id, attempts) ==> e.sequence > 0
  {
    hide Written, RunFrom, Read, EventFile.Shown, Increasing;
    var l := HistoryShows(c, id, attempts);
    IncreasingIsAscending(l.accepted);
  }
}
