/** A worker restarting from the persisted history: the two logs agree. */
module RestoredHistory {
  import opened Wrappers
  import opened Decimal
  import opened Events
  import opened History
  import opened Compaction
  import opened EventFile
  import opened MemoryLog

  lemma {:induction false} RestoredIsHighest(events: seq<OperationEvent>, high: u64)
    requires forall e :: e in events ==> HighMark(e) <= high
    ensures RestoredSequence(events) <= high
    ensures (exists e :: e in events && HighMark(e) == high) ==> RestoredSequence(events) == high
  {
    if events != [] {
      RestoredIsHighest(events[..|events| - 1], high);
    }
  }

  lemma NothingShown(l: Log)
    requires l.accepted == []
    ensures Shown(l) == []
  {}

  lemma ShownHighest(c: Events.Codec, id: string, l: Log)
    requires LogOk(c, id, l)
    ensures RestoredSequence(Shown(l)) == if l.accepted == [] then 0 else l.accepted[|l.accepted| - 1].sequence
  {
    hide Kept;
    if l.accepted == [] {
      NothingShown(l);
    } else {
      var last := l.accepted[|l.accepted| - 1];
      KeptIsBelow(c, id, l);
      KeptOk(c, id, l);
      IncreasingIsAscending(l.accepted);
      forall e | e in Shown(l) ensures HighMark(e) <= last.sequence {
        if e !in Kept(l) {
          assert e == LogMarker(l)[0];
        }
      }
      if l.dropped == 0 || l.mark < |l.accepted| - 1 {
        LastKept(c, id, l);
        assert last in Shown(l) && HighMark(last) == last.sequence;
      } else {
        assert LogMarker(l)[0] in Shown(l) && HighMark(LogMarker(l)[0]) == last.sequence;
      }
      RestoredIsHighest(Shown(l), last.sequence);
    }
  }

  // In every run, the log restored from the file goes on right after the last event
  // written, even when compaction evicted that event.
  lemma RestoreContinuesTheSequence(c: Events.Codec, id: string, attempts: seq<Attempt>)
    requires c.Valid()
    ensures var written := Written(c, id, attempts);
            RestoredSequence(Read(c, id, RunFrom(c, id, [], attempts)).events)
            == if written == [] then 0 else written[|written| - 1].sequence
  {
    hide Shown, LogOk, Written, RunFrom, Read, RestoredSequence;
    var l := HistoryShows(c, id, attempts);
    ShownHighest(c, id, l);
  }

  // Trimming in memory keeps every state change in order and the newest technical lines.
  lemma TrimmingKeepsStateChanges(events: seq<OperationEvent>) returns (count: nat)
    ensures count <= |Technicals(events)|
    ensures Normatives(Trimmed(events)) == Normatives(events)
    ensures Technicals(Trimmed(events)) == Technicals(events)[count..]
    ensures WithinBudget(Trimmed(events))
  {
    count := TrimmedDropsFewest(events);
    DropTechnicalKeeps(events, count);
  }
}
