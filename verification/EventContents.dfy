/** What a worker's reports and the status of its history consist of, field by field. */
module EventContents {
  import opened Wrappers
  import opened Decimal
  import opened Operation
  import opened Events
  import opened EventFile
  import opened MemoryLog
  import opened Observer
  import opened StatusTheorems
  import Sanitizer

  // A state change is reported under the name of the new state, with the next sequence.
  lemma StateChangeIs(id: string, s: Session, state: OperationState, at: string, fault: Fault, marks: bool)
    ensures var name := StateName(state);
            && EventOf(id, s, StateChanged(state, at, fault, marks))
               == Some(OperationEvent(id, SaturatingAdd(s.last, 1), at, state, Info, "state." + name, map[], None))
            && (state == Idle <==> name == "idle") && (state == Checking <==> name == "checking")
            && (state == Available <==> name == "available") && (state == OperationState.Preflight <==> name == "preflight")
            && (state == Planned <==> name == "planned") && (state == AwaitingConfirmation <==> name == "awaiting-confirmation")
            && (state == Downloading <==> name == "downloading") && (state == Snapshotting <==> name == "snapshotting")
            && (state == Applying <==> name == "applying") && (state == ReadyToReboot <==> name == "ready-to-reboot")
            && (state == ApplyingOffline <==> name == "applying-offline") && (state == AwaitingReboot <==> name == "awaiting-reboot")
            && (state == VerifyingBoot <==> name == "verifying-boot") && (state == Blocked <==> name == "blocked")
            && (state == OperationState.Failed <==> name == "failed") && (state == NeedsRecovery <==> name == "needs-recovery")
            && (state == Completed <==> name == "completed")
  {}

  // A line is reported in the state the worker is in, behind the program's name, as the
  // sanitizer leaves it; there is no event if that panics.
  lemma CommandLineIs(id: string, s: Session, source: EventSource, program: string, line: string, at: string, fault: Fault, marks: bool)
    ensures var stored := Sanitizer.SanitizeTechnicalLine(program + ": " + line);
            EventOf(id, s, CommandLine(source, program, line, at, fault, marks)) ==
            if stored.None? then None
            else Some(OperationEvent(id, SaturatingAdd(s.last, 1), at, s.current, Info, "technical-line", map[],
                                     Some(TechnicalLine(source, stored.value.text, stored.value.truncated))))
  {}

  // The events after a sequence, from the file: the eviction marker always, and nothing
  // else that is not later.
  lemma {:induction false} SinceIs(events: seq<OperationEvent>, after: u64, e: OperationEvent)
    ensures e in Since(events, after) <==> e in events && (e.sequence == 0 || e.sequence > after)
  {
    if events != [] {
      assert events == events[..|events| - 1] + [events[|events| - 1]];
      SinceIs(events[..|events| - 1], after, e);
    }
  }

  lemma {:induction false} NewerIs(events: seq<OperationEvent>, after: u64, e: OperationEvent)
    ensures e in NewerThan(events, after) <==> e in events && e.sequence > after
  {
    if events != [] {
      assert events == events[..|events| - 1] + [events[|events| - 1]];
      NewerIs(events[..|events| - 1], after, e);
    }
  }

  // What is shown of a worker whose history is sound: what the file holds, and no error.
  // Otherwise a warning outside of the sequence names the error: one of writing if a write
  // failed, else one of reading; after a panic always one of reading, from the file alone.
  lemma StatusIs(c: Codec, id: string, s: Session, after: u64, readable: bool, at: string, state: OperationState)
    ensures var history := History.Read(c, id, s.file);
            var durable := if readable then Since(history.events, after) else [];
            var report := StatusReport(c, id, s, after, readable, at, state);
            var failed := OperationEvent(id, 0, at, state, Warning, "error_EVENT_LOG_WRITE_FAILED", map[], None);
            var unread := OperationEvent(id, 0, at, state, Warning, "error_EVENT_LOG_READ_FAILED", map[], None);
            if s.poisoned then report == Report(durable + [unread], Some(ReadFailed))
            else if s.failed || s.marked then report == Report(Merged(durable, NewerThan(s.events, after)) + [failed], Some(WriteFailed))
            else if !readable || history.incomplete then
              report == Report(Merged(durable, NewerThan(s.events, after)) + [unread], Some(ReadFailed))
            else report == Report(durable, None)
  {
    hide Merged, NewerThan, Since, History.Read, Displayed, Persisted, Diagnostic;
    DisplayedIs(c, id, s, after, readable);
    DiagnosticIs(id, at, state);
  }

  lemma DiagnosticIs(id: string, at: string, state: OperationState)
    ensures Diagnostic(id, at, state, WriteFailed)
            == OperationEvent(id, 0, at, state, Warning, "error_EVENT_LOG_WRITE_FAILED", map[], None)
    ensures Diagnostic(id, at, state, ReadFailed)
            == OperationEvent(id, 0, at, state, Warning, "error_EVENT_LOG_READ_FAILED", map[], None)
  {
    assert "error_" + "EVENT_LOG_WRITE_FAILED" == "error_EVENT_LOG_WRITE_FAILED";
    assert "error_" + "EVENT_LOG_READ_FAILED" == "error_EVENT_LOG_READ_FAILED";
  }

  lemma DisplayedIs(c: Codec, id: string, s: Session, after: u64, readable: bool)
    ensures var history := History.Read(c, id, s.file);
            var durable := if readable then Since(history.events, after) else [];
            Displayed(c, id, s, after, readable) ==
            if s.poisoned then Report(durable, Some(ReadFailed))
            else if s.failed || s.marked then Report(Merged(durable, NewerThan(s.events, after)), Some(WriteFailed))
            else if !readable || history.incomplete then Report(Merged(durable, NewerThan(s.events, after)), Some(ReadFailed))
            else Report(durable, None)
  {
    hide Merged, NewerThan, Since, History.Read;
  }

  // --------------------------------------------------------------- the mark of a failure

  // Emission `i` of a run comes to an append, and the append fails.
  ghost predicate FailsAt(c: Codec, id: string, first: Session, emissions: seq<Emission>, i: nat)
    requires i < |emissions|
  {
    var before := After(c, id, first, emissions[..i]);
    var e := EventOf(id, before, emissions[i]);
    !before.poisoned && e.Some? && Append(c, id, before.file, e.value, emissions[i].fault).result.Err?
  }

  lemma OneEmission(c: Codec, id: string, first: Session, emissions: seq<Emission>)
    requires emissions != []
    ensures var n := |emissions| - 1;
            var before, s := After(c, id, first, emissions[..n]), After(c, id, first, emissions);
            && (s.failed <==> before.failed || FailsAt(c, id, first, emissions, n))
            && (s.marked <==> before.marked || (FailsAt(c, id, first, emissions, n) && !before.failed && emissions[n].marks))
  {
    hide EventOf, Append, Trimmed;
  }

  // In every run: a failure is remembered exactly if some append failed, and it is marked
  // on disk exactly if the first that failed could be: no later failure is.
  lemma {:induction false} FirstFailureIsMarked(c: Codec, id: string, first: Session, emissions: seq<Emission>)
    requires !first.failed && !first.marked
    ensures var s := After(c, id, first, emissions);
            && (s.failed <==> exists i :: 0 <= i < |emissions| && FailsAt(c, id, first, emissions, i))
            && (s.marked <==> exists i :: 0 <= i < |emissions| && FailsAt(c, id, first, emissions, i) && emissions[i].marks
                                          && forall j :: 0 <= j < i ==> !FailsAt(c, id, first, emissions, j))
    decreases |emissions|
  {
    hide FailsAt, After;
    if emissions == [] {
      NothingEmitted(c, id, first);
    } else {
      var front := emissions[..|emissions| - 1];
      FirstFailureIsMarked(c, id, first, front);
      OneEmission(c, id, first, emissions);
      forall i | 0 <= i < |front|
        ensures FailsAt(c, id, first, front, i) <==> FailsAt(c, id, first, emissions, i)
      {
        FailsBefore(c, id, first, emissions, i);
      }
    }
  }

  lemma NothingEmitted(c: Codec, id: string, first: Session)
    ensures After(c, id, first, []) == first
  {}

  lemma FailsBefore(c: Codec, id: string, first: Session, emissions: seq<Emission>, i: nat)
    requires i < |emissions| - 1
    ensures FailsAt(c, id, first, emissions[..|emissions| - 1], i) <==> FailsAt(c, id, first, emissions, i)
  {
    hide EventOf, Append;
    assert emissions[..|emissions| - 1][..i] == emissions[..i];
  }
}
