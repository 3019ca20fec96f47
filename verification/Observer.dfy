/** What a running worker reports and what a client is shown: the service's observer keeps
    the persisted history and the log in memory in step, and `status` merges the two when
    the persisted one cannot be trusted alone. */
module Observer {
  import opened Wrappers
  import opened Decimal
  import opened Lines
  import opened Operation
  import opened Events
  import opened History
  import opened EventFile
  import opened MemoryLog
  import Orders
  import Sanitizer

  // One report of the worker: the fault its append meets, and whether the file that
  // marks a write failure can be written.
  datatype Emission =
    | StateChanged(state: OperationState, at: string, fault: Fault, marks: bool)
    | CommandLine(source: EventSource, program: string, line: string, at: string, fault: Fault, marks: bool)

  // `file`: events.jsonl; `marked`: events.error exists; `poisoned`: the mutex of the
  // log is, after a panic while it was held.
  datatype Session = Session(
    file: bytes, events: seq<OperationEvent>, last: u64, current: OperationState,
    failed: bool, marked: bool, poisoned: bool)

  function StateName(s: OperationState): string {
    match s
    case Idle => "idle"
    case Checking => "checking"
    case Available => "available"
    case Preflight => "preflight"
    case Planned => "planned"
    case AwaitingConfirmation => "awaiting-confirmation"
    case Downloading => "downloading"
    case Snapshotting => "snapshotting"
    case Applying => "applying"
    case ReadyToReboot => "ready-to-reboot"
    case ApplyingOffline => "applying-offline"
    case AwaitingReboot => "awaiting-reboot"
    case VerifyingBoot => "verifying-boot"
    case Blocked => "blocked"
    case Failed => "failed"
    case NeedsRecovery => "needs-recovery"
    case Completed => "completed"
  }

  // A worker starts only on a complete history and without a recorded write failure.
  function Begin(c: Codec, id: string, file: bytes, marked: bool, state: OperationState): Option<Session> {
    var history := Read(c, id, file);
    if marked || history.incomplete then None
    else Some(Session(file, Trimmed(history.events), RestoredSequence(history.events), state, false, false, false))
  }

  // The event an emission becomes; None when sanitizing its line panics.
  function EventOf(id: string, s: Session, emission: Emission): Option<OperationEvent> {
    var sequence := SaturatingAdd(s.last, 1);
    match emission
    case StateChanged(state, at, _, _) =>
      Some(OperationEvent(id, sequence, at, state, Info, "state." + StateName(state), map[], None))
    case CommandLine(source, program, line, at, _, _) =>
      var stored := Sanitizer.SanitizeTechnicalLine(program + ": " + line);
      if stored.None? then None
      else
        Some(OperationEvent(id, sequence, at, s.current, Info, "technical-line", map[],
                            Some(TechnicalLine(source, stored.value.text, stored.value.truncated))))
  }

  function Current(s: Session, emission: Emission): OperationState {
    if emission.StateChanged? then emission.state else s.current
  }

  function Emit(c: Codec, id: string, s: Session, emission: Emission): Session {
    var now := s.(current := Current(s, emission));
    if s.poisoned then now
    else
      var e := EventOf(id, s, emission);
      if e.None? then now.(poisoned := true)
      else
        var append := Append(c, id, s.file, e.value, emission.fault);
        now.(file := append.file,
             events := if emission.CommandLine? then Trimmed(s.events + [e.value]) else s.events + [e.value],
             last := Max(s.last, e.value.sequence),
             failed := s.failed || append.result.Err?,
             marked := s.marked || (append.result.Err? && !s.failed && emission.marks))
  }

  // ------------------------------------------------------------------ what is shown

  datatype HistoryError = ReadFailed | WriteFailed

  datatype Report = Report(events: seq<OperationEvent>, error: Option<HistoryError>)

  function ErrorCode(e: HistoryError): string {
    if e.ReadFailed? then "EVENT_LOG_READ_FAILED" else "EVENT_LOG_WRITE_FAILED"
  }

  function Since(events: seq<OperationEvent>, after: u64): seq<OperationEvent> {
    if events == [] then []
    else
      var front, last := events[..|events| - 1], events[|events| - 1];
      Since(front, after) + if last.sequence == 0 || last.sequence > after then [last] else []
  }

  function EventKey(e: OperationEvent): seq<Orders.Field> {
    [Orders.Number(e.sequence)]
  }

  // Of neighbours with one sequence the first is kept (`dedup_by_key`).
  function DedupBySequence(events: seq<OperationEvent>): seq<OperationEvent> {
    if events == [] then []
    else
      var front, last := events[..|events| - 1], events[|events| - 1];
      if front != [] && front[|front| - 1].sequence == last.sequence then DedupBySequence(front)
      else DedupBySequence(front) + [last]
  }

  function Merged(durable: seq<OperationEvent>, cached: seq<OperationEvent>): seq<OperationEvent> {
    DedupBySequence(Orders.Sort(durable + cached, EventKey))
  }

  // `readable`: the persisted history can be opened at all.
  function Persisted(c: Codec, id: string, s: Session, after: u64, readable: bool): Report {
    var history := Read(c, id, s.file);
    var events := if readable then Since(history.events, after) else [];
    Report(events, if s.marked then Some(WriteFailed) else if !readable || history.incomplete then Some(ReadFailed) else None)
  }

  function Displayed(c: Codec, id: string, s: Session, after: u64, readable: bool): Report {
    var persisted := Persisted(c, id, s, after, readable);
    if s.poisoned then persisted.(error := Some(ReadFailed))
    else
      var error := if s.failed then Some(WriteFailed) else persisted.error;
      Report(if error.Some? then Merged(persisted.events, NewerThan(s.events, after)) else persisted.events, error)
  }

  function Diagnostic(id: string, at: string, state: OperationState, error: HistoryError): OperationEvent {
    OperationEvent(id, 0, at, state, Warning, "error_" + ErrorCode(error), map[], None)
  }

  // The history error is also reported as an event outside of the sequence.
  function StatusReport(c: Codec, id: string, s: Session, after: u64, readable: bool, at: string, state: OperationState): Report {
    var shown := Displayed(c, id, s, after, readable);
    if shown.error.None? then shown
    else
      shown.(events := shown.events + [Diagnostic(id, at, state, shown.error.value)])
  }

  // The service's side of a running worker.
  class Observer {
    const file: EventLogFile
    const log: EventLog
    var currentState: OperationState
    var writeFailure: bool
    var poisoned: bool

    ghost predicate Valid()
      reads this, log
    {
      log.Valid()
    }

    ghost function Now(): Session
      reads this, log, file
    {
      Session(file.content, log.events, log.lastSequence, currentState, log.persistenceFailed, writeFailure, poisoned)
    }

    constructor (file: EventLogFile, log: EventLog, state: OperationState)
      requires log.Valid()
      ensures Valid() && this.file == file && this.log == log
      ensures Now() == Session(file.content, log.events, log.lastSequence, state, log.persistenceFailed, false, false)
    {
      this.file, this.log := file, log;
      currentState, writeFailure, poisoned := state, false, false;
    }

    method CommandLine(source: EventSource, program: string, line: string, at: string, fault: Fault, marks: bool)
      requires Valid()
      modifies this, log, file
      ensures Valid()
      ensures Now() == Emit(file.codec, file.operationId, old(Now()),
                            Emission.CommandLine(source, program, line, at, fault, marks))
    {
      hide Append, Trimmed, Sanitizer.SanitizeTechnicalLine;
      if poisoned {
        return;
      }
      var event := OperationEvent(file.operationId, log.NextSequence(), at, currentState, Info, "technical-line", map[], None);
      var pushed := log.PushTechnical(event, source, program + ": " + line);
      if pushed.None? {
        poisoned := true;
        return;
      }
      Persist(pushed.value, fault, marks);
    }

    method StateChanged(state: OperationState, at: string, fault: Fault, marks: bool)
      requires Valid()
      modifies this, log, file
      ensures Valid()
      ensures Now() == Emit(file.codec, file.operationId, old(Now()), Emission.StateChanged(state, at, fault, marks))
    {
      hide Append;
      currentState := state;
      if poisoned {
        return;
      }
      var event := OperationEvent(file.operationId, log.NextSequence(), at, state, Info, "state." + StateName(state), map[], None);
      Persist(event, fault, marks);
      log.PushNormative(event);
    }

    method Persist(event: OperationEvent, fault: Fault, marks: bool)
      requires Valid()
      modifies this`writeFailure, log`persistenceFailed, file
      ensures Valid()
      ensures var append := Append(file.codec, file.operationId, old(file.content), event, fault);
              && file.content == append.file
              && log.persistenceFailed == (old(log.persistenceFailed) || append.result.Err?)
              && writeFailure == (old(writeFailure) || (append.result.Err? && !old(log.persistenceFailed) && marks))
    {
      hide Append;
      var result := file.AppendEvent(event, fault);
      if result.Err? {
        if !log.persistenceFailed && marks {
          writeFailure := true;
        }
        log.persistenceFailed := true;
      }
    }

    // The persisted part, read afresh from disk.
    method LoadPersisted(after: u64, readable: bool) returns (report: Report)
      ensures report == Persisted(file.codec, file.operationId, Now(), after, readable)
    {
      hide Read, Since;
      var events, historyError := [], Some(ReadFailed);
      if readable {
        var history := ReadHistory(file.codec, file.operationId, file.content);
        events := Since(history.events, after);
        historyError := if history.incomplete then Some(ReadFailed) else None;
      }
      if writeFailure {
        historyError := Some(WriteFailed);
      }
      report := Report(events, historyError);
    }

    method Status(after: u64, readable: bool, at: string, state: OperationState) returns (report: Report)
      requires Valid()
      ensures report == StatusReport(file.codec, file.operationId, Now(), after, readable, at, state)
    {
      hide Persisted, NewerThan, Merged, Diagnostic;
      report := LoadPersisted(after, readable);
      if poisoned {
        report := report.(error := Some(ReadFailed));
      } else {
        if log.persistenceFailed {
          report := report.(error := Some(WriteFailed));
        }
        if report.error.Some? {
          var cached := log.After(after);
          report := report.(events := Merged(report.events, cached));
        }
      }
      if report.error.Some? {
        var diagnostic := Diagnostic(file.operationId, at, state, report.error.value);
        report := report.(events := report.events + [diagnostic]);
      }
    }
  }
}
