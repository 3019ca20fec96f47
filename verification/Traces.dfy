/** What an operation's effects may look like: a small automaton over its log, and the
    plain statement of what the automaton admits. */
module Traces {
  import opened Wrappers
  import opened Decimal
  import opened Operation
  import opened Records
  import opened Protocol

  // Where an operation stands with respect to its latest rollback intent.
  datatype Phase = Rest | Intended | Ran

  datatype Trace = Trace(taken: Option<u64>, applied: bool, phase: Phase)

  const Untouched := Trace(None, false, Phase.Rest)

  predicate Incomplete(r: Record) {
    r.recovery.Some? && r.recovery.value.boot.None?
  }

  // The record persisted when packages are applied authorises exactly that.
  predicate Authorises(p: Record, manifest: Option<u64>, counter: Option<u64>) {
    || (p.state.Applying? && p.contract.kind.UpdateWithinRelease?)
    || (p.state.ApplyingOffline? && p.contract.kind.IsSignedOffline() && Fresh(manifest, counter))
  }

  predicate Confirms(goal: RollbackGoal) {
    goal.boot.Some? && goal.IsCloneOfSource(goal.boot.value)
  }

  function Extend(t: Trace, e: Effect): Option<Trace> {
    match e
    case SnapshotTaken(n) =>
      if n > 0 && t == Untouched then Some(t.(taken := Some(n))) else None
    case PackagesApplied(p, manifest, counter) =>
      if !t.applied && p.snapshotNumber.Some? && p.snapshotNumber == t.taken && Authorises(p, manifest, counter)
      then Some(t.(applied := true)) else None
    case IntentSaved => if t.phase.Rest? then Some(t.(phase := Phase.Intended)) else None
    case RollbackRun(p) =>
      if t.phase.Intended? && Incomplete(p) then Some(t.(phase := Phase.Ran)) else None
    case CloneConfirmed(goal) =>
      if t.phase.Ran? && Confirms(goal) then Some(t.(phase := Phase.Rest)) else None
  }

  function Replay(log: seq<Effect>): Option<Trace> {
    if log == [] then Some(Untouched)
    else
      var before := Replay(log[..|log| - 1]);
      if before.None? then None else Extend(before.value, log[|log| - 1])
  }

  predicate Legal(log: seq<Effect>) {
    Replay(log).Some?
  }

  lemma ReplayAppend(log: seq<Effect>, e: Effect)
    requires Legal(log)
    ensures Replay(log + [e]) == Extend(Replay(log).value, e)
  {
    assert (log + [e])[..|log|] == log;
  }

  lemma {:induction false} LegalPrefix(log: seq<Effect>, k: nat)
    requires Legal(log) && k <= |log|
    ensures Legal(log[..k])
  {
    if k < |log| {
      LegalPrefix(log[..|log| - 1], k);
      assert log[..|log| - 1][..k] == log[..k];
    } else {
      assert log[..k] == log;
    }
  }

  // One step of the automaton, at any position of a legal log.
  lemma StepAt(log: seq<Effect>, k: nat)
    requires Legal(log) && k < |log|
    ensures Legal(log[..k]) && Extend(Replay(log[..k]).value, log[k]) == Replay(log[..k + 1])
    ensures Legal(log[..k + 1])
  {
    LegalPrefix(log, k);
    LegalPrefix(log, k + 1);
    assert log[..k + 1][..k] == log[..k];
  }

  // `applied` and `taken` are never taken back.
  lemma {:induction false} Latches(log: seq<Effect>, i: nat, j: nat)
    requires Legal(log) && i <= j <= |log|
    ensures Legal(log[..i]) && Legal(log[..j])
    ensures Replay(log[..i]).value.applied ==> Replay(log[..j]).value.applied
    ensures Replay(log[..i]).value.taken.Some? ==> Replay(log[..j]).value.taken == Replay(log[..i]).value.taken
  {
    LegalPrefix(log, i);
    if i < j {
      Latches(log, i, j - 1);
      StepAt(log, j - 1);
    }
  }

  // The snapshot the automaton knows was taken at some position.
  lemma {:induction false} TakenSomewhere(log: seq<Effect>, k: nat) returns (i: nat)
    requires Legal(log) && k <= |log| && Legal(log[..k]) && Replay(log[..k]).value.taken.Some?
    ensures i < k && log[i] == SnapshotTaken(Replay(log[..k]).value.taken.value)
    ensures Replay(log[..k]).value.taken.value > 0
  {
    StepAt(log, k - 1);
    if log[k - 1].SnapshotTaken? {
      i := k - 1;
    } else {
      i := TakenSomewhere(log, k - 1);
    }
  }

  // Packages are applied at most once, and only by a record that authorises it, after
  // the only snapshot of the operation, whose positive number the record carries.
  lemma AppliedOnceAfterSnapshot(log: seq<Effect>, j: nat)
    requires Legal(log) && j < |log| && log[j].PackagesApplied?
    ensures Authorises(log[j].persisted, log[j].manifest, log[j].counter)
    ensures forall k :: 0 <= k < |log| && k != j ==> !log[k].PackagesApplied?
    ensures exists i :: 0 <= i < j && log[i].SnapshotTaken? && log[i].number > 0
                        && log[j].persisted.snapshotNumber == Some(log[i].number)
                        && (forall k :: 0 <= k < |log| && k != i ==> !log[k].SnapshotTaken?)
  {
    StepAt(log, j);
    forall k | 0 <= k < |log| && k != j
      ensures !log[k].PackagesApplied?
    {
      StepAt(log, k);
      if k < j {
        Latches(log, k + 1, j);
      } else {
        Latches(log, j + 1, k);
      }
    }
    var i := TakenSomewhere(log, j);
    forall k | 0 <= k < |log| && k != i
      ensures !log[k].SnapshotTaken?
    {
      StepAt(log, k);
      StepAt(log, i);
      if k < i {
        Latches(log, k + 1, i);
      } else {
        Latches(log, i + 1, k);
      }
    }
  }

  predicate ChangesPhase(e: Effect) {
    e.IntentSaved? || e.RollbackRun? || e.CloneConfirmed?
  }

  // The last phase change before k, and that nothing touches the phase after it.
  predicate LastPhaseChange(log: seq<Effect>, i: int, k: int)
    requires 0 <= k <= |log|
  {
    && 0 <= i < k && ChangesPhase(log[i])
    && forall j :: i < j < k ==> !ChangesPhase(log[j])
  }

  lemma {:induction false} PhaseSource(log: seq<Effect>, k: nat) returns (i: nat)
    requires Legal(log) && k <= |log| && Legal(log[..k]) && !Replay(log[..k]).value.phase.Rest?
    ensures LastPhaseChange(log, i, k)
    ensures if Replay(log[..k]).value.phase.Intended? then log[i].IntentSaved? else log[i].RollbackRun?
  {
    StepAt(log, k - 1);
    if ChangesPhase(log[k - 1]) {
      i := k - 1;
    } else {
      i := PhaseSource(log, k - 1);
    }
  }

  // A rollback runs only right after an intent that is still incomplete was saved.
  lemma RollbackFollowsItsIntent(log: seq<Effect>, k: nat)
    requires Legal(log) && k < |log| && log[k].RollbackRun?
    ensures Incomplete(log[k].persisted)
    ensures exists i :: LastPhaseChange(log, i, k) && log[i].IntentSaved?
  {
    StepAt(log, k);
    var i := PhaseSource(log, k);
  }

  // A clone is confirmed only after the rollback that made it ran, and is distinct
  // from the source it descends from.
  lemma CloneFollowsItsRollback(log: seq<Effect>, k: nat)
    requires Legal(log) && k < |log| && log[k].CloneConfirmed?
    ensures Confirms(log[k].goal)
    ensures exists i :: LastPhaseChange(log, i, k) && log[i].RollbackRun?
  {
    StepAt(log, k);
    var i := PhaseSource(log, k);
  }

  lemma {:induction false} RestSource(log: seq<Effect>, i: nat, k: nat)
    requires Legal(log) && i < k <= |log| && log[i].IntentSaved?
    requires forall j :: i < j < k ==> !log[j].CloneConfirmed?
    ensures Legal(log[..k]) && !Replay(log[..k]).value.phase.Rest?
  {
    StepAt(log, k - 1);
    if i < k - 1 {
      RestSource(log, i, k - 1);
    }
  }

  // An intent is never followed by another one unless its clone was confirmed.
  lemma NoIntentOverAnother(log: seq<Effect>, i: nat, k: nat)
    requires Legal(log) && i < k < |log| && log[i].IntentSaved? && log[k].IntentSaved?
    ensures exists j :: i < j < k && log[j].CloneConfirmed?
  {
    if forall j :: i < j < k ==> !log[j].CloneConfirmed? {
      RestSource(log, i, k);
      StepAt(log, k);
    }
  }
}
