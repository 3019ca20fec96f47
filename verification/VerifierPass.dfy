/** One pass of the boot verifier over the interrupted records. */
module VerifierPass {
  import opened Wrappers
  import opened Decimal
  import opened Operation
  import opened Records
  import opened Protocol
  import opened Traces
  import opened ProtocolInvariant
  import opened ProtocolSteps
  import opened ProtocolWrites
  import opened ProtocolTheorems

  // The saves of a pass, each with its outcome.
  function Saves(outcomes: seq<Io>): (steps: seq<Step>)
    ensures |steps| == |outcomes| && forall i :: 0 <= i < |steps| ==> steps[i] == VerifierSave(outcomes[i])
  {
    seq(|outcomes|, i requires 0 <= i < |outcomes| => VerifierSave(outcomes[i]))
  }

  // The whole queue was worked off.
  predicate Finished(w: World) {
    w.holder.VerifierHolds? && w.holder.verifierPc.Reconciling? && w.holder.queue == []
  }

  predicate Settled(w: World) {
    forall id :: id in w.ops ==> !IsInterrupted(w.ops[id].disk, w.marker)
  }

  predicate WaitsInQueue(w: World, id: OperationId)
    requires id in w.ops && w.holder.VerifierHolds?
  {
    IsInterrupted(w.ops[id].disk, w.marker) ==> w.ops[id].disk in w.holder.queue
  }

  predicate AllWait(w: World)
    requires w.holder.VerifierHolds?
  {
    forall id :: id in w.ops ==> WaitsInQueue(w, id)
  }

  lemma {:induction false} NothingMore(w: World, steps: seq<Step>)
    requires w.holder.Free? && forall s :: s in steps ==> s.VerifierSave?
    ensures Play(w, steps) == w
    decreases |steps|
  {
    if steps != [] {
      assert steps[0] in steps;
      assert Do(w, steps[0]) == w;
      NothingMore(w, steps[1..]);
    }
  }

  lemma HeadEntry(w: World)
    requires Inv(w) && w.holder.VerifierHolds? && w.holder.verifierPc.Reconciling? && w.holder.queue != []
    ensures EntryOk(w.ops, w.holder.queue[0]) && ValidState(w.holder.queue[0])
    ensures forall r :: r in w.holder.queue[1..] ==> r.contract.operationId != w.holder.queue[0].contract.operationId
  {
    hide OpOk, ValidState, Replay, LockOk, MarkerOk;
  }

  // The head of the queue is worked off if its save is done and the gate accepts it.
  lemma OneSave(w: World, io: Io)
    requires Inv(w) && w.holder.VerifierHolds? && w.holder.verifierPc.Reconciling? && w.holder.queue != [] && AllWait(w)
    ensures var w', r := Do(w, VerifierSave(io)), w.holder.queue[0];
            if io.Done? && !Unnumberable(r) then
              && w'.holder.VerifierHolds? && w'.holder.verifierPc.Reconciling? && w'.holder.queue == w.holder.queue[1..]
              && AllWait(w')
            else w'.holder.Free?
  {
    hide Inv, ValidState;
    HeadEntry(w);
    var r := w.holder.queue[0];
    ReconciliationIsSavedExactly(r);
    var w' := Do(w, VerifierSave(io));
    if io.Done? && !Unnumberable(r) {
      forall id | id in w'.ops
        ensures WaitsInQueue(w', id)
      {
        DisksRecord(w, id);
        assert WaitsInQueue(w, id);
        assert w.holder.queue == [r] + w.holder.queue[1..];
      }
    }
  }

  lemma NothingWaits(w: World)
    requires w.holder.VerifierHolds? && w.holder.queue == [] && AllWait(w)
    ensures Settled(w)
  {
    assert forall id :: id in w.ops ==> WaitsInQueue(w, id);
  }

  lemma {:induction false} QueueRunsOut(w: World, outcomes: seq<Io>)
    requires Inv(w) && w.holder.VerifierHolds? && w.holder.verifierPc.Reconciling? && AllWait(w)
    requires |outcomes| == |w.holder.queue|
    ensures var w' := Play(w, Saves(outcomes));
            && (Finished(w') <==> (forall io :: io in outcomes ==> io.Done?) && (forall r :: r in w.holder.queue ==> !Unnumberable(r)))
            && (Finished(w') ==> Settled(w'))
    decreases |outcomes|
  {
    hide Inv, Do, Unnumberable, IsInterrupted, Play, Settled, AllWait;
    if outcomes == [] {
      PlaysOut(w);
      assert Saves(outcomes) == [];
      NothingWaits(w);
    } else {
      var r, rest := w.holder.queue[0], w.holder.queue[1..];
      var steps := Saves(outcomes);
      assert steps == [VerifierSave(outcomes[0])] + Saves(outcomes[1..]);
      assert w.holder.queue == [r] + rest && outcomes == [outcomes[0]] + outcomes[1..];
      Plays(w, steps, VerifierSave(outcomes[0]), Saves(outcomes[1..]));
      OneSave(w, outcomes[0]);
      StepKeeps(w, VerifierSave(outcomes[0]));
      if outcomes[0].Done? && !Unnumberable(r) {
        QueueRunsOut(Do(w, VerifierSave(outcomes[0])), outcomes[1..]);
      } else {
        NothingMore(Do(w, VerifierSave(outcomes[0])), Saves(outcomes[1..]));
        assert r in w.holder.queue && outcomes[0] in outcomes;
      }
    }
  }

  lemma PassBegins(w: World, entries: seq<OperationId>, first: Option<OperationId>)
    requires Inv(w) && BootQuiet(w) && Lists(w, entries) && Selects(w, first)
    ensures var scanned := Do(Do(w, VerifierBegin), VerifierScan(entries, first));
            && scanned.ops == w.ops && scanned.marker == w.marker
            && scanned.holder.VerifierHolds? && scanned.holder.verifierPc.Reconciling?
            && scanned.holder.queue == InterruptedIn(w, entries) && AllWait(scanned)
            && (forall r :: r in scanned.holder.queue ==> r.contract.operationId in w.ops && r == w.ops[r.contract.operationId].disk)
  {
    hide ValidState, OpOk, QueueOk, HolderOk, LockOk, MarkerOk, Do, IsInterrupted, InterruptedIn;
    BeginsAndScans(w, entries, first);
    ScanQueues(w, entries);
    var scanned := Do(Do(w, VerifierBegin), VerifierScan(entries, first));
    forall id | id in w.ops
      ensures WaitsInQueue(scanned, id)
    {
      assert id in entries;
    }
  }

  lemma BeginsAndScans(w: World, entries: seq<OperationId>, first: Option<OperationId>)
    requires BootQuiet(w) && Lists(w, entries) && Selects(w, first)
    ensures Do(Do(w, VerifierBegin), VerifierScan(entries, first))
            == w.(holder := VerifierHolds(Reconciling, InterruptedIn(w, entries),
                                          if first.None? then None else Some(w.ops[first.value].disk)))
  {
    hide BootQuiet, InterruptedIn, IsInterrupted, IsCandidate;
    var begun := w.(holder := VerifierHolds(Scanning, [], None));
    assert Do(w, VerifierBegin) == begun;
    SameEntries(w, begun, entries);
    assert Lists(begun, entries) && Selects(begun, first);
  }

  lemma {:induction false} SameEntries(w: World, w': World, entries: seq<OperationId>)
    requires w'.ops == w.ops && w'.marker == w.marker && forall id :: id in entries ==> id in w.ops
    ensures InterruptedIn(w', entries) == InterruptedIn(w, entries)
  {
    if entries != [] {
      SameEntries(w, w', entries[1..]);
    }
  }

  // A pass from a quiet boot gets past its queue exactly if every save is done and no
  // record stopped in Snapshotting without a number; and then no record anywhere is left
  // interrupted.
  lemma PassFinishesExactly(w: World, entries: seq<OperationId>, first: Option<OperationId>, outcomes: seq<Io>)
    requires Inv(w) && BootQuiet(w) && Lists(w, entries) && Selects(w, first)
    requires |outcomes| == |InterruptedIn(w, entries)|
    ensures var w' := Continue(w, [VerifierBegin, VerifierScan(entries, first)] + Saves(outcomes));
            && (Finished(w') <==>
                  (forall io :: io in outcomes ==> io.Done?) && (forall id :: id in w.ops ==> !Unnumberable(w.ops[id].disk)))
            && (Finished(w') ==> Settled(w'))
  {
    hide Inv, Do, Play, AllWait, Settled, Finished, Unnumberable, BootQuiet, Selects, Lists, IsInterrupted;
    var steps := [VerifierBegin, VerifierScan(entries, first)] + Saves(outcomes);
    PlayIsContinue(w, steps);
    var begun := Do(w, VerifierBegin);
    var scanned := Do(begun, VerifierScan(entries, first));
    Plays(w, steps, VerifierBegin, [VerifierScan(entries, first)] + Saves(outcomes));
    Plays(begun, [VerifierScan(entries, first)] + Saves(outcomes), VerifierScan(entries, first), Saves(outcomes));
    PassBegins(w, entries, first);
    StepKeeps(w, VerifierBegin);
    StepKeeps(begun, VerifierScan(entries, first));
    QueueRunsOut(scanned, outcomes);
    forall id | id in w.ops && Unnumberable(w.ops[id].disk)
      ensures w.ops[id].disk in scanned.holder.queue
    {
      UnnumberableWaits(scanned, id);
    }
  }

  lemma UnnumberableWaits(w: World, id: OperationId)
    requires w.holder.VerifierHolds? && AllWait(w) && id in w.ops && Unnumberable(w.ops[id].disk)
    ensures w.ops[id].disk in w.holder.queue
  {
    assert WaitsInQueue(w, id);
  }
}
