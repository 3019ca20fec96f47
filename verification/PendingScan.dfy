/** The boot verifier's scan of the operation directories: what it counts as invalid,
    what as interrupted, and which operation it verifies. */
module PendingScan {
  import opened Wrappers
  import opened Operation
  import opened Orders
  import opened Records

  // One directory entry: unusable for some reason, or a state that was read back.
  datatype Entry = Invalid(reason: string) | Loaded(record: Record, updatedAt: string)

  datatype Candidate = Candidate(record: Record, updatedAt: string) {
    function Id(): string {
      record.contract.operationId
    }
  }

  datatype Scan = Scan(operation: Option<Candidate>, interrupted: seq<Record>, invalid: nat)

  // The sort order of candidates: latest update first, then by operation id.
  predicate Precedes(a: Candidate, b: Candidate) {
    || StringLess(b.updatedAt, a.updatedAt)
    || (a.updatedAt == b.updatedAt && !StringLess(b.Id(), a.Id()))
  }

  lemma PrecedesTotal(a: Candidate, b: Candidate)
    ensures Precedes(a, b) || Precedes(b, a)
    ensures Precedes(a, b) && Precedes(b, a) ==> a.Id() == b.Id() && a.updatedAt == b.updatedAt
  {
    hide StringLess;
    StringOrder(a.updatedAt, b.updatedAt, a.updatedAt);
    StringOrder(b.updatedAt, a.updatedAt, b.updatedAt);
    StringOrder(a.Id(), b.Id(), a.Id());
    StringOrder(b.Id(), a.Id(), b.Id());
  }

  lemma PrecedesTransitive(a: Candidate, b: Candidate, c: Candidate)
    requires Precedes(a, b) && Precedes(b, c)
    ensures Precedes(a, c)
  {
    hide StringLess;
    StringOrder(c.updatedAt, b.updatedAt, a.updatedAt);
    StringOrder(a.Id(), b.Id(), a.Id());
    StringOrder(c.Id(), a.Id(), b.Id());
  }

  // What the scan has to collect, as functions of the listing.
  function CandidatesOf(entries: seq<Entry>): seq<Candidate> {
    if entries == [] then []
    else
      var e, before := entries[|entries| - 1], CandidatesOf(entries[..|entries| - 1]);
      if e.Loaded? && IsCandidate(e.record) then before + [Candidate(e.record, e.updatedAt)] else before
  }

  function InterruptedOf(entries: seq<Entry>, markedId: Option<string>): seq<Record> {
    if entries == [] then []
    else
      var e, before := entries[|entries| - 1], InterruptedOf(entries[..|entries| - 1], markedId);
      if e.Loaded? && !IsCandidate(e.record) && LeftInFlight(e.record, markedId) then before + [e.record] else before
  }

  function InvalidIn(entries: seq<Entry>): nat {
    if entries == [] then 0
    else InvalidIn(entries[..|entries| - 1]) + if entries[|entries| - 1].Invalid? then 1 else 0
  }

  // The one candidate that no other precedes.
  predicate IsFirst(c: Candidate, candidates: seq<Candidate>) {
    c in candidates && forall other :: other in candidates ==> Precedes(c, other)
  }

  predicate Sorted(s: seq<Candidate>) {
    forall i, j :: 0 <= i < j < |s| ==> Precedes(s[i], s[j])
  }

  lemma InsertedSorted(s: seq<Candidate>, at: nat, c: Candidate)
    requires Sorted(s) && at <= |s|
    requires forall j :: 0 <= j < at ==> Precedes(s[j], c)
    requires at < |s| ==> !Precedes(s[at], c)
    ensures Sorted(s[..at] + [c] + s[at..])
  {
    hide Precedes;
    forall j | at <= j < |s|
      ensures Precedes(c, s[j])
    {
      PrecedesTotal(c, s[at]);
      if j > at {
        PrecedesTransitive(c, s[at], s[j]);
      }
    }
  }

  // Sorting by insertion; the first element is all that is used of the result.
  method SortCandidates(candidates: seq<Candidate>) returns (sorted: seq<Candidate>)
    ensures multiset(sorted) == multiset(candidates) && Sorted(sorted)
  {
    hide Precedes, Sorted;
    sorted := [];
    assert Sorted(sorted) by {
      NothingIsSorted();
    }
    for i := 0 to |candidates|
      invariant multiset(sorted) == multiset(candidates[..i])
      invariant Sorted(sorted)
    {
      var c := candidates[i];
      var at := 0;
      while at < |sorted| && Precedes(sorted[at], c)
        invariant 0 <= at <= |sorted|
        invariant forall j :: 0 <= j < at ==> Precedes(sorted[j], c)
      {
        at := at + 1;
      }
      InsertedSorted(sorted, at, c);
      assert candidates[..i + 1] == candidates[..i] + [c];
      assert sorted == sorted[..at] + sorted[at..];
      sorted := sorted[..at] + [c] + sorted[at..];
    }
    assert candidates[..|candidates|] == candidates;
  }

  lemma NothingIsSorted()
    ensures Sorted([])
  {}

  // `pending_operation`
  method PendingOperation(entries: seq<Entry>, markedId: Option<string>) returns (scan: Scan)
    ensures scan.invalid == InvalidIn(entries)
    ensures scan.interrupted == InterruptedOf(entries, markedId)
    ensures scan.operation.None? <==> CandidatesOf(entries) == []
    ensures scan.operation.Some? ==> IsFirst(scan.operation.value, CandidatesOf(entries))
  {
    var invalid, interrupted, candidates := 0, [], [];
    for i := 0 to |entries|
      invariant invalid == InvalidIn(entries[..i])
      invariant interrupted == InterruptedOf(entries[..i], markedId)
      invariant candidates == CandidatesOf(entries[..i])
    {
      assert entries[..i + 1][..i] == entries[..i];
      match entries[i]
      case Invalid(_) => invalid := invalid + 1;
      case Loaded(record, updatedAt) =>
        if record.state.AwaitingReboot? || record.state.VerifyingBoot? {
          candidates := candidates + [Candidate(record, updatedAt)];
        } else if (!record.state.ReadyToReboot? && InterruptedState(record.state).Some?)
                  || (record.state.ReadyToReboot? && markedId != Some(record.contract.operationId)) {
          interrupted := interrupted + [record];
        }
    }
    assert entries[..|entries|] == entries;
    var sorted := SortCandidates(candidates);
    if sorted == [] {
      assert |multiset(candidates)| == 0;
      scan := Scan(None, interrupted, invalid);
    } else {
      FirstOfSorted(sorted, candidates);
      scan := Scan(Some(sorted[0]), interrupted, invalid);
    }
  }

  lemma FirstOfSorted(sorted: seq<Candidate>, candidates: seq<Candidate>)
    requires sorted != [] && multiset(sorted) == multiset(candidates)
    requires Sorted(sorted)
    ensures IsFirst(sorted[0], candidates)
  {
    hide Precedes;
    assert sorted[0] in multiset(sorted);
    PrecedesTotal(sorted[0], sorted[0]);
    forall other | other in candidates
      ensures Precedes(sorted[0], other)
    {
      assert other in multiset(sorted);
      var i :| 0 <= i < |sorted| && sorted[i] == other;
    }
  }

  predicate SameId(e: Entry, e': Entry) {
    e.Loaded? && e'.Loaded? && e.record.contract.operationId == e'.record.contract.operationId
  }

  // Every operation has one directory, named by its id.
  predicate DistinctIds(entries: seq<Entry>) {
    forall e, e' :: e in entries && e' in entries && SameId(e, e') ==> e == e'
  }

  lemma {:induction false} CountsFollowMultiset(a: seq<Entry>, b: seq<Entry>, markedId: Option<string>)
    requires multiset(a) == multiset(b)
    ensures InvalidIn(a) == InvalidIn(b)
    ensures multiset(InterruptedOf(a, markedId)) == multiset(InterruptedOf(b, markedId))
    decreases |a|
  {
    hide InterruptedOf, InterruptedAt, InvalidIn;
    if a == [] {
      assert |multiset(b)| == 0;
      assert a == b;
    } else {
      var e := a[|a| - 1];
      assert a == a[..|a| - 1] + [e];
      assert e in multiset(b);
      var k :| 0 <= k < |b| && b[k] == e;
      var rest := b[..k] + b[k + 1..];
      assert b == b[..k] + [e] + b[k + 1..];
      assert multiset(a[..|a| - 1]) == multiset(a) - multiset{e};
      assert multiset(rest) == multiset(b) - multiset{e};
      CountsFollowMultiset(a[..|a| - 1], rest, markedId);
      InterruptedLast(a[..|a| - 1], e, markedId);
      InvalidLast(a[..|a| - 1], e);
      InvalidWithout(b, k);
      InterruptedWithout(b, k, markedId);
    }
  }

  lemma InvalidLast(entries: seq<Entry>, e: Entry)
    ensures InvalidIn(entries + [e]) == InvalidIn(entries) + if e.Invalid? then 1 else 0
  {
    assert (entries + [e])[..|entries|] == entries;
  }

  lemma {:induction false} InvalidWithout(b: seq<Entry>, k: nat)
    requires k < |b|
    ensures InvalidIn(b) == InvalidIn(b[..k] + b[k + 1..]) + if b[k].Invalid? then 1 else 0
  {
    var last := |b| - 1;
    if k == last {
      assert b[..k] + b[k + 1..] == b[..last];
    } else {
      InvalidWithout(b[..last], k);
      assert (b[..k] + b[k + 1..])[..last - 1] == b[..last][..k] + b[..last][k + 1..];
    }
  }

  // What one entry adds to the interrupted records.
  function InterruptedAt(e: Entry, markedId: Option<string>): seq<Record> {
    if e.Loaded? && !IsCandidate(e.record) && LeftInFlight(e.record, markedId) then [e.record] else []
  }

  lemma InterruptedLast(entries: seq<Entry>, e: Entry, markedId: Option<string>)
    ensures InterruptedOf(entries + [e], markedId) == InterruptedOf(entries, markedId) + InterruptedAt(e, markedId)
  {
    assert (entries + [e])[..|entries|] == entries;
  }

  lemma {:induction false} InterruptedWithout(b: seq<Entry>, k: nat, markedId: Option<string>)
    requires k < |b|
    ensures multiset(InterruptedOf(b, markedId))
            == multiset(InterruptedOf(b[..k] + b[k + 1..], markedId)) + multiset(InterruptedAt(b[k], markedId))
  {
    hide InterruptedOf, InterruptedAt;
    var last := |b| - 1;
    var front, e := b[..last], b[last];
    assert b == front + [e];
    InterruptedLast(front, e, markedId);
    if k == last {
      assert b[..k] + b[k + 1..] == front;
    } else {
      InterruptedWithout(front, k, markedId);
      assert b[..k] + b[k + 1..] == (front[..k] + front[k + 1..]) + [e];
      InterruptedLast(front[..k] + front[k + 1..], e, markedId);
    }
  }

  lemma {:induction false} CandidateMember(entries: seq<Entry>, c: Candidate)
    ensures c in CandidatesOf(entries) <==> Loaded(c.record, c.updatedAt) in entries && IsCandidate(c.record)
  {
    hide IsCandidate;
    if entries != [] {
      var e := entries[|entries| - 1];
      assert entries == entries[..|entries| - 1] + [e];
      CandidateMember(entries[..|entries| - 1], c);
    }
  }

  // The operation found waits for its verification, no waiting one was updated later,
  // and of those updated at the same time none has a smaller id.
  lemma FirstIs(entries: seq<Entry>, c: Candidate)
    ensures IsFirst(c, CandidatesOf(entries)) <==>
            && Loaded(c.record, c.updatedAt) in entries && c.record.state in {AwaitingReboot, VerifyingBoot}
            && forall record, at :: Loaded(record, at) in entries && record.state in {AwaitingReboot, VerifyingBoot} ==>
                 && !StringLess(c.updatedAt, at)
                 && (at == c.updatedAt ==> !StringLess(record.contract.operationId, c.record.contract.operationId))
  {
    hide CandidatesOf, StringLess;
    CandidateMember(entries, c);
    forall record, at
      ensures Candidate(record, at) in CandidatesOf(entries) <==>
              Loaded(record, at) in entries && record.state in {AwaitingReboot, VerifyingBoot}
      ensures Precedes(c, Candidate(record, at)) <==>
              && !StringLess(c.updatedAt, at)
              && (at == c.updatedAt ==> !StringLess(record.contract.operationId, c.record.contract.operationId))
    {
      CandidateMember(entries, Candidate(record, at));
      StringOrder(c.updatedAt, at, at);
      StringOrder(at, c.updatedAt, at);
    }
    assert forall other :: other in CandidatesOf(entries) ==> other == Candidate(other.record, other.updatedAt);
  }

  // Interrupted is what was left while downloading, in its snapshot or while applying,
  // and what is ready to reboot without the marker pointing at it.
  lemma {:induction false} InterruptedAre(entries: seq<Entry>, markedId: Option<string>, r: Record)
    ensures r in InterruptedOf(entries, markedId) <==>
            && (exists at :: Loaded(r, at) in entries)
            && (|| r.state in {Downloading, Snapshotting, Applying, ApplyingOffline}
                || (r.state == ReadyToReboot && markedId != Some(r.contract.operationId)))
  {
    if entries != [] {
      var front, e := entries[..|entries| - 1], entries[|entries| - 1];
      assert entries == front + [e];
      InterruptedAre(front, markedId, r);
      assert forall at :: Loaded(r, at) in entries <==> Loaded(r, at) in front || e == Loaded(r, at);
      assert e.Loaded? ==> e == Loaded(e.record, e.updatedAt);
    }
  }

  // Every unusable entry is counted once.
  lemma {:induction false} InvalidAre(entries: seq<Entry>)
    ensures InvalidIn(entries) == |set k | 0 <= k < |entries| && entries[k].Invalid?|
  {
    if entries != [] {
      var n := |entries| - 1;
      InvalidAre(entries[..n]);
      var all, before := set k | 0 <= k < |entries| && entries[k].Invalid?, set k | 0 <= k < n && entries[..n][k].Invalid?;
      assert all == before + if entries[n].Invalid? then {n} else {};
    }
  }

  lemma SameCandidates(a: seq<Entry>, b: seq<Entry>, c: Candidate)
    requires multiset(a) == multiset(b)
    ensures c in CandidatesOf(a) <==> c in CandidatesOf(b)
  {
    hide CandidatesOf, IsCandidate;
    var e := Loaded(c.record, c.updatedAt);
    CandidateMember(a, c);
    CandidateMember(b, c);
    assert e in a <==> e in multiset(a);
    assert e in b <==> e in multiset(b);
  }

  // The outcome does not depend on the order of the directory.
  lemma ScanIgnoresOrder(a: seq<Entry>, b: seq<Entry>, markedId: Option<string>, s: Candidate, t: Candidate)
    requires multiset(a) == multiset(b) && DistinctIds(a)
    ensures InvalidIn(a) == InvalidIn(b)
    ensures multiset(InterruptedOf(a, markedId)) == multiset(InterruptedOf(b, markedId))
    ensures CandidatesOf(a) == [] <==> CandidatesOf(b) == []
    ensures IsFirst(s, CandidatesOf(a)) && IsFirst(t, CandidatesOf(b)) ==> s == t
  {
    hide Precedes, CandidatesOf, IsCandidate, InterruptedOf, InvalidIn;
    CountsFollowMultiset(a, b, markedId);
    if CandidatesOf(a) != [] {
      SameCandidates(a, b, CandidatesOf(a)[0]);
    }
    if CandidatesOf(b) != [] {
      SameCandidates(a, b, CandidatesOf(b)[0]);
    }
    if IsFirst(s, CandidatesOf(a)) && IsFirst(t, CandidatesOf(b)) {
      SameCandidates(a, b, s);
      SameCandidates(a, b, t);
      PrecedesTotal(s, t);
      CandidateMember(a, s);
      CandidateMember(a, t);
      assert SameId(Loaded(s.record, s.updatedAt), Loaded(t.record, t.updatedAt));
    }
  }
}
