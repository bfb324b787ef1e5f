/** What the publish/wait protocol guarantees in every reachable state: for any number of
    threads and slots, any interleaving, and spurious wakeups. */
module PublishWaitProperties {
  import opened Wrappers
  import opened PublishWait
  import opened PublishWaitInvariant

  // ------------------------------------------------------------------ waking up

  /** Whenever the condition mutex is free, a thread that sleeps has missed nothing: the
      counter it watches still has the value it saw on entry. */
  lemma NobodySleepsThroughAnUpdate(s: State, t: Tid)
    requires Reachable(s) && s.conditionOwner == None
    requires t in s.threads && s.threads[t].pc.WaitParked?
    ensures Shape(s)
    ensures s.threads[t].pc.snap.count == Watched(s, s.threads[t].pc.watch)
  {
    ReachableInv(s);
  }

  // ------------------------------------------------------- counters and the log

  function Sum(counts: seq<nat>): nat {
    if counts == [] then 0 else counts[0] + Sum(counts[1..])
  }

  lemma {:induction false} SumOfZeros(counts: seq<nat>)
    requires forall i :: 0 <= i < |counts| ==> counts[i] == 0
    ensures Sum(counts) == 0
  {
    if counts == [] {
    } else {
      SumOfZeros(counts[1..]);
    }
  }

  lemma {:induction false} SumOfUpdate(counts: seq<nat>, i: nat, c: nat)
    requires i < |counts|
    ensures Sum(counts[i := c]) + counts[i] == Sum(counts) + c
  {
    var updated := counts[i := c];
    if i == 0 {
      assert updated[1..] == counts[1..];
    } else {
      assert updated[1..] == counts[1..][i - 1 := c];
      SumOfUpdate(counts[1..], i - 1, c);
    }
  }

  /** Counting every slot's entries counts every entry once. */
  lemma {:induction false} SlotCountsAddUp(log: seq<nat>, counts: seq<nat>)
    requires forall k :: 0 <= k < |log| ==> log[k] < |counts|
    requires forall i :: 0 <= i < |counts| ==> counts[i] == Count(log, i)
    ensures Sum(counts) == |log|
    decreases |log|
  {
    if log == [] {
      SumOfZeros(counts);
    } else {
      var rest, last := log[..|log| - 1], log[|log| - 1];
      assert log == rest + [last];
      SlotCountsAddUp(rest, counts[last := counts[last] - 1]);
      SumOfUpdate(counts, last, counts[last] - 1);
    }
  }

  /** Outside a setter's two increments the counters are exactly the published log: each
      slot's count is its number of entries, the total is their sum and the log's length. */
  lemma CountersRefineTheLog(s: State)
    requires Reachable(s) && !BetweenBumps(s)
    ensures Shape(s)
    ensures forall i :: 0 <= i < |s.counts| ==> s.counts[i] == Count(s.log, i)
    ensures s.total == |s.log| == Sum(s.counts)
  {
    ReachableInv(s);
    SlotCountsAddUp(s.log, s.counts);
  }

  // ------------------------------------------------------------- what waits return

  /** The two "horribly wrong" branches are dead code: no run reaches them. */
  lemma HorriblyWrongIsUnreachable(s: State, t: Tid)
    requires Reachable(s)
    ensures s.exit != Corrupt(t)
  {
    ReachableInv(s);
  }

  /** wait_for_update() about to return: its result is the one log entry published since its
      entry, the entry at the position of the initial total; never -1. */
  lemma WaitReturnsTheNextEntry(s: State, t: Tid, snap: Snapshot, r: int)
    requires Reachable(s) && t in s.threads && s.threads[t].pc == WaitUnlock(AnySlot, snap, r)
    ensures Shape(s)
    ensures |s.log| == s.total == snap.count + 1
    ensures 0 <= r < |s.counts| && s.log[snap.count] == r
  {
    ReachableInv(s);
    assert WaitOk(s, s.threads[t].pc);
  }

  /** What was published of w between a call's snapshot and now. */
  function PublishedSince(w: Watch, log: seq<nat>, mark: nat): nat
    requires mark <= |log|
  {
    match w
    case Slot(i) => Count(log[mark..], i)
    case AnySlot => |log| - mark
  }

  /** After the wait loop, both forms exit if and only if two or more updates of what they
      watch were published since their snapshot, and go on if and only if exactly one was. */
  lemma ExactMissDetection(s: State, t: Tid, w: Watch, snap: Snapshot)
    requires Reachable(s) && s.exit == Running
    requires t in s.threads && s.threads[t].pc == WaitDecide(w, snap)
    ensures snap.mark <= |s.log| && Shape(s) && Enabled(s, t, Run)
    ensures PublishedSince(w, s.log, snap.mark) >= 1
    ensures Next(s, t, Run).exit == Missed(t) <==> PublishedSince(w, s.log, snap.mark) >= 2
    ensures Next(s, t, Run).exit == Running <==> PublishedSince(w, s.log, snap.mark) == 1
  {
    ReachableInv(s);
    DecisionCounts(s, t, w, snap);
  }

  lemma DecisionCounts(s: State, t: Tid, w: Watch, snap: Snapshot)
    requires Shape(s) && Locks(s) && Counters(s) && Waits(s) && Enabled(s, t, Run)
    requires s.threads[t].pc == WaitDecide(w, snap)
    ensures snap.mark <= |s.log| && PublishedSince(w, s.log, snap.mark) >= 1
    ensures Next(s, t, Run).exit == Missed(t) <==> PublishedSince(w, s.log, snap.mark) >= 2
    ensures Next(s, t, Run).exit == Running <==> PublishedSince(w, s.log, snap.mark) == 1
  {
    assert WaitOk(s, s.threads[t].pc);
    assert s.log == s.log[..snap.mark] + s.log[snap.mark..];
  }

  /** Thread t goes from s to s' in n steps, alone. */
  ghost predicate RunsAlone(s: State, t: Tid, n: nat, s': State)
    decreases n
  {
    if n == 0 then s == s'
    else Shape(s) && Enabled(s, t, Run) && RunsAlone(Next(s, t, Run), t, n - 1, s')
  }

  lemma {:induction false} RunsAloneThen(s: State, t: Tid, n: nat, mid: State)
    requires RunsAlone(s, t, n, mid) && Shape(mid) && Enabled(mid, t, Run)
    ensures RunsAlone(s, t, n + 1, Next(mid, t, Run))
    decreases n
  {
    if n == 0 {
      assert RunsAlone(Next(mid, t, Run), t, 0, Next(mid, t, Run));
    } else {
      RunsAloneThen(Next(s, t, Run), t, n - 1, mid);
    }
  }

  /** Slot i was published once since the snapshot, no other slot was. */
  ghost predicate OnlyBumped(initial: seq<nat>, counts: seq<nat>, i: nat)
    requires |initial| == |counts|
  {
    && i < |counts| && counts[i] == initial[i] + 1
    && forall j :: 0 <= j < |counts| && j != i ==> counts[j] == initial[j]
  }

  /** One round of the scanning loop. */
  lemma ScanRoundEffect(s: State, t: Tid, snap: Snapshot, k: nat, m: int)
    requires Shape(s) && Enabled(s, t, Run) && s.threads[t].pc == WaitScan(snap, k, m)
    ensures |snap.counts| == |s.counts| && k <= |s.counts|
    ensures var s' := Next(s, t, Run);
      && Shape(s') && t in s'.threads
      && s'.data == s.data && s'.counts == s.counts && s'.total == s.total
      && if k == |s.counts| then s'.threads[t].pc == WaitUnlock(AnySlot, snap, m) && s'.exit == Running
         else
           var bumped, same := snap.counts[k] + 1 == s.counts[k], snap.counts[k] == s.counts[k];
           if same || (bumped && m == -1)
           then Enabled(s', t, Run) && s'.threads[t].pc == WaitScan(snap, k + 1, if bumped then k else m)
           else s'.exit == Corrupt(t)
  {
    ShapeKept(s, t, Run);
  }

  lemma ScanRoundOver(s: State, t: Tid, snap: Snapshot, k: nat, m: int, i: nat) returns (next: State)
    requires Shape(s) && Enabled(s, t, Run) && s.threads[t].pc == WaitScan(snap, k, m)
    requires |snap.counts| == |s.counts| && OnlyBumped(snap.counts, s.counts, i)
    requires m == if i < k then i else -1
    ensures next == Next(s, t, Run) && Shape(next) && t in next.threads && next.exit == Running
    ensures next.counts == s.counts && k <= |s.counts|
    ensures if k == |s.counts| then next.threads[t].pc == WaitUnlock(AnySlot, snap, i)
      else Enabled(next, t, Run) && next.threads[t].pc == WaitScan(snap, k + 1, if i < k + 1 then i else -1)
  {
    ScanRoundEffect(s, t, snap, k, m);
    next := Next(s, t, Run);
  }

  /** Once the miss check has passed, the scanning loop ends after one round per slot, and
      finds the slot of the one update. */
  lemma {:induction false} ScanFindsTheUpdate(s: State, t: Tid, snap: Snapshot, k: nat, m: int, i: nat)
    returns (s': State)
    requires Shape(s) && Enabled(s, t, Run) && s.threads[t].pc == WaitScan(snap, k, m)
    requires |snap.counts| == |s.counts| && OnlyBumped(snap.counts, s.counts, i)
    requires m == if i < k then i else -1
    ensures k <= |s.counts| && RunsAlone(s, t, |s.counts| - k + 1, s')
    ensures s'.exit == Running && t in s'.threads && s'.threads[t].pc == WaitUnlock(AnySlot, snap, i)
    decreases |s.counts| - k
  {
    var next := ScanRoundOver(s, t, snap, k, m, i);
    if k == |s.counts| {
      s' := next;
      assert RunsAlone(next, t, 0, s');
    } else {
      s' := ScanFindsTheUpdate(next, t, snap, k + 1, if i < k + 1 then i else -1, i);
    }
  }

  lemma DecisionGoesOn(s: State, t: Tid, snap: Snapshot)
    requires Shape(s) && Counters(s) && Locks(s) && Enabled(s, t, Run) && WaitOk(s, s.threads[t].pc)
    requires s.threads[t].pc == WaitDecide(AnySlot, snap) && |s.log| == snap.mark + 1
    ensures Shape(Next(s, t, Run)) && Enabled(Next(s, t, Run), t, Run)
    ensures Next(s, t, Run).threads[t].pc == WaitScan(snap, 0, -1) && Next(s, t, Run).counts == s.counts
  {
    ShapeKept(s, t, Run);
  }

  lemma TheOneEntryIsTheBump(s: State, t: Tid, snap: Snapshot)
    requires Shape(s) && Counters(s) && t in s.threads && WaitOk(s, s.threads[t].pc)
    requires s.threads[t].pc == WaitDecide(AnySlot, snap) && |s.log| == snap.mark + 1
    ensures |snap.counts| == |s.counts| && OnlyBumped(snap.counts, s.counts, s.log[snap.mark])
  {
    forall j | 0 <= j < |s.counts|
      ensures s.counts[j] == snap.counts[j] + if s.log[snap.mark] == j then 1 else 0
    {
      OneEntry(s.log, snap.mark, j);
    }
  }

  /** wait_for_update(), when exactly one update was published since its snapshot, goes on to
      return the slot of that update without waiting for anybody. */
  lemma SingleUpdateIsReturned(s: State, t: Tid, snap: Snapshot) returns (s': State)
    requires Reachable(s) && s.exit == Running
    requires t in s.threads && s.threads[t].pc == WaitDecide(AnySlot, snap)
    requires |s.log| == snap.mark + 1
    ensures RunsAlone(s, t, |s.counts| + 2, s')
    ensures s'.exit == Running && t in s'.threads
    ensures s'.threads[t].pc == WaitUnlock(AnySlot, snap, s.log[snap.mark])
  {
    ReachableInv(s);
    assert WaitOk(s, s.threads[t].pc);
    s' := DecideAndScan(s, t, snap);
  }

  lemma DecideAndScan(s: State, t: Tid, snap: Snapshot) returns (s': State)
    requires Shape(s) && Counters(s) && Locks(s) && Enabled(s, t, Run) && WaitOk(s, s.threads[t].pc)
    requires s.threads[t].pc == WaitDecide(AnySlot, snap) && |s.log| == snap.mark + 1
    ensures RunsAlone(s, t, |s.counts| + 2, s')
    ensures s'.exit == Running && t in s'.threads
    ensures s'.threads[t].pc == WaitUnlock(AnySlot, snap, s.log[snap.mark])
  {
    DecisionGoesOn(s, t, snap);
    TheOneEntryIsTheBump(s, t, snap);
    s' := ScanFindsTheUpdate(Next(s, t, Run), t, snap, 0, -1, s.log[snap.mark]);
  }

  // --------------------------------------------------------------- order of delivery

  /** `part` is `whole` with some entries left out. */
  ghost predicate Subsequence(part: seq<int>, whole: seq<nat>)
    decreases |whole|
  {
    if part == [] then true
    else if whole == [] then false
    else
      var p, w := part[..|part| - 1], whole[..|whole| - 1];
      (part[|part| - 1] == whole[|whole| - 1] && Subsequence(p, w)) || Subsequence(part, w)
  }

  function Indices(reports: seq<Report>): seq<int> {
    seq(|reports|, k requires 0 <= k < |reports| => reports[k].index)
  }

  lemma {:induction false} IncreasingPositionsAreASubsequence(reports: seq<Report>, log: seq<nat>)
    requires forall k :: 0 <= k < |reports| ==>
      reports[k].position < |log| && reports[k].index == log[reports[k].position]
    requires forall j, k :: 0 <= j < k < |reports| ==> reports[j].position < reports[k].position
    ensures Subsequence(Indices(reports), log)
    decreases |log|
  {
    if reports == [] {
    } else {
      var last := |reports| - 1;
      assert reports[last].position < |log|;
      var shorter := log[..|log| - 1];
      if reports[last].position == |log| - 1 {
        IncreasingPositionsAreASubsequence(reports[..last], shorter);
        assert Indices(reports)[..last] == Indices(reports[..last]);
      } else {
        assert forall k :: 0 <= k < |reports| ==> reports[k].position <= reports[last].position;
        IncreasingPositionsAreASubsequence(reports, shorter);
      }
    }
  }

  /** One consumer's successive returns of wait_for_update() are log entries at strictly
      increasing positions, so the indices it got are a subsequence of the published log:
      in order, and no update is delivered twice. */
  lemma DeliveryInOrderAtMostOnce(s: State, t: Tid)
    requires Reachable(s) && t in s.threads
    ensures forall j, k :: 0 <= j < k < |s.threads[t].reports| ==>
      s.threads[t].reports[j].position < s.threads[t].reports[k].position
    ensures Subsequence(Indices(s.threads[t].reports), s.log)
  {
    ReachableInv(s);
    IncreasingPositionsAreASubsequence(s.threads[t].reports, s.log);
  }

  // ------------------------------------------------------------------------ freshness

  /** Per slot, the writes done are those counted plus those of setters that have written but
      not counted yet, and the slot shows the latest. */
  lemma WritesAreCountedOrPending(s: State, i: nat)
    requires Reachable(s) && i < |s.counts|
    ensures Shape(s)
    ensures |s.writes[i]| - 1 == s.counts[i] + |Pending(s.threads, i)|
    ensures s.data[i] == s.writes[i][s.counts[i] + |Pending(s.threads, i)|]
  {
    ReachableInv(s);
    assert SlotOk(s, i);
  }

  /** get(i), called after a wait that reported slot i when its count was c, returns the datum
      of the c-th write to slot i or of a later one. */
  lemma GetIsFresh(s: State, t: Tid, i: nat, v: Datum, version: nat)
    requires Reachable(s) && t in s.threads && s.threads[t].pc == GetUnlock(i, v, version)
    ensures Shape(s) && i < |s.counts|
    ensures s.threads[t].seen[i] <= version < |s.writes[i]| && v == s.writes[i][version]
  {
    ReachableInv(s);
    assert ReadOk(s, s.threads[t]);
  }

  // ------------------------------------------------------------------------- deadlock

  /** No thread ever owns the condition mutex together with the mutex of a slot. */
  lemma MutexesAreNeverNested(s: State, t: Tid, i: nat)
    requires Reachable(s) && s.conditionOwner == Some(t) && i < |s.dataOwner|
    ensures s.dataOwner[i] != Some(t)
  {
    ReachableInv(s);
  }

  /** No thread can go on, other than by a new call or a spurious wakeup. */
  ghost predicate Stuck(s: State)
    requires Shape(s)
  {
    s.exit == Running && forall t :: t in s.threads ==> !Enabled(s, t, Run)
  }

  ghost predicate Resting(s: State, t: Tid)
    requires Shape(s) && t in s.threads
  {
    var pc := s.threads[t].pc;
    pc.Idle? || (pc.WaitParked? && pc.snap.count == Watched(s, pc.watch))
  }

  /** Deadlock freedom: the system comes to a halt only when every mutex is free and every
      thread is either done with its calls or sleeping with nothing published for it. */
  lemma OnlyQuietWaitersAreStuck(s: State)
    requires Reachable(s) && s.exit == Running
    ensures Shape(s)
    ensures Stuck(s) <==> forall t :: t in s.threads ==> Resting(s, t)
    ensures Stuck(s) ==> s.conditionOwner == None && forall i :: 0 <= i < |s.dataOwner| ==> s.dataOwner[i] == None
  {
    ReachableInv(s);
    if Stuck(s) {
      NoMutexHeldWhenStuck(s);
      forall t | t in s.threads ensures Resting(s, t) { StuckThreadRests(s, t); }
    }
  }

  lemma StuckThreadRests(s: State, t: Tid)
    requires Shape(s) && NoLostWakeup(s) && t in s.threads && !Enabled(s, t, Run) && s.exit == Running
    requires s.conditionOwner == None && forall i :: 0 <= i < |s.dataOwner| ==> s.dataOwner[i] == None
    ensures Resting(s, t)
  {
  }

  lemma NoMutexHeldWhenStuck(s: State)
    requires Inv(s) && Stuck(s)
    ensures s.conditionOwner == None
    ensures forall i :: 0 <= i < |s.dataOwner| ==> s.dataOwner[i] == None
  {
    forall t | t in s.threads
      ensures s.conditionOwner != Some(t)
      ensures forall i :: 0 <= i < |s.dataOwner| ==> s.dataOwner[i] != Some(t)
    {
      assert !Enabled(s, t, Run);
    }
  }
}
