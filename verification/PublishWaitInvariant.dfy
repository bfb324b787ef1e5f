/** The inductive invariant of the publish/wait protocol, one conjunct at a time. */
module PublishWaitInvariant {
  import opened Wrappers
  import opened PublishWait

  /** How often slot i was published in a stretch of the log. */
  function Count(log: seq<nat>, i: nat): nat { multiset(log)[i] }

  // ----------------------------------------------------------------- mutual exclusion

  predicate HoldsCondition(pc: Pc) {
    || pc.SetBumpSlot? || pc.SetBumpTotal? || pc.SetNotify? || pc.SetUnlockCondition?
    || pc.WaitSnapshot? || pc.WaitTest? || pc.WaitDecide? || pc.WaitScan? || pc.WaitUnlock?
  }

  predicate HoldsData(pc: Pc, i: nat) {
    (pc.SetWrite? || pc.SetUnlockData? || pc.GetCopy? || pc.GetUnlock?) && pc.index == i
  }

  /** A mutex is owned by exactly the thread whose program counter is inside it. */
  ghost predicate Locks(s: State)
    requires Shape(s)
  {
    && (forall t :: s.conditionOwner == Some(t) <==> t in s.threads && HoldsCondition(s.threads[t].pc))
    && (forall i, t :: 0 <= i < |s.dataOwner| ==>
          (s.dataOwner[i] == Some(t) <==> t in s.threads && HoldsData(s.threads[t].pc, i)))
  }

  // ------------------------------------------------------------------------- counters

  /** The owner of the condition mutex is between its two increments. */
  ghost predicate BetweenBumps(s: State) {
    && s.conditionOwner.Some?
    && s.conditionOwner.value in s.threads
    && s.threads[s.conditionOwner.value].pc.SetBumpTotal?
  }

  /** The counters stand for the log. */
  ghost predicate Counters(s: State)
    requires Shape(s)
  {
    && (forall k :: 0 <= k < |s.log| ==> s.log[k] < |s.counts|)
    && (forall i :: 0 <= i < |s.counts| ==> s.counts[i] == Count(s.log, i))
    && |s.log| == s.total + if BetweenBumps(s) then 1 else 0
  }

  // -------------------------------------------------------------------- wait snapshots

  predicate HasSnapshot(pc: Pc) {
    pc.WaitTest? || pc.WaitParked? || pc.WaitRelock? || pc.WaitDecide? || pc.WaitScan? || pc.WaitUnlock?
  }

  function WatchOf(pc: Pc): Watch
    requires HasSnapshot(pc)
  {
    if pc.WaitScan? then AnySlot else pc.watch
  }

  /** A snapshot is what the counters said when the log was as long as its mark. */
  ghost predicate SnapshotOk(log: seq<nat>, size: nat, w: Watch, snap: Snapshot) {
    && snap.mark <= |log|
    && match w
       case Slot(i) => snap.count == Count(log[..snap.mark], i)
       case AnySlot =>
         && snap.count == snap.mark
         && |snap.counts| == size
         && forall i :: 0 <= i < size ==> snap.counts[i] == Count(log[..snap.mark], i)
  }

  /** What the program counter of a waiting thread says about the log. */
  ghost predicate WaitOk(s: State, pc: Pc)
    requires Shape(s) && PcInBounds(pc, |s.counts|)
  {
    && (HasSnapshot(pc) ==> SnapshotOk(s.log, |s.counts|, WatchOf(pc), pc.snap))
    && match pc
       case WaitDecide(w, snap) => snap.count != Watched(s, w)
       case WaitScan(snap, k, m) =>
         && |s.log| == snap.mark + 1
         && m == if s.log[snap.mark] < k then s.log[snap.mark] else -1
       case WaitUnlock(Slot(i), snap, r) => r == i && s.counts[i] == snap.count + 1
       case WaitUnlock(AnySlot, snap, r) => |s.log| == snap.mark + 1 && r == s.log[snap.mark]
       case _ => true
  }

  ghost predicate Waits(s: State)
    requires Shape(s)
  {
    forall t :: t in s.threads ==> WaitOk(s, s.threads[t].pc)
  }

  // ------------------------------------------------------------------- parked threads

  ghost predicate NotificationDue(s: State) {
    && s.conditionOwner.Some?
    && s.conditionOwner.value in s.threads
    && var pc := s.threads[s.conditionOwner.value].pc; pc.SetBumpTotal? || pc.SetNotify?
  }

  /** Nobody sleeps through an update, unless its setter is about to notify. */
  ghost predicate NoLostWakeup(s: State)
    requires Shape(s)
  {
    NotificationDue(s) ||
    forall t :: t in s.threads && s.threads[t].pc.WaitParked? ==>
      s.threads[t].pc.snap.count == Watched(s, s.threads[t].pc.watch)
  }

  // ----------------------------------------------------------------------- data slots

  /** Setters that stored into slot i but did not count it yet. */
  ghost function Pending(threads: map<Tid, Thread>, i: nat): set<Tid> {
    set t | t in threads && Uncounted(threads[t].pc, i)
  }

  predicate Uncounted(pc: Pc, i: nat) {
    (pc.SetUnlockData? || pc.SetLockCondition? || pc.SetBumpSlot?) && pc.index == i
  }

  /** Each slot shows its latest write; a write is counted, or its setter is pending. */
  ghost predicate SlotOk(s: State, i: nat)
    requires Shape(s) && i < |s.counts|
  {
    && s.data[i] == s.writes[i][|s.writes[i]| - 1]
    && |s.writes[i]| - 1 == s.counts[i] + |Pending(s.threads, i)|
  }

  ghost predicate Slots(s: State)
    requires Shape(s)
  {
    forall i :: 0 <= i < |s.counts| ==> SlotOk(s, i)
  }

  // -------------------------------------------------------------- histories of threads

  ghost predicate ReportsOk(log: seq<nat>, th: Thread) {
    && (forall k :: 0 <= k < |th.reports| ==>
          th.reports[k].position < |log| && th.reports[k].index == log[th.reports[k].position])
    && (forall j, k :: 0 <= j < k < |th.reports| ==> th.reports[j].position < th.reports[k].position)
    && (HasSnapshot(th.pc) ==> forall k :: 0 <= k < |th.reports| ==> th.reports[k].position < th.pc.snap.mark)
  }

  ghost predicate SeenOk(counts: seq<nat>, th: Thread) {
    |th.seen| == |counts| && forall i :: 0 <= i < |counts| ==> th.seen[i] <= counts[i]
  }

  ghost predicate Histories(s: State)
    requires Shape(s)
  {
    forall t :: t in s.threads ==> ReportsOk(s.log, s.threads[t]) && SeenOk(s.counts, s.threads[t])
  }

  /** A value about to be returned by get is the version of the slot it claims to be, and no
      older than what the thread saw published before. */
  ghost predicate ReadOk(s: State, th: Thread)
    requires Shape(s) && PcInBounds(th.pc, |s.counts|) && |th.seen| == |s.counts|
  {
    match th.pc
    case GetUnlock(i, v, version) =>
      version < |s.writes[i]| && v == s.writes[i][version] && th.seen[i] <= version
    case _ => true
  }

  ghost predicate Reads(s: State)
    requires Shape(s)
  {
    forall t :: t in s.threads ==> ReadOk(s, s.threads[t])
  }

  ghost predicate Inv(s: State) {
    && Shape(s) && Locks(s) && Counters(s) && Waits(s) && NoLostWakeup(s)
    && Slots(s) && Histories(s) && Reads(s)
    && !s.exit.Corrupt?
  }

  // ---------------------------------------------------------------------- preservation

  /** A step changes the program counter of its own thread only, except that notify_all
      wakes the parked ones. */
  lemma OthersKept(s: State, t: Tid, l: Label, u: Tid)
    requires Shape(s) && Enabled(s, t, l) && u in s.threads && u != t
    ensures u in Next(s, t, l).threads
    ensures Next(s, t, l).threads[u] == s.threads[u] || Next(s, t, l).threads[u] == Woken(s.threads[u])
  {
  }

  lemma ArraysKept(s: State, t: Tid, l: Label)
    requires Shape(s) && Enabled(s, t, l)
    ensures var s' := Next(s, t, l);
      && s'.threads.Keys == s.threads.Keys
      && |s'.data| == |s'.counts| == |s'.dataOwner| == |s'.writes| == |s.counts|
      && forall i :: 0 <= i < |s'.writes| ==> |s'.writes[i]| > 0
  {
  }

  lemma RunPcInBounds(s: State, t: Tid)
    requires Shape(s) && Enabled(s, t, Run)
    ensures t in Next(s, t, Run).threads && PcInBounds(Next(s, t, Run).threads[t].pc, |s.counts|)
  {
    if HasSnapshot(s.threads[t].pc) {
      WaitPcInBounds(s, t);
    } else {
      assert PcInBounds(s.threads[t].pc, |s.counts|);
    }
  }

  lemma WaitPcInBounds(s: State, t: Tid)
    requires Shape(s) && Enabled(s, t, Run) && HasSnapshot(s.threads[t].pc)
    ensures t in Next(s, t, Run).threads && PcInBounds(Next(s, t, Run).threads[t].pc, |s.counts|)
  {
    assert PcInBounds(s.threads[t].pc, |s.counts|);
  }

  lemma OwnPcInBounds(s: State, t: Tid, l: Label)
    requires Shape(s) && Enabled(s, t, l)
    ensures t in Next(s, t, l).threads && PcInBounds(Next(s, t, l).threads[t].pc, |s.counts|)
  {
    match l
    case Begin(op) =>
    case Spurious =>
    case Run => RunPcInBounds(s, t);
  }

  lemma OwnSeenKept(s: State, t: Tid, l: Label)
    requires Shape(s) && Enabled(s, t, l)
    ensures t in Next(s, t, l).threads && |Next(s, t, l).threads[t].seen| == |s.counts|
  {
  }

  lemma ShapeKept(s: State, t: Tid, l: Label)
    requires Shape(s) && Enabled(s, t, l)
    ensures Shape(Next(s, t, l)) && |Next(s, t, l).counts| == |s.counts|
    ensures Next(s, t, l).threads.Keys == s.threads.Keys
  {
    ArraysKept(s, t, l);
    OwnPcInBounds(s, t, l);
    OwnSeenKept(s, t, l);
    var s' := Next(s, t, l);
    forall u | u in s'.threads
      ensures PcInBounds(s'.threads[u].pc, |s.counts|) && |s'.threads[u].seen| == |s.counts|
    {
      assert u in s'.threads.Keys;
      if u != t { OthersKept(s, t, l, u); }
    }
  }

  /** The mutexes change hands exactly where the program counter enters or leaves them. */
  lemma ConditionMutexEffect(s: State, t: Tid, l: Label)
    requires Shape(s) && Enabled(s, t, l)
    ensures t in Next(s, t, l).threads
    ensures
      var before, after := HoldsCondition(s.threads[t].pc), HoldsCondition(Next(s, t, l).threads[t].pc);
      Next(s, t, l).conditionOwner ==
      if before && !after then None else if !before && after then Some(t) else s.conditionOwner
    ensures HoldsCondition(Next(s, t, l).threads[t].pc) ==>
      HoldsCondition(s.threads[t].pc) || s.conditionOwner == None
  {
  }

  lemma DataMutexEffect(s: State, t: Tid, l: Label, i: nat)
    requires Shape(s) && Enabled(s, t, l) && i < |s.dataOwner|
    ensures t in Next(s, t, l).threads && i < |Next(s, t, l).dataOwner|
    ensures
      var before, after := HoldsData(s.threads[t].pc, i), HoldsData(Next(s, t, l).threads[t].pc, i);
      Next(s, t, l).dataOwner[i] ==
      if before && !after then None else if !before && after then Some(t) else s.dataOwner[i]
    ensures HoldsData(Next(s, t, l).threads[t].pc, i) ==>
      HoldsData(s.threads[t].pc, i) || s.dataOwner[i] == None
  {
  }

  lemma ConditionMutexKept(s: State, t: Tid, l: Label, u: Tid)
    requires Shape(s) && Enabled(s, t, l) && Locks(s)
    ensures var s' := Next(s, t, l);
      s'.conditionOwner == Some(u) <==> u in s'.threads && HoldsCondition(s'.threads[u].pc)
  {
    ArraysKept(s, t, l);
    ConditionMutexEffect(s, t, l);
    assert s.conditionOwner == Some(t) <==> HoldsCondition(s.threads[t].pc);
    assert s.conditionOwner == Some(u) <==> u in s.threads && HoldsCondition(s.threads[u].pc);
    assert u in Next(s, t, l).threads.Keys <==> u in s.threads.Keys;
    if u in s.threads && u != t { OthersKept(s, t, l, u); }
  }

  lemma DataMutexKept(s: State, t: Tid, l: Label, i: nat, u: Tid)
    requires Shape(s) && Enabled(s, t, l) && Locks(s) && i < |s.dataOwner|
    ensures var s' := Next(s, t, l);
      i < |s'.dataOwner| && (s'.dataOwner[i] == Some(u) <==> u in s'.threads && HoldsData(s'.threads[u].pc, i))
  {
    ArraysKept(s, t, l);
    DataMutexEffect(s, t, l, i);
    assert s.dataOwner[i] == Some(t) <==> HoldsData(s.threads[t].pc, i);
    assert s.dataOwner[i] == Some(u) <==> u in s.threads && HoldsData(s.threads[u].pc, i);
    assert u in Next(s, t, l).threads.Keys <==> u in s.threads.Keys;
    if u in s.threads && u != t { OthersKept(s, t, l, u); }
  }

  lemma LocksKept(s: State, t: Tid, l: Label)
    requires Shape(s) && Enabled(s, t, l) && Locks(s)
    ensures Shape(Next(s, t, l)) && Locks(Next(s, t, l))
  {
    ShapeKept(s, t, l);
    var s' := Next(s, t, l);
    forall u ensures s'.conditionOwner == Some(u) <==> u in s'.threads && HoldsCondition(s'.threads[u].pc) {
      ConditionMutexKept(s, t, l, u);
    }
    forall i, u | 0 <= i < |s'.dataOwner|
      ensures s'.dataOwner[i] == Some(u) <==> u in s'.threads && HoldsData(s'.threads[u].pc, i)
    {
      DataMutexKept(s, t, l, i, u);
    }
  }

  /** Only the two increments of a setter change the log and the counters. */
  lemma CounterEffect(s: State, t: Tid, l: Label)
    requires Shape(s) && Enabled(s, t, l)
    ensures var s', pc := Next(s, t, l), s.threads[t].pc;
      && s'.log == (if pc.SetBumpSlot? then s.log + [pc.index] else s.log)
      && s'.counts == (if pc.SetBumpSlot? then s.counts[pc.index := s.counts[pc.index] + 1] else s.counts)
      && s'.total == (if pc.SetBumpTotal? then s.total + 1 else s.total)
      && t in s'.threads
      && (s'.threads[t].pc.SetBumpTotal? <==> pc.SetBumpSlot?)
  {
  }

  lemma CountersKept(s: State, t: Tid, l: Label)
    requires Shape(s) && Enabled(s, t, l) && Locks(s) && Counters(s)
    ensures Shape(Next(s, t, l)) && Counters(Next(s, t, l))
  {
    LocksKept(s, t, l);
    ConditionMutexEffect(s, t, l);
    CounterEffect(s, t, l);
    var s' := Next(s, t, l);
    var pc := s.threads[t].pc;
    assert BetweenBumps(s') <==> pc.SetBumpSlot? || (BetweenBumps(s) && !pc.SetBumpTotal?) by {
      if s.conditionOwner.Some? && s.conditionOwner.value != t { OthersKept(s, t, l, s.conditionOwner.value); }
    }
  }

  // A snapshot stays true: the log only grows behind its mark.
  lemma SnapshotKept(log: seq<nat>, log': seq<nat>, size: nat, w: Watch, snap: Snapshot)
    requires log <= log' && SnapshotOk(log, size, w, snap)
    ensures SnapshotOk(log', size, w, snap)
  {
    assert log'[..snap.mark] == log[..snap.mark];
  }

  lemma FreshSnapshot(s: State, w: Watch)
    requires Shape(s) && Counters(s) && !BetweenBumps(s) && WatchInBounds(w, |s.counts|)
    ensures SnapshotOk(s.log, |s.counts|, w, TakeSnapshot(s, w))
  {
    assert s.log[..|s.log|] == s.log;
  }

  /** When exactly one entry followed the mark, the counts differ in that entry only. */
  lemma OneEntry(log: seq<nat>, mark: nat, i: nat)
    requires |log| == mark + 1
    ensures Count(log, i) == Count(log[..mark], i) + if log[mark] == i then 1 else 0
  {
    assert log == log[..mark] + [log[mark]];
  }

  lemma DecisionOk(s: State, t: Tid)
    requires Shape(s) && Enabled(s, t, Run) && Locks(s) && Counters(s) && Waits(s)
    requires s.threads[t].pc.WaitDecide?
    ensures Shape(Next(s, t, Run)) && t in Next(s, t, Run).threads
    ensures WaitOk(Next(s, t, Run), Next(s, t, Run).threads[t].pc)
  {
    ShapeKept(s, t, Run);
  }

  lemma ScanRoundOk(s: State, t: Tid)
    requires Shape(s) && Enabled(s, t, Run) && Counters(s) && Waits(s)
    requires s.threads[t].pc.WaitScan?
    ensures Shape(Next(s, t, Run)) && t in Next(s, t, Run).threads
    ensures WaitOk(Next(s, t, Run), Next(s, t, Run).threads[t].pc)
    ensures Next(s, t, Run).exit == Running
  {
    ShapeKept(s, t, Run);
    var WaitScan(snap, k, m) := s.threads[t].pc;
    if k < |s.counts| { OneEntry(s.log, snap.mark, k); }
  }

  lemma SnapshotsAreTaken(s: State, t: Tid, l: Label)
    requires Shape(s) && Enabled(s, t, l)
    requires !HasSnapshot(s.threads[t].pc) && !s.threads[t].pc.WaitSnapshot?
    ensures t in Next(s, t, l).threads && !HasSnapshot(Next(s, t, l).threads[t].pc)
  {
  }

  lemma LoopRoundOk(s: State, t: Tid, l: Label)
    requires Shape(s) && Enabled(s, t, l) && Locks(s) && Counters(s) && Waits(s)
    requires var pc := s.threads[t].pc; pc.WaitSnapshot? || pc.WaitTest? || pc.WaitParked? || pc.WaitRelock?
    ensures Shape(Next(s, t, l)) && t in Next(s, t, l).threads
    ensures WaitOk(Next(s, t, l), Next(s, t, l).threads[t].pc)
  {
    ShapeKept(s, t, l);
    if s.threads[t].pc.WaitSnapshot? { FreshSnapshot(s, s.threads[t].pc.watch); }
  }

  lemma OwnWaitOk(s: State, t: Tid, l: Label)
    requires Shape(s) && Enabled(s, t, l) && Locks(s) && Counters(s) && Waits(s)
    ensures Shape(Next(s, t, l)) && t in Next(s, t, l).threads
    ensures WaitOk(Next(s, t, l), Next(s, t, l).threads[t].pc)
  {
    var pc := s.threads[t].pc;
    if pc.WaitDecide? {
      DecisionOk(s, t);
    } else if pc.WaitScan? {
      ScanRoundOk(s, t);
    } else if pc.WaitUnlock? {
      ShapeKept(s, t, l);
    } else if HasSnapshot(pc) || pc.WaitSnapshot? {
      LoopRoundOk(s, t, l);
    } else {
      ShapeKept(s, t, l);
      SnapshotsAreTaken(s, t, l);
    }
  }

  lemma WaitsKept(s: State, t: Tid, l: Label)
    requires Shape(s) && Enabled(s, t, l) && Locks(s) && Counters(s) && Waits(s)
    ensures Shape(Next(s, t, l)) && Waits(Next(s, t, l))
  {
    ShapeKept(s, t, l);
    CounterEffect(s, t, l);
    OwnWaitOk(s, t, l);
    var s' := Next(s, t, l);
    forall u | u in s'.threads ensures WaitOk(s', s'.threads[u].pc) {
      assert u in s'.threads.Keys;
      if u != t {
        OthersKept(s, t, l, u);
        var pc := s.threads[u].pc;
        if HasSnapshot(pc) { SnapshotKept(s.log, s'.log, |s.counts|, WatchOf(pc), pc.snap); }
      }
    }
  }

  // -- nobody sleeps through an update

  /** notify_all leaves nobody parked. */
  lemma NotifyWakes(s: State, t: Tid, u: Tid)
    requires Shape(s) && Enabled(s, t, Run) && s.threads[t].pc.SetNotify? && u in s.threads
    ensures u in Next(s, t, Run).threads && !Next(s, t, Run).threads[u].pc.WaitParked?
  {
  }

  /** A thread that parks saw its counter unchanged. */
  lemma ParkingOk(s: State, t: Tid, l: Label)
    requires Shape(s) && Enabled(s, t, l)
    ensures Shape(Next(s, t, l)) && t in Next(s, t, l).threads
    ensures var s' := Next(s, t, l); s'.threads[t].pc.WaitParked? ==>
      s'.threads[t].pc.snap.count == Watched(s', s'.threads[t].pc.watch)
  {
    ShapeKept(s, t, l);
  }

  lemma NotificationEffect(s: State, t: Tid, l: Label)
    requires Shape(s) && Enabled(s, t, l) && Locks(s)
    ensures var pc := s.threads[t].pc;
      NotificationDue(Next(s, t, l)) <==>
      pc.SetBumpSlot? || pc.SetBumpTotal? || (NotificationDue(s) && s.conditionOwner != Some(t))
  {
    ConditionMutexEffect(s, t, l);
    if s.conditionOwner.Some? && s.conditionOwner.value != t { OthersKept(s, t, l, s.conditionOwner.value); }
  }

  lemma NoLostWakeupKept(s: State, t: Tid, l: Label)
    requires Shape(s) && Enabled(s, t, l) && Locks(s) && NoLostWakeup(s)
    ensures Shape(Next(s, t, l)) && NoLostWakeup(Next(s, t, l))
  {
    ShapeKept(s, t, l);
    NotificationEffect(s, t, l);
    CounterEffect(s, t, l);
    ParkingOk(s, t, l);
    var s' := Next(s, t, l);
    if !NotificationDue(s') {
      forall u | u in s'.threads && s'.threads[u].pc.WaitParked?
        ensures s'.threads[u].pc.snap.count == Watched(s', s'.threads[u].pc.watch)
      {
        assert u in s'.threads.Keys;
        if u != t {
          OthersKept(s, t, l, u);
          if s.threads[t].pc.SetNotify? { NotifyWakes(s, t, u); }
        }
      }
    }
  }

  // -- every write is counted once

  lemma OwnUncounted(s: State, t: Tid, l: Label, i: nat)
    requires Shape(s) && Enabled(s, t, l) && i < |s.counts|
    ensures t in Next(s, t, l).threads && i < |Next(s, t, l).writes| && i < |Next(s, t, l).data|
    ensures var s', pc := Next(s, t, l), s.threads[t].pc;
      && (Uncounted(s'.threads[t].pc, i) <==>
          (pc.SetWrite? && pc.index == i) || (Uncounted(pc, i) && !pc.SetBumpSlot?))
      && s'.writes[i] == (if pc.SetWrite? && pc.index == i then s.writes[i] + [pc.datum] else s.writes[i])
      && s'.data[i] == (if pc.SetWrite? && pc.index == i then pc.datum else s.data[i])
  {
  }

  lemma PendingEffect(s: State, t: Tid, l: Label, i: nat)
    requires Shape(s) && Enabled(s, t, l) && i < |s.counts|
    ensures var pc := s.threads[t].pc;
      Pending(Next(s, t, l).threads, i) ==
      if pc.SetWrite? && pc.index == i then Pending(s.threads, i) + {t}
      else if pc.SetBumpSlot? && pc.index == i then Pending(s.threads, i) - {t}
      else Pending(s.threads, i)
  {
    OwnUncounted(s, t, l, i);
    ArraysKept(s, t, l);
    var s' := Next(s, t, l);
    forall u | u != t
      ensures u in Pending(s'.threads, i) <==> u in Pending(s.threads, i)
    {
      assert u in s'.threads.Keys <==> u in s.threads.Keys;
      if u in s.threads { OthersKept(s, t, l, u); }
    }
  }

  lemma PendingCount(s: State, t: Tid, l: Label, i: nat)
    requires Shape(s) && Enabled(s, t, l) && i < |s.counts|
    ensures var pc := s.threads[t].pc;
      |Pending(Next(s, t, l).threads, i)| == |Pending(s.threads, i)| +
      if pc.SetWrite? && pc.index == i then 1 else if pc.SetBumpSlot? && pc.index == i then -1 else 0
  {
    PendingEffect(s, t, l, i);
    assert t in Pending(s.threads, i) <==> Uncounted(s.threads[t].pc, i);
  }

  lemma SlotKept(s: State, t: Tid, l: Label, i: nat)
    requires Shape(s) && Enabled(s, t, l) && Slots(s) && i < |s.counts|
    ensures Shape(Next(s, t, l)) && i < |Next(s, t, l).counts|
    ensures SlotOk(Next(s, t, l), i)
  {
    ShapeKept(s, t, l);
    CounterEffect(s, t, l);
    OwnUncounted(s, t, l, i);
    PendingCount(s, t, l, i);
    assert SlotOk(s, i);
  }

  lemma SlotsKept(s: State, t: Tid, l: Label)
    requires Shape(s) && Enabled(s, t, l) && Slots(s)
    ensures Shape(Next(s, t, l)) && Slots(Next(s, t, l))
  {
    ShapeKept(s, t, l);
    forall i | 0 <= i < |s.counts| ensures SlotOk(Next(s, t, l), i) {
      SlotKept(s, t, l, i);
    }
  }

  // -- histories

  /** Reports and seen counts change in a normal return of wait_for_update only. */
  lemma OwnHistoryEffect(s: State, t: Tid, l: Label)
    requires Shape(s) && Enabled(s, t, l)
    ensures t in Next(s, t, l).threads
    ensures var pc, th, th' := s.threads[t].pc, s.threads[t], Next(s, t, l).threads[t];
      && th'.reports == (if pc.WaitUnlock? && pc.watch.AnySlot? then th.reports + [Report(pc.snap.mark, pc.result)]
                         else th.reports)
      && th'.seen == (if pc.WaitUnlock? && pc.result >= 0 then th.seen[pc.result := s.counts[pc.result]]
                      else th.seen)
      && (HasSnapshot(th'.pc) ==>
            if pc.WaitSnapshot? then th'.pc.snap == TakeSnapshot(s, pc.watch)
            else HasSnapshot(pc) && th'.pc.snap == pc.snap)
  {
  }

  // What one thread remembers stays true while the log and the counts grow.
  lemma HistoryOutlives(log: seq<nat>, log': seq<nat>, counts: seq<nat>, counts': seq<nat>, th: Thread)
    requires log <= log' && ReportsOk(log, th) && SeenOk(counts, th)
    requires |counts'| == |counts| && forall i :: 0 <= i < |counts| ==> counts[i] <= counts'[i]
    ensures ReportsOk(log', th) && ReportsOk(log', Woken(th))
    ensures SeenOk(counts', th) && SeenOk(counts', Woken(th))
  {
  }

  lemma OwnHistoryOk(s: State, t: Tid, l: Label)
    requires Shape(s) && Enabled(s, t, l) && Waits(s) && Histories(s)
    ensures t in Next(s, t, l).threads
    ensures ReportsOk(s.log, Next(s, t, l).threads[t]) && SeenOk(s.counts, Next(s, t, l).threads[t])
  {
    assert WaitOk(s, s.threads[t].pc);
    OwnReportsOk(s, t, l);
    OwnHistoryEffect(s, t, l);
  }

  lemma OwnReportsOk(s: State, t: Tid, l: Label)
    requires Shape(s) && Enabled(s, t, l) && WaitOk(s, s.threads[t].pc) && ReportsOk(s.log, s.threads[t])
    ensures t in Next(s, t, l).threads && ReportsOk(s.log, Next(s, t, l).threads[t])
  {
    OwnHistoryEffect(s, t, l);
    var pc, th, th' := s.threads[t].pc, s.threads[t], Next(s, t, l).threads[t];
    if pc.WaitUnlock? && pc.watch.AnySlot? {
      assert th'.pc.Idle?;
      ReportAppended(s.log, th, th');
    } else {
      ReportsUnchanged(s.log, th, th');
    }
  }

  // A call of wait_for_update() returns: its report is the latest.
  lemma ReportAppended(log: seq<nat>, th: Thread, th': Thread)
    requires ReportsOk(log, th) && HasSnapshot(th.pc) && !HasSnapshot(th'.pc)
    requires th.pc.WaitUnlock? && th.pc.snap.mark < |log| && th.pc.result == log[th.pc.snap.mark]
    requires th'.reports == th.reports + [Report(th.pc.snap.mark, th.pc.result)]
    ensures ReportsOk(log, th')
  {
  }

  lemma ReportsUnchanged(log: seq<nat>, th: Thread, th': Thread)
    requires ReportsOk(log, th) && th'.reports == th.reports
    requires HasSnapshot(th'.pc) ==>
      th'.pc.snap.mark == |log| || (HasSnapshot(th.pc) && th'.pc.snap == th.pc.snap)
    ensures ReportsOk(log, th')
  {
  }

  lemma HistoriesKept(s: State, t: Tid, l: Label)
    requires Shape(s) && Enabled(s, t, l) && Waits(s) && Histories(s)
    ensures Shape(Next(s, t, l)) && Histories(Next(s, t, l))
  {
    ShapeKept(s, t, l);
    CounterEffect(s, t, l);
    OwnHistoryOk(s, t, l);
    var s' := Next(s, t, l);
    forall u | u in s'.threads ensures ReportsOk(s'.log, s'.threads[u]) && SeenOk(s'.counts, s'.threads[u]) {
      assert u in s'.threads.Keys;
      if u != t { OthersKept(s, t, l, u); }
      HistoryOutlives(s.log, s'.log, s.counts, s'.counts, if u == t then s'.threads[t] else s.threads[u]);
    }
  }

  // -- get

  lemma OwnReadOk(s: State, t: Tid, l: Label)
    requires Shape(s) && Enabled(s, t, l) && Slots(s) && Histories(s)
    ensures Shape(Next(s, t, l)) && t in Next(s, t, l).threads
    ensures ReadOk(Next(s, t, l), Next(s, t, l).threads[t])
  {
    ShapeKept(s, t, l);
    if s.threads[t].pc.GetCopy? { assert SlotOk(s, s.threads[t].pc.index); }
  }

  lemma ReadsKept(s: State, t: Tid, l: Label)
    requires Shape(s) && Enabled(s, t, l) && Slots(s) && Histories(s) && Reads(s)
    ensures Shape(Next(s, t, l)) && Reads(Next(s, t, l))
  {
    ShapeKept(s, t, l);
    OwnReadOk(s, t, l);
    var s' := Next(s, t, l);
    forall u | u in s'.threads ensures ReadOk(s', s'.threads[u]) {
      assert u in s'.threads.Keys;
      if u != t {
        OthersKept(s, t, l, u);
        assert ReadOk(s, s.threads[u]);
        if s.threads[u].pc.GetUnlock? { OwnUncounted(s, t, l, s.threads[u].pc.index); }
      }
    }
  }

  // -- all together

  lemma NeverCorrupt(s: State, t: Tid, l: Label)
    requires Shape(s) && Enabled(s, t, l) && Counters(s) && Waits(s)
    ensures !Next(s, t, l).exit.Corrupt?
  {
    if s.threads[t].pc.WaitScan? { ScanRoundOk(s, t); }
  }

  lemma InvKept(s: State, t: Tid, l: Label)
    requires Inv(s) && Enabled(s, t, l)
    ensures Inv(Next(s, t, l))
  {
    LocksKept(s, t, l);
    CountersKept(s, t, l);
    WaitsKept(s, t, l);
    NoLostWakeupKept(s, t, l);
    SlotsKept(s, t, l);
    HistoriesKept(s, t, l);
    ReadsKept(s, t, l);
    NeverCorrupt(s, t, l);
  }

  lemma InvInitially(s: State)
    requires Init(s)
    ensures Inv(s)
  {
    forall i | 0 <= i < |s.counts| ensures SlotOk(s, i) {
      assert Pending(s.threads, i) == {};
    }
  }

  lemma StepKeepsInv(s: State, s': State)
    requires Inv(s) && Step(s, s')
    ensures Inv(s')
  {
    var t: Tid, l: Label :| Takes(s, t, l, s');
    Taken(s, t, l, s');
    InvKept(s, t, l);
  }

  lemma {:induction false} InvOnRun(run: seq<State>)
    requires IsRun(run)
    ensures Inv(run[|run| - 1])
    decreases |run|
  {
    var last := |run| - 1;
    if last == 0 {
      InvInitially(run[0]);
    } else {
      InvOnRun(run[..last]);
      StepKeepsInv(run[last - 1], run[last]);
    }
  }

  /** Every reachable state satisfies the invariant. */
  lemma ReachableInv(s: State)
    requires Reachable(s)
    ensures Inv(s)
  {
    var run: seq<State> :| IsRun(run) && run[|run| - 1] == s;
    InvOnRun(run);
  }
}
