/** The publish/wait protocol of ThreadsafeObject and SingletypeThreadsafeObject, as a
    labelled transition system.

    Every thread has a program counter; one step of the system is one step of one thread:
    taking or releasing a mutex, one assignment under a mutex, one test of the wait loop,
    one round of the scanning loop.  Any number of threads may run, each calling any
    operation on any slot at any time.  A thread blocked in condition_variable::wait is at
    WaitParked; notify_all moves every parked thread to WaitRelock, where it competes for the
    condition mutex again, and a spurious wakeup moves one parked thread there at any time
    (ISO/IEC 14882:2017, section 33.5).

    `log`, `writes`, the `reports`, `seen` and `gets` of a thread, and the `mark` of a snapshot are
    history variables: no step ever tests them. */
module PublishWait {
  import opened Wrappers

  type Tid = nat
  type Datum(!new)

  /** What a call of wait_for_update watches: one slot, or all of them. */
  datatype Watch = Slot(index: nat) | AnySlot

  /** What a waiting call remembers from its entry: the watched count and, when it watches
      every slot, all the counts.  `mark` is the length of the log at that moment. */
  datatype Snapshot = Snapshot(count: nat, counts: seq<nat>, mark: nat)

  datatype Operation =
    | Set(index: nat, datum: Datum)
    | Wait(watch: Watch)
    | Get(index: nat)

  datatype Pc =
    | Idle
    // set, first critical section: under the mutex of the slot
    | SetLockData(index: nat, datum: Datum)
    | SetWrite(index: nat, datum: Datum)
    | SetUnlockData(index: nat)
    // set, second critical section: under the condition mutex
    | SetLockCondition(index: nat)
    | SetBumpSlot(index: nat)
    | SetBumpTotal(index: nat)
    | SetNotify(index: nat)
    | SetUnlockCondition(index: nat)
    // both forms of wait_for_update
    | WaitLock(watch: Watch)
    | WaitSnapshot(watch: Watch)
    | WaitTest(watch: Watch, snap: Snapshot)
    | WaitParked(watch: Watch, snap: Snapshot)
    | WaitRelock(watch: Watch, snap: Snapshot)
    | WaitDecide(watch: Watch, snap: Snapshot)
    | WaitScan(snap: Snapshot, next: nat, modified: int)
    | WaitUnlock(watch: Watch, snap: Snapshot, result: int)
    // get
    | GetLock(index: nat)
    | GetCopy(index: nat)
    | GetUnlock(index: nat, value: Datum, version: nat)

  /** One normal return of wait_for_update(): the log position it stands for and the index
      it returned. */
  datatype Report = Report(position: nat, index: int)

  /** `seen[i]` is the count of slot i at this thread's latest normal wait that reported i;
      `gets` is what its calls of get returned. */
  datatype Thread = Thread(pc: Pc, reports: seq<Report>, seen: seq<nat>, gets: seq<Datum>)

  /** exit(-1) ends the process: after a missed message, or in a "horribly wrong" branch. */
  datatype Exit = Running | Missed(culprit: Tid) | Corrupt(culprit: Tid)

  datatype State = State(
    data: seq<Datum>,
    counts: seq<nat>,
    total: nat,
    dataOwner: seq<Option<Tid>>,
    conditionOwner: Option<Tid>,
    threads: map<Tid, Thread>,
    exit: Exit,
    // the published slots, in the order in which their counts were bumped
    log: seq<nat>,
    // per slot: its initial datum, then every datum stored in it, in order
    writes: seq<seq<Datum>>)

  datatype Label = Begin(op: Operation) | Run | Spurious

  // ------------------------------------------------------------- well-formed states

  ghost predicate WatchInBounds(w: Watch, size: nat) {
    w.Slot? ==> w.index < size
  }

  ghost predicate SnapshotInBounds(w: Watch, snap: Snapshot, size: nat) {
    match w
    case Slot(i) => i < size
    case AnySlot => |snap.counts| == size
  }

  ghost predicate OperationInBounds(op: Operation, size: nat) {
    match op
    case Set(i, _) => i < size
    case Wait(w) => WatchInBounds(w, size)
    case Get(i) => i < size
  }

  ghost predicate PcInBounds(pc: Pc, size: nat) {
    match pc
    case Idle => true
    case SetLockData(i, _) => i < size
    case SetWrite(i, _) => i < size
    case SetUnlockData(i) => i < size
    case SetLockCondition(i) => i < size
    case SetBumpSlot(i) => i < size
    case SetBumpTotal(i) => i < size
    case SetNotify(i) => i < size
    case SetUnlockCondition(i) => i < size
    case WaitLock(w) => WatchInBounds(w, size)
    case WaitSnapshot(w) => WatchInBounds(w, size)
    case WaitTest(w, snap) => SnapshotInBounds(w, snap, size)
    case WaitParked(w, snap) => SnapshotInBounds(w, snap, size)
    case WaitRelock(w, snap) => SnapshotInBounds(w, snap, size)
    case WaitDecide(w, snap) => SnapshotInBounds(w, snap, size)
    case WaitScan(snap, k, m) => |snap.counts| == size && k <= size && -1 <= m < k
    case WaitUnlock(w, snap, r) => SnapshotInBounds(w, snap, size) && -1 <= r < size
    case GetLock(i) => i < size
    case GetCopy(i) => i < size
    case GetUnlock(i, _, _) => i < size
  }

  /** One entry per slot in every array, slot indices in bounds, threads that exist. */
  ghost predicate Shape(s: State) {
    && |s.data| == |s.counts| == |s.dataOwner| == |s.writes|
    && (forall i :: 0 <= i < |s.writes| ==> |s.writes[i]| > 0)
    && (forall t :: t in s.threads ==>
          PcInBounds(s.threads[t].pc, |s.counts|) && |s.threads[t].seen| == |s.counts|)
  }

  /** The default constructor, before any thread has called an operation. */
  ghost predicate Init(s: State) {
    && Shape(s)
    && (forall i :: 0 <= i < |s.counts| ==>
          s.counts[i] == 0 && s.dataOwner[i] == None && s.writes[i] == [s.data[i]])
    && s.total == 0
    && s.conditionOwner == None
    && s.exit == Running
    && s.log == []
    && forall t :: t in s.threads ==>
         && s.threads[t].pc == Idle
         && s.threads[t].reports == [] && s.threads[t].gets == []
         && forall i :: 0 <= i < |s.counts| ==> s.threads[t].seen[i] == 0
  }

  // -------------------------------------------------------------------------- steps

  function Entry(op: Operation): Pc {
    match op
    case Set(i, datum) => SetLockData(i, datum)
    case Wait(w) => WaitLock(w)
    case Get(i) => GetLock(i)
  }

  /** The counter the loop of wait_for_update tests. */
  function Watched(s: State, w: Watch): nat
    requires w.Slot? ==> w.index < |s.counts|
  {
    match w
    case Slot(i) => s.counts[i]
    case AnySlot => s.total
  }

  function TakeSnapshot(s: State, w: Watch): Snapshot
    requires w.Slot? ==> w.index < |s.counts|
  {
    Snapshot(Watched(s, w), if w.AnySlot? then s.counts else [], |s.log|)
  }

  /** Moves thread t to pc. */
  function Goto(s: State, t: Tid, pc: Pc): State
    requires t in s.threads
  {
    s.(threads := s.threads[t := s.threads[t].(pc := pc)])
  }

  function Woken(th: Thread): Thread {
    match th.pc
    case WaitParked(w, snap) => th.(pc := WaitRelock(w, snap))
    case _ => th
  }

  function NotifyAll(s: State): State {
    s.(threads := map u | u in s.threads :: Woken(s.threads[u]))
  }

  /** A normal return of wait_for_update: history is recorded and the mutex released. */
  function Return(s: State, t: Tid, w: Watch, snap: Snapshot, r: int): State
    requires t in s.threads && |s.threads[t].seen| == |s.counts| && r < |s.counts|
  {
    var th := s.threads[t];
    var reports := if w.AnySlot? then th.reports + [Report(snap.mark, r)] else th.reports;
    var seen := if r >= 0 then th.seen[r := s.counts[r]] else th.seen;
    s.(conditionOwner := None, threads := s.threads[t := th.(pc := Idle, reports := reports, seen := seen)])
  }

  ghost predicate Enabled(s: State, t: Tid, l: Label)
    requires Shape(s)
  {
    && s.exit == Running
    && t in s.threads
    && match l
       case Begin(op) => s.threads[t].pc.Idle? && OperationInBounds(op, |s.counts|)
       case Spurious => s.threads[t].pc.WaitParked?
       case Run =>
         match s.threads[t].pc
         case Idle => false
         case WaitParked(_, _) => false
         case SetLockData(i, _) => s.dataOwner[i] == None
         case GetLock(i) => s.dataOwner[i] == None
         case SetLockCondition(_) => s.conditionOwner == None
         case WaitLock(_) => s.conditionOwner == None
         case WaitRelock(_, _) => s.conditionOwner == None
         case _ => true
  }

  ghost function Next(s: State, t: Tid, l: Label): State
    requires Shape(s) && Enabled(s, t, l)
  {
    match l
    case Begin(op) => Goto(s, t, Entry(op))
    case Spurious => Goto(s, t, WaitRelock(s.threads[t].pc.watch, s.threads[t].pc.snap))
    case Run => NextRun(s, t)
  }

  ghost function NextRun(s: State, t: Tid): State
    requires Shape(s) && Enabled(s, t, Run)
  {
    match s.threads[t].pc
    case SetLockData(i, datum) => Goto(s.(dataOwner := s.dataOwner[i := Some(t)]), t, SetWrite(i, datum))
    case SetWrite(i, datum) =>
      Goto(s.(data := s.data[i := datum], writes := s.writes[i := s.writes[i] + [datum]]), t, SetUnlockData(i))
    case SetUnlockData(i) => Goto(s.(dataOwner := s.dataOwner[i := None]), t, SetLockCondition(i))
    case SetLockCondition(i) => Goto(s.(conditionOwner := Some(t)), t, SetBumpSlot(i))
    case SetBumpSlot(i) =>
      Goto(s.(counts := s.counts[i := s.counts[i] + 1], log := s.log + [i]), t, SetBumpTotal(i))
    case SetBumpTotal(i) => Goto(s.(total := s.total + 1), t, SetNotify(i))
    case SetNotify(i) => Goto(NotifyAll(s), t, SetUnlockCondition(i))
    case SetUnlockCondition(i) => Goto(s.(conditionOwner := None), t, Idle)
    case WaitLock(w) => Goto(s.(conditionOwner := Some(t)), t, WaitSnapshot(w))
    case WaitSnapshot(w) => Goto(s, t, WaitTest(w, TakeSnapshot(s, w)))
    case WaitTest(w, snap) =>
      if snap.count == Watched(s, w)
      then Goto(s.(conditionOwner := None), t, WaitParked(w, snap))
      else Goto(s, t, WaitDecide(w, snap))
    case WaitRelock(w, snap) => Goto(s.(conditionOwner := Some(t)), t, WaitTest(w, snap))
    case WaitDecide(w, snap) =>
      if snap.count + 1 != Watched(s, w) then s.(exit := Missed(t))
      else if w.Slot? then Goto(s, t, WaitUnlock(w, snap, w.index))
      else Goto(s, t, WaitScan(snap, 0, -1))
    case WaitScan(snap, k, m) =>
      if k == |s.counts| then Goto(s, t, WaitUnlock(AnySlot, snap, m))
      else if snap.counts[k] + 1 == s.counts[k] then
        if m != -1 then s.(exit := Corrupt(t)) else Goto(s, t, WaitScan(snap, k + 1, k))
      else if snap.counts[k] != s.counts[k] then s.(exit := Corrupt(t))
      else Goto(s, t, WaitScan(snap, k + 1, m))
    case WaitUnlock(w, snap, r) => Return(s, t, w, snap, r)
    case GetLock(i) => Goto(s.(dataOwner := s.dataOwner[i := Some(t)]), t, GetCopy(i))
    case GetCopy(i) => Goto(s, t, GetUnlock(i, s.data[i], |s.writes[i]| - 1))
    case GetUnlock(i, v, _) =>
      var th := s.threads[t];
      s.(dataOwner := s.dataOwner[i := None], threads := s.threads[t := th.(pc := Idle, gets := th.gets + [v])])
  }

  // --------------------------------------------------------------------------- runs

  /** Thread t takes the step l from s to s'.  The quantifier only keeps the verifier from
      unfolding a step unless At is mentioned: see Taken. */
  ghost predicate Takes(s: State, t: Tid, l: Label, s': State) {
    forall u: Tid {:trigger At(u)} :: u == t ==> Shape(s) && Enabled(s, u, l) && s' == Next(s, u, l)
  }

  predicate At(t: Tid) { true }

  lemma Taken(s: State, t: Tid, l: Label, s': State)
    ensures Takes(s, t, l, s') <==> Shape(s) && Enabled(s, t, l) && s' == Next(s, t, l)
  {
    assert At(t);
  }

  ghost predicate Step(s: State, s': State) { exists t: Tid, l: Label :: Takes(s, t, l, s') }

  /** A run: any finite interleaving of steps from the constructed object. */
  ghost predicate IsRun(run: seq<State>)
    decreases |run|
  {
    && |run| > 0
    && var last := |run| - 1;
       if last == 0 then Init(run[0]) else IsRun(run[..last]) && Step(run[last - 1], run[last])
  }

  ghost predicate Reachable(s: State) {
    exists run: seq<State> :: IsRun(run) && run[|run| - 1] == s
  }
}
