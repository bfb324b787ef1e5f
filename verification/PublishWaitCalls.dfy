/** Whole calls of the publish/wait protocol: what a call does between its beginning and its
    return, in terms of the operation it was begun with and of the shared memory.  Any other
    threads may run in between. */
module PublishWaitCalls {
  import opened Wrappers
  import opened PublishWait
  import opened PublishWaitInvariant
  import opened PublishWaitProperties
  import opened PublishWaitProgress

  /** One step of a run: who took it, and what it was. */
  datatype Move = Move(mover: Tid, what: Label)

  /** A run from a reachable state in which thread t begins `op`, and begins nothing after it.
      All other steps are arbitrary. */
  ghost predicate CallRun(run: seq<State>, moves: seq<Move>, t: Tid, op: Operation)
    decreases |moves|
  {
    && |run| == |moves| + 1 >= 2
    && var last := |moves| - 1;
       && Takes(run[last], moves[last].mover, moves[last].what, run[last + 1])
       && if last == 0 then Reachable(run[0]) && moves[0] == Move(t, Begin(op))
          else CallRun(run[..last + 1], moves[..last], t, op) && !(moves[last].mover == t && moves[last].what.Begin?)
  }

  /** Thread t is outside all calls. */
  predicate Over(s: State, t: Tid) { t in s.threads && s.threads[t].pc.Idle? }

  /** The last step of the run is that in which thread t leaves its call. */
  ghost predicate JustReturned(run: seq<State>, moves: seq<Move>, t: Tid) {
    |run| == |moves| + 1 >= 2 && moves[|moves| - 1].mover == t && Over(Last(run), t)
  }

  // -------------------------------------------------- what a thread did to the shared memory

  function Added<T>(before: seq<T>, after: seq<T>): seq<T> {
    if |before| <= |after| then after[|before|..] else []
  }

  function WritesTo(s: State, j: nat): seq<Datum> { if j < |s.writes| then s.writes[j] else [] }

  /** What the steps of thread t have stored in slot j, in order. */
  function OwnWrites(run: seq<State>, moves: seq<Move>, t: Tid, j: nat): seq<Datum>
    requires |run| == |moves| + 1
    decreases |moves|
  {
    if moves == [] then []
    else
      var last := |moves| - 1;
      OwnWrites(run[..last + 1], moves[..last], t, j)
      + if moves[last].mover == t then Added(WritesTo(run[last], j), WritesTo(run[last + 1], j)) else []
  }

  /** What the steps of thread t have published, in order. */
  function OwnEntries(run: seq<State>, moves: seq<Move>, t: Tid): seq<nat>
    requires |run| == |moves| + 1
    decreases |moves|
  {
    if moves == [] then []
    else
      var last := |moves| - 1;
      OwnEntries(run[..last + 1], moves[..last], t)
      + if moves[last].mover == t then Added(run[last].log, run[last + 1].log) else []
  }

  /** The length of the log when thread t first owned the condition mutex. */
  function EntryMark(run: seq<State>, t: Tid): Option<nat> {
    if run == [] then None
    else
      var before := EntryMark(run[..|run| - 1], t);
      if before.Some? then before
      else if Last(run).conditionOwner == Some(t) then Some(|Last(run).log|)
      else None
  }

  // ------------------------------------------------------------------ a call, step by step

  /** A call of op at this program counter has stored `wrote` in slot j and published `entries`. */
  ghost predicate CallAt(op: Operation, pc: Pc, j: nat, wrote: seq<Datum>, entries: seq<nat>) {
    match op
    case Set(i, d) =>
      var done := if j == i then [d] else [];
      (match pc
       case SetLockData(a, x) => a == i && x == d && wrote == [] && entries == []
       case SetWrite(a, x) => a == i && x == d && wrote == [] && entries == []
       case SetUnlockData(a) => a == i && wrote == done && entries == []
       case SetLockCondition(a) => a == i && wrote == done && entries == []
       case SetBumpSlot(a) => a == i && wrote == done && entries == []
       case SetBumpTotal(a) => a == i && wrote == done && entries == [i]
       case SetNotify(a) => a == i && wrote == done && entries == [i]
       case SetUnlockCondition(a) => a == i && wrote == done && entries == [i]
       case Idle => wrote == done && entries == [i]
       case _ => false)
    case Wait(w) =>
      && wrote == [] && entries == []
      && (pc.Idle? || pc == WaitLock(w) || pc == WaitSnapshot(w) || (HasSnapshot(pc) && WatchOf(pc) == w))
    case Get(i) =>
      && wrote == [] && entries == []
      && (pc.Idle? || ((pc.GetLock? || pc.GetCopy? || pc.GetUnlock?) && pc.index == i))
  }

  lemma OwnWriteEffect(s: State, t: Tid, l: Label, j: nat)
    requires Shape(s) && Enabled(s, t, l)
    ensures var pc := s.threads[t].pc;
      WritesTo(Next(s, t, l), j) ==
      WritesTo(s, j) + if pc.SetWrite? && pc.index == j then [pc.datum] else []
  {
    ArraysKept(s, t, l);
    if j < |s.counts| {
      OwnUncounted(s, t, l, j);
    } else {
      assert PcInBounds(s.threads[t].pc, |s.counts|);
    }
  }

  lemma OwnSetStep(s: State, t: Tid, l: Label, op: Operation, j: nat, wrote: seq<Datum>, entries: seq<nat>)
    requires Shape(s) && Enabled(s, t, l) && !l.Begin?
    requires op.Set? && CallAt(op, s.threads[t].pc, j, wrote, entries)
    ensures t in Next(s, t, l).threads
    ensures var s' := Next(s, t, l);
      CallAt(op, s'.threads[t].pc, j, wrote + Added(WritesTo(s, j), WritesTo(s', j)), entries + Added(s.log, s'.log))
  {
    OwnWriteEffect(s, t, l, j);
    CounterEffect(s, t, l);
  }

  lemma OwnReaderStep(s: State, t: Tid, l: Label, op: Operation, j: nat, wrote: seq<Datum>, entries: seq<nat>)
    requires Shape(s) && Enabled(s, t, l) && !l.Begin?
    requires !op.Set? && CallAt(op, s.threads[t].pc, j, wrote, entries)
    ensures t in Next(s, t, l).threads
    ensures var s' := Next(s, t, l);
      CallAt(op, s'.threads[t].pc, j, wrote + Added(WritesTo(s, j), WritesTo(s', j)), entries + Added(s.log, s'.log))
  {
    OwnWriteEffect(s, t, l, j);
    CounterEffect(s, t, l);
  }

  lemma BeginStep(s: State, t: Tid, op: Operation, j: nat)
    requires Shape(s) && Enabled(s, t, Begin(op))
    ensures var s' := Next(s, t, Begin(op));
      && t in s'.threads && s'.threads[t] == s.threads[t].(pc := Entry(op))
      && WritesTo(s', j) == WritesTo(s, j) && s'.log == s.log && s'.conditionOwner == s.conditionOwner
      && CallAt(op, Entry(op), j, [], [])
  {
  }

  lemma OthersStep(s: State, u: Tid, l: Label, t: Tid, op: Operation, j: nat, wrote: seq<Datum>, entries: seq<nat>)
    requires Shape(s) && Enabled(s, u, l) && u != t && t in s.threads
    requires CallAt(op, s.threads[t].pc, j, wrote, entries)
    ensures t in Next(s, u, l).threads
    ensures var s' := Next(s, u, l); CallAt(op, s'.threads[t].pc, j, wrote, entries)
  {
    OthersKept(s, u, l, t);
  }

  lemma MoveOfCall(s: State, move: Move, s': State, t: Tid, op: Operation, j: nat, wrote: seq<Datum>, entries: seq<nat>)
    requires Takes(s, move.mover, move.what, s') && !(move.mover == t && move.what.Begin?)
    requires t in s.threads && CallAt(op, s.threads[t].pc, j, wrote, entries)
    ensures |s'.counts| == |s.counts| && t in s'.threads
    ensures CallAt(op, s'.threads[t].pc, j,
                   wrote + if move.mover == t then Added(WritesTo(s, j), WritesTo(s', j)) else [],
                   entries + if move.mover == t then Added(s.log, s'.log) else [])
  {
    Taken(s, move.mover, move.what, s');
    ShapeKept(s, move.mover, move.what);
    if move.mover != t {
      OthersStep(s, move.mover, move.what, t, op, j, wrote, entries);
    } else if op.Set? {
      OwnSetStep(s, t, move.what, op, j, wrote, entries);
    } else {
      OwnReaderStep(s, t, move.what, op, j, wrote, entries);
    }
  }

  lemma FirstMove(s: State, move: Move, s': State, t: Tid, op: Operation, j: nat)
    requires Takes(s, move.mover, move.what, s') && move == Move(t, Begin(op))
    ensures |s'.counts| == |s.counts| && t in s.threads && t in s'.threads && OperationInBounds(op, |s.counts|)
    ensures Added(WritesTo(s, j), WritesTo(s', j)) == [] && Added(s.log, s'.log) == []
    ensures CallAt(op, s'.threads[t].pc, j, [], [])
  {
    Taken(s, move.mover, move.what, s');
    BeginStep(s, t, op, j);
    ShapeKept(s, t, Begin(op));
  }

  /** At every point of a run the call has done exactly what its program counter stands for. */
  lemma {:induction false} CallSoFar(run: seq<State>, moves: seq<Move>, t: Tid, op: Operation, j: nat)
    requires CallRun(run, moves, t, op)
    ensures t in run[0].threads && t in Last(run).threads && |Last(run).counts| == |run[0].counts|
    ensures OperationInBounds(op, |run[0].counts|)
    ensures CallAt(op, Last(run).threads[t].pc, j, OwnWrites(run, moves, t, j), OwnEntries(run, moves, t))
    decreases |moves|
  {
    var last := |moves| - 1;
    if last == 0 {
      FirstMove(run[0], moves[0], run[1], t, op, j);
      assert OwnWrites(run[..1], moves[..0], t, j) == [] && OwnEntries(run[..1], moves[..0], t) == [];
    } else {
      var before, earlier := run[..last + 1], moves[..last];
      CallSoFar(before, earlier, t, op, j);
      MoveOfCall(run[last], moves[last], run[last + 1], t, op, j,
                 OwnWrites(before, earlier, t, j), OwnEntries(before, earlier, t));
    }
  }

  // ------------------------------------------------------------------------------ set

  /** Some step of thread t left slot i showing d, as the latest of the writes to it. */
  ghost predicate HasShown(run: seq<State>, moves: seq<Move>, t: Tid, i: nat, d: Datum)
    requires |run| == |moves| + 1
  {
    exists k :: 0 <= k < |moves| && ShowsAfter(run[k], moves[k], run[k + 1], t, i, d)
  }

  ghost predicate ShowsAfter(s: State, move: Move, s': State, t: Tid, i: nat, d: Datum) {
    && move.mover == t && i < |s'.data| && s'.data[i] == d
    && WritesTo(s', i) == WritesTo(s, i) + [d]
  }

  lemma WriteShows(s: State, move: Move, s': State, t: Tid, i: nat, d: Datum)
    requires Takes(s, move.mover, move.what, s') && move.mover == t && i < |s.counts|
    requires d in Added(WritesTo(s, i), WritesTo(s', i))
    ensures ShowsAfter(s, move, s', t, i, d)
  {
    Taken(s, move.mover, move.what, s');
    OwnUncounted(s, t, move.what, i);
    ArraysKept(s, t, move.what);
  }

  lemma {:induction false} OwnWritesShow(run: seq<State>, moves: seq<Move>, t: Tid, op: Operation, i: nat, d: Datum)
    requires CallRun(run, moves, t, op) && i < |run[0].counts| && d in OwnWrites(run, moves, t, i)
    ensures HasShown(run, moves, t, i, d)
    decreases |moves|
  {
    var last := |moves| - 1;
    var before, earlier := run[..last + 1], moves[..last];
    if d in OwnWrites(before, earlier, t, i) {
      OwnWritesShow(before, earlier, t, op, i, d);
      var k :| 0 <= k < |earlier| && ShowsAfter(before[k], earlier[k], before[k + 1], t, i, d);
      assert ShowsAfter(run[k], moves[k], run[k + 1], t, i, d);
    } else {
      CountsStay(run, moves, t, op);
      WriteShows(run[last], moves[last], run[last + 1], t, i, d);
    }
  }

  lemma {:induction false} CountsStay(run: seq<State>, moves: seq<Move>, t: Tid, op: Operation)
    requires CallRun(run, moves, t, op)
    ensures |run[|moves| - 1].counts| == |run[0].counts|
    decreases |moves|
  {
    var last := |moves| - 1;
    if last == 0 {
    } else {
      CountsStay(run[..last + 1], moves[..last], t, op);
      MoveKeepsCounts(run[last - 1], moves[last - 1], run[last]);
    }
  }

  lemma MoveKeepsCounts(s: State, move: Move, s': State)
    requires Takes(s, move.mover, move.what, s')
    ensures |s'.counts| == |s.counts|
  {
    Taken(s, move.mover, move.what, s');
    ArraysKept(s, move.mover, move.what);
  }

  /** A call begun as set(i, d), once over, has stored exactly d, once, in slot i, and nothing in
      any other slot; when it did so the slot showed d; and it has published exactly one entry,
      i.  This holds whatever the other threads do meanwhile. */
  lemma {:induction false} SetStoresItsArgument(run: seq<State>, moves: seq<Move>, t: Tid, i: nat, d: Datum)
    requires CallRun(run, moves, t, Set(i, d)) && Over(Last(run), t)
    ensures i < |run[0].counts| && OwnEntries(run, moves, t) == [i]
    ensures forall j :: 0 <= j < |run[0].counts| ==> OwnWrites(run, moves, t, j) == if j == i then [d] else []
    ensures HasShown(run, moves, t, i, d)
  {
    CallStarts(run, moves, t, Set(i, d));
    FirstMove(run[0], Move(t, Begin(Set(i, d))), run[1], t, Set(i, d), i);
    forall j | 0 <= j < |run[0].counts|
      ensures OwnWrites(run, moves, t, j) == if j == i then [d] else []
    {
      CallSoFar(run, moves, t, Set(i, d), j);
    }
    CallSoFar(run, moves, t, Set(i, d), i);
    OwnWritesShow(run, moves, t, Set(i, d), i, d);
  }

  lemma {:induction false} CallStarts(run: seq<State>, moves: seq<Move>, t: Tid, op: Operation)
    requires CallRun(run, moves, t, op)
    ensures Reachable(run[0]) && Takes(run[0], t, Begin(op), run[1])
    decreases |moves|
  {
    var last := |moves| - 1;
    if last == 0 {
    } else {
      CallStarts(run[..last + 1], moves[..last], t, op);
    }
  }

  lemma {:induction false} CallStaysReachable(run: seq<State>, moves: seq<Move>, t: Tid, op: Operation)
    requires CallRun(run, moves, t, op)
    ensures Reachable(Last(run))
    decreases |moves|
  {
    var last := |moves| - 1;
    if last == 0 {
    } else {
      CallStaysReachable(run[..last + 1], moves[..last], t, op);
    }
    MoveReaches(run[last], moves[last], run[last + 1]);
  }

  lemma MoveReaches(s: State, move: Move, s': State)
    requires Reachable(s) && Takes(s, move.mover, move.what, s')
    ensures Reachable(s')
  {
    Taken(s, move.mover, move.what, s');
    ReachableStep(s, move.mover, move.what);
  }

  // ----------------------------------------------------------------- wait_for_update

  /** The snapshot is of the moment when the call first owned the condition mutex. */
  predicate MarkAt(pc: Pc, mark: Option<nat>, log: seq<nat>) {
    && (pc.WaitLock? ==> mark == None)
    && (pc.WaitSnapshot? ==> mark == Some(|log|))
    && (HasSnapshot(pc) ==> mark == Some(pc.snap.mark))
  }

  /** The mark after one more state. */
  function NextMark(mark: Option<nat>, s: State, t: Tid): Option<nat> {
    if mark.Some? then mark else if s.conditionOwner == Some(t) then Some(|s.log|) else None
  }

  lemma {:induction false} MarkOfLonger(run: seq<State>, t: Tid)
    requires |run| > 0
    ensures EntryMark(run, t) == NextMark(EntryMark(run[..|run| - 1], t), Last(run), t)
  {
  }

  lemma OwnMark(s: State, t: Tid, l: Label, mark: Option<nat>)
    requires Shape(s) && Enabled(s, t, l) && !l.Begin? && Locks(s) && MarkAt(s.threads[t].pc, mark, s.log)
    ensures t in Next(s, t, l).threads
    ensures var s' := Next(s, t, l); MarkAt(s'.threads[t].pc, NextMark(mark, s', t), s'.log)
  {
    ConditionMutexEffect(s, t, l);
    CounterEffect(s, t, l);
    OwnHistoryEffect(s, t, l);
    EntersUnderTheMutex(s, t, l);
  }

  lemma EntersUnderTheMutex(s: State, t: Tid, l: Label)
    requires Shape(s) && Enabled(s, t, l) && !l.Begin?
    ensures t in Next(s, t, l).threads && !Next(s, t, l).threads[t].pc.WaitLock?
    ensures Next(s, t, l).threads[t].pc.WaitSnapshot? ==> s.threads[t].pc.WaitLock?
  {
  }

  lemma OthersMark(s: State, u: Tid, l: Label, t: Tid, mark: Option<nat>)
    requires Shape(s) && Enabled(s, u, l) && u != t && t in s.threads && Locks(s)
    requires MarkAt(s.threads[t].pc, mark, s.log)
    ensures t in Next(s, u, l).threads
    ensures var s' := Next(s, u, l); MarkAt(s'.threads[t].pc, NextMark(mark, s', t), s'.log)
  {
    OthersKept(s, u, l, t);
    CounterEffect(s, u, l);
    ConditionMutexEffect(s, u, l);
    assert s.conditionOwner == Some(t) <==> HoldsCondition(s.threads[t].pc);
    assert s.conditionOwner == Some(u) <==> HoldsCondition(s.threads[u].pc);
  }

  lemma BeginMark(s: State, t: Tid, op: Operation)
    requires Shape(s) && Enabled(s, t, Begin(op)) && Locks(s)
    ensures var s' := Next(s, t, Begin(op));
      && s.conditionOwner != Some(t) && s'.conditionOwner != Some(t) && t in s'.threads
      && MarkAt(s'.threads[t].pc, None, s'.log)
  {
    BeginStep(s, t, op, 0);
    assert s.conditionOwner == Some(t) <==> HoldsCondition(s.threads[t].pc);
  }

  lemma MoveMarks(s: State, move: Move, s': State, t: Tid, mark: Option<nat>)
    requires Reachable(s) && Takes(s, move.mover, move.what, s') && !(move.mover == t && move.what.Begin?)
    requires t in s.threads && MarkAt(s.threads[t].pc, mark, s.log)
    ensures t in s'.threads && MarkAt(s'.threads[t].pc, NextMark(mark, s', t), s'.log)
  {
    Taken(s, move.mover, move.what, s');
    ReachableInv(s);
    if move.mover == t {
      OwnMark(s, t, move.what, mark);
    } else {
      OthersMark(s, move.mover, move.what, t, mark);
    }
  }

  lemma FirstMark(s: State, t: Tid, op: Operation, s': State)
    requires Reachable(s) && Takes(s, t, Begin(op), s')
    ensures t in s'.threads && s.conditionOwner != Some(t) && s'.conditionOwner != Some(t)
    ensures MarkAt(s'.threads[t].pc, None, s'.log)
  {
    Taken(s, t, Begin(op), s');
    ReachableInv(s);
    BeginMark(s, t, op);
  }

  lemma {:induction false} MarkSoFar(run: seq<State>, moves: seq<Move>, t: Tid, op: Operation)
    requires CallRun(run, moves, t, op)
    ensures t in Last(run).threads && MarkAt(Last(run).threads[t].pc, EntryMark(run, t), Last(run).log)
    decreases |moves|
  {
    var last := |moves| - 1;
    MarkOfLonger(run, t);
    if last == 0 {
      FirstMark(run[0], t, op, run[1]);
      MarkOfLonger(run[..1], t);
      assert EntryMark(run[..1][..0], t) == None;
    } else {
      MarkSoFar(run[..last + 1], moves[..last], t, op);
      CallStaysReachable(run[..last + 1], moves[..last], t, op);
      MoveMarks(run[last], moves[last], run[last + 1], t, EntryMark(run[..last + 1], t));
    }
  }

  /** At every point of a call begun as wait_for_update(w), it watches w and nothing else, and its
      snapshot is of the moment when it first owned the condition mutex. */
  lemma {:induction false} WaitWatchesItsArgument(run: seq<State>, moves: seq<Move>, t: Tid, w: Watch)
    requires CallRun(run, moves, t, Wait(w))
    ensures t in Last(run).threads && (w.Slot? ==> w.index < |run[0].counts|)
    ensures var pc := Last(run).threads[t].pc;
      && (pc.Idle? || pc == WaitLock(w) || pc == WaitSnapshot(w) || HasSnapshot(pc))
      && (HasSnapshot(pc) ==> WatchOf(pc) == w && EntryMark(run, t) == Some(pc.snap.mark))
  {
    CallSoFar(run, moves, t, Wait(w), 0);
    MarkSoFar(run, moves, t, Wait(w));
  }

  /** What a wait of w that returns into s' has seen and leaves behind, its snapshot being of the
      moment when the log had `mark` entries. */
  ghost predicate ReturnsOne(before: Thread, s': State, t: Tid, w: Watch, mark: nat) {
    && t in s'.threads && mark <= |s'.log| && PublishedSince(w, s'.log, mark) == 1
    && (w.AnySlot? ==> |s'.log| == mark + 1)
    && var r := if w.Slot? then w.index else s'.log[mark];
    && s'.threads[t].reports == (if w.AnySlot? then before.reports + [Report(mark, r)] else before.reports)
    && r < |s'.counts| && r < |s'.threads[t].seen| && s'.threads[t].seen[r] == s'.counts[r]
    && s'.threads[t].gets == before.gets
  }

  lemma UnlockReturnsOne(s: State, t: Tid, w: Watch)
    requires Inv(s) && Enabled(s, t, Run) && s.threads[t].pc.WaitUnlock? && WatchOf(s.threads[t].pc) == w
    ensures ReturnsOne(s.threads[t], Next(s, t, Run), t, w, s.threads[t].pc.snap.mark)
  {
    assert WaitOk(s, s.threads[t].pc);
    PublishedIsWatched(s, t, w, s.threads[t].pc.snap);
    CounterEffect(s, t, Run);
    OwnHistoryEffect(s, t, Run);
    GetsEffect(s, t, Run);
  }

  /** Only the end of a get changes what get returned. */
  lemma GetsEffect(s: State, t: Tid, l: Label)
    requires Shape(s) && Enabled(s, t, l)
    ensures t in Next(s, t, l).threads
    ensures var pc := s.threads[t].pc;
      Next(s, t, l).threads[t].gets == s.threads[t].gets + if pc.GetUnlock? then [pc.value] else []
  {
  }

  /** The step in which a call of wait_for_update(w) returns. */
  lemma ReturningMove(s: State, move: Move, s': State, t: Tid, w: Watch)
    requires Reachable(s) && Takes(s, move.mover, move.what, s') && move.mover == t && !move.what.Begin?
    requires t in s.threads && CallAt(Wait(w), s.threads[t].pc, 0, [], []) && Over(s', t)
    ensures HasSnapshot(s.threads[t].pc) && WatchOf(s.threads[t].pc) == w
    ensures ReturnsOne(s.threads[t], s', t, w, s.threads[t].pc.snap.mark)
  {
    Taken(s, t, move.what, s');
    ReturnComesFromUnlock(s, t, move.what, w);
    ReachableInv(s);
    UnlockReturnsOne(s, t, w);
  }

  lemma ReturnComesFromUnlock(s: State, t: Tid, l: Label, w: Watch)
    requires Shape(s) && Enabled(s, t, l) && !l.Begin? && Over(Next(s, t, l), t)
    requires CallAt(Wait(w), s.threads[t].pc, 0, [], [])
    ensures l == Run && s.threads[t].pc.WaitUnlock? && WatchOf(s.threads[t].pc) == w
  {
  }

  /** The step in which a call of wait_for_update(w) ends the process. */
  lemma ExitingMove(s: State, move: Move, s': State, t: Tid, w: Watch)
    requires Reachable(s) && Takes(s, move.mover, move.what, s') && move.mover == t && s'.exit == Missed(t)
    requires t in s.threads && CallAt(Wait(w), s.threads[t].pc, 0, [], [])
    ensures HasSnapshot(s.threads[t].pc) && WatchOf(s.threads[t].pc) == w
    ensures var mark := s.threads[t].pc.snap.mark;
      mark <= |s'.log| && PublishedSince(w, s'.log, mark) >= 2
  {
    Taken(s, t, move.what, s');
    CounterEffect(s, t, move.what);
    assert s.threads[t].pc.WaitDecide?;
    ExactMissDetection(s, t, w, s.threads[t].pc.snap);
  }

  /** What a thread was told changes at the end of its calls only. */
  lemma {:induction false} HistorySoFar(run: seq<State>, moves: seq<Move>, t: Tid, w: Watch)
    requires CallRun(run, moves, t, Wait(w)) && !Over(Last(run), t)
    ensures t in run[0].threads && t in Last(run).threads
    ensures Last(run).threads[t].reports == run[0].threads[t].reports
    ensures Last(run).threads[t].gets == run[0].threads[t].gets
    decreases |moves|
  {
    var last := |moves| - 1;
    CallSoFar(run, moves, t, Wait(w), 0);
    if last == 0 {
      MoveKeepsHistory(run[0], moves[0], run[1], t);
    } else {
      CallSoFar(run[..last + 1], moves[..last], t, Wait(w), 0);
      MoveKeepsHistory(run[last], moves[last], run[last + 1], t);
      HistorySoFar(run[..last + 1], moves[..last], t, w);
    }
  }

  lemma MoveKeepsHistory(s: State, move: Move, s': State, t: Tid)
    requires Takes(s, move.mover, move.what, s') && t in s.threads && t in s'.threads && !Over(s', t)
    ensures s'.threads[t].reports == s.threads[t].reports && s'.threads[t].gets == s.threads[t].gets
    ensures Over(s, t) ==> move.mover == t && move.what.Begin?
  {
    Taken(s, move.mover, move.what, s');
    if move.mover == t {
      OwnHistoryEffect(s, t, move.what);
      GetsEffect(s, t, move.what);
      ReturnEndsCall(s, t, move.what);
    } else {
      OthersKept(s, move.mover, move.what, t);
    }
  }

  lemma ReturnEndsCall(s: State, t: Tid, l: Label)
    requires Shape(s) && Enabled(s, t, l)
    ensures s.threads[t].pc.WaitUnlock? || s.threads[t].pc.GetUnlock? ==> Over(Next(s, t, l), t)
  {
  }

  /** A call begun as wait_for_update(w) returns only when exactly one update of w, and of nothing
      else, was published since it first owned the condition mutex; it has changed nothing in
      the shared memory, and a call that watches every slot has reported that update. */
  lemma {:induction false} WaitReturnsForItsArgument(run: seq<State>, moves: seq<Move>, t: Tid, w: Watch)
    requires CallRun(run, moves, t, Wait(w)) && JustReturned(run, moves, t)
    ensures t in run[0].threads && EntryMark(run, t).Some?
    ensures ReturnsOne(run[0].threads[t], Last(run), t, w, EntryMark(run, t).value)
    ensures OwnEntries(run, moves, t) == []
    ensures forall j :: 0 <= j < |run[0].counts| ==> OwnWrites(run, moves, t, j) == []
  {
    var last := |moves| - 1;
    forall j | 0 <= j < |run[0].counts| ensures OwnWrites(run, moves, t, j) == [] {
      CallSoFar(run, moves, t, Wait(w), j);
    }
    CallSoFar(run, moves, t, Wait(w), 0);
    if last == 0 {
      BegunIsNotOver(run[0], t, w, run[1]);
      assert false;
    } else {
      var before, earlier := run[..last + 1], moves[..last];
      CallSoFar(before, earlier, t, Wait(w), 0);
      CallStaysReachable(before, earlier, t, Wait(w));
      ReturningMove(run[last], moves[last], run[last + 1], t, w);
      HistorySoFar(before, earlier, t, w);
      MarkSoFar(before, earlier, t, Wait(w));
      MarkOfLonger(run, t);
    }
  }

  lemma BegunIsNotOver(s: State, t: Tid, w: Watch, s': State)
    requires Takes(s, t, Begin(Wait(w)), s')
    ensures !Over(s', t) && s'.exit == Running
  {
    Taken(s, t, Begin(Wait(w)), s');
  }

  /** And it ends the process only when two or more were. */
  lemma {:induction false} WaitExitsForItsArgument(run: seq<State>, moves: seq<Move>, t: Tid, w: Watch)
    requires CallRun(run, moves, t, Wait(w))
    requires moves[|moves| - 1].mover == t && Last(run).exit == Missed(t)
    ensures EntryMark(run, t).Some? && EntryMark(run, t).value <= |Last(run).log|
    ensures PublishedSince(w, Last(run).log, EntryMark(run, t).value) >= 2
  {
    var last := |moves| - 1;
    if last == 0 {
      BegunIsNotOver(run[0], t, w, run[1]);
      assert false;
    } else {
      var before, earlier := run[..last + 1], moves[..last];
      CallSoFar(before, earlier, t, Wait(w), 0);
      CallStaysReachable(before, earlier, t, Wait(w));
      ExitingMove(run[last], moves[last], run[last + 1], t, w);
      MarkSoFar(before, earlier, t, Wait(w));
      MarkOfLonger(run, t);
    }
  }

  // ------------------------------------------------------------------------------ get

  /** A version of slot i no older than what was stored when the call began in `first`. */
  ghost predicate VersionSince(first: State, s: State, i: nat, version: nat) {
    |WritesTo(first, i)| - 1 <= version < |WritesTo(s, i)|
  }

  /** A call of get(i), begun in `first`, in state s. */
  ghost predicate GetAt(first: State, s: State, t: Tid, i: nat) {
    && t in first.threads && t in s.threads && WritesTo(first, i) <= WritesTo(s, i)
    && var th, gets := s.threads[t], first.threads[t].gets;
       if th.pc.Idle?
       then exists version: nat :: VersionSince(first, s, i, version) && th.gets == gets + [WritesTo(s, i)[version]]
       else
         && th.gets == gets
         && (th.pc.GetUnlock? ==>
               VersionSince(first, s, i, th.pc.version) && th.pc.value == WritesTo(s, i)[th.pc.version])
  }

  lemma MemoryGrows(s: State, u: Tid, l: Label, i: nat)
    requires Shape(s) && Enabled(s, u, l) && i < |s.counts|
    ensures WritesTo(s, i) <= WritesTo(Next(s, u, l), i)
  {
    OwnUncounted(s, u, l, i);
  }

  lemma OthersGetStep(first: State, s: State, u: Tid, l: Label, t: Tid, i: nat)
    requires Shape(s) && Enabled(s, u, l) && u != t && i < |s.counts| && GetAt(first, s, t, i)
    ensures GetAt(first, Next(s, u, l), t, i)
  {
    OthersKept(s, u, l, t);
    MemoryGrows(s, u, l, i);
    if s.threads[t].pc.Idle? {
      var version: nat :| VersionSince(first, s, i, version)
        && s.threads[t].gets == first.threads[t].gets + [WritesTo(s, i)[version]];
      assert VersionSince(first, Next(s, u, l), i, version);
    }
  }

  lemma OwnGetStep(first: State, s: State, t: Tid, l: Label, i: nat)
    requires Shape(s) && Slots(s) && Enabled(s, t, l) && !l.Begin? && i < |s.counts| && GetAt(first, s, t, i)
    requires CallAt(Get(i), s.threads[t].pc, i, [], [])
    ensures GetAt(first, Next(s, t, l), t, i)
  {
    GetsEffect(s, t, l);
    MemoryGrows(s, t, l, i);
    OwnGetPc(s, t, l, i);
    if s.threads[t].pc.GetUnlock? {
      assert VersionSince(first, Next(s, t, l), i, s.threads[t].pc.version);
    }
  }

  lemma OwnGetPc(s: State, t: Tid, l: Label, i: nat)
    requires Shape(s) && Slots(s) && Enabled(s, t, l) && !l.Begin? && i < |s.counts|
    requires CallAt(Get(i), s.threads[t].pc, i, [], [])
    ensures t in Next(s, t, l).threads && WritesTo(Next(s, t, l), i) == WritesTo(s, i) != []
    ensures var pc, pc' := s.threads[t].pc, Next(s, t, l).threads[t].pc;
      && (pc'.Idle? <==> pc.GetUnlock?)
      && (pc'.GetUnlock? ==>
            pc'.version == |WritesTo(s, i)| - 1 && pc'.value == WritesTo(s, i)[|WritesTo(s, i)| - 1])
  {
    assert SlotOk(s, i);
  }

  lemma GetMove(first: State, s: State, move: Move, s': State, t: Tid, i: nat)
    requires Reachable(s) && Takes(s, move.mover, move.what, s') && i < |s.counts|
    requires !(move.mover == t && move.what.Begin?)
    requires GetAt(first, s, t, i) && CallAt(Get(i), s.threads[t].pc, i, [], [])
    ensures GetAt(first, s', t, i)
  {
    Taken(s, move.mover, move.what, s');
    ReachableInv(s);
    if move.mover == t {
      OwnGetStep(first, s, t, move.what, i);
    } else {
      OthersGetStep(first, s, move.mover, move.what, t, i);
    }
  }

  lemma GetBegins(s: State, t: Tid, i: nat, s': State)
    requires Takes(s, t, Begin(Get(i)), s')
    ensures GetAt(s, s', t, i)
  {
    Taken(s, t, Begin(Get(i)), s');
    BeginStep(s, t, Get(i), i);
  }

  lemma {:induction false} GetSoFar(run: seq<State>, moves: seq<Move>, t: Tid, i: nat)
    requires CallRun(run, moves, t, Get(i)) && i < |run[0].counts|
    ensures GetAt(run[0], Last(run), t, i)
    decreases |moves|
  {
    var last := |moves| - 1;
    if last == 0 {
      GetBegins(run[0], t, i, run[1]);
    } else {
      var before, earlier := run[..last + 1], moves[..last];
      GetSoFar(before, earlier, t, i);
      CallSoFar(before, earlier, t, Get(i), i);
      CallStaysReachable(before, earlier, t, Get(i));
      GetMove(run[0], run[last], moves[last], run[last + 1], t, i);
    }
  }

  /** A call begun as get(i), once over, has returned a datum that was stored in slot i, and not
      one older than the latest when the call began; so no older than what any wait had counted
      by then. */
  lemma {:induction false} GetReturnsItsSlot(run: seq<State>, moves: seq<Move>, t: Tid, i: nat)
    requires CallRun(run, moves, t, Get(i)) && Over(Last(run), t)
    ensures t in run[0].threads && t in Last(run).threads && i < |run[0].counts| && i < |Last(run).writes|
    ensures exists version: nat ::
      && run[0].counts[i] <= |WritesTo(run[0], i)| - 1 <= version < |Last(run).writes[i]|
      && Last(run).threads[t].gets == run[0].threads[t].gets + [Last(run).writes[i][version]]
    ensures OwnEntries(run, moves, t) == []
    ensures forall j :: 0 <= j < |run[0].counts| ==> OwnWrites(run, moves, t, j) == []
  {
    CallStarts(run, moves, t, Get(i));
    FirstMove(run[0], Move(t, Begin(Get(i))), run[1], t, Get(i), i);
    forall j | 0 <= j < |run[0].counts| ensures OwnWrites(run, moves, t, j) == [] {
      CallSoFar(run, moves, t, Get(i), j);
    }
    CallSoFar(run, moves, t, Get(i), i);
    GetSoFar(run, moves, t, i);
    CountedIsWritten(run[0], i);
    var version: nat :| VersionSince(run[0], Last(run), i, version)
      && Last(run).threads[t].gets == run[0].threads[t].gets + [WritesTo(Last(run), i)[version]];
  }

  lemma CountedIsWritten(s: State, i: nat)
    requires Reachable(s) && i < |s.counts|
    ensures s.counts[i] <= |WritesTo(s, i)| - 1
  {
    ReachableInv(s);
    assert SlotOk(s, i);
  }

  // ------------------------------------------------------------------- none of it is vacuous

  /** The state after the default constructor, with these initial data, for these threads. */
  function Constructed(data: seq<Datum>, tids: set<Tid>): State {
    var n := |data|;
    State(data, seq(n, _ => 0), 0, seq(n, _ => None), None,
          map t | t in tids :: Thread(Idle, [], seq(n, _ => 0), []),
          Running, [], seq(n, i requires 0 <= i < n => [data[i]]))
  }

  /** There is an initial state for any number of slots and of threads. */
  lemma ConstructedIsInitial(data: seq<Datum>, tids: set<Tid>)
    ensures Init(Constructed(data, tids)) && Reachable(Constructed(data, tids))
    ensures Constructed(data, tids).threads.Keys == tids && Constructed(data, tids).data == data
  {
    var s := Constructed(data, tids);
    assert IsRun([s]) && [s][|[s]| - 1] == s;
  }

  /** A thread outside all calls may begin any operation on any slot, and a parked thread may wake
      up spuriously, whatever the others are doing. */
  lemma AnyCallCanBegin(s: State, t: Tid, i: nat, d: Datum)
    requires Reachable(s) && s.exit == Running && t in s.threads && i < |s.counts|
    ensures Shape(s)
    ensures Over(s, t) ==>
      && Enabled(s, t, Begin(Set(i, d))) && Enabled(s, t, Begin(Get(i)))
      && Enabled(s, t, Begin(Wait(Slot(i)))) && Enabled(s, t, Begin(Wait(AnySlot)))
    ensures s.threads[t].pc.WaitParked? ==> Enabled(s, t, Spurious)
  {
    ReachableInv(s);
  }
}
