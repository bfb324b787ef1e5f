/** Progress of the publish/wait protocol: without new calls and spurious wakeups, every run
    comes to rest. */
module PublishWaitProgress {
  import opened Wrappers
  import opened PublishWait
  import opened PublishWaitInvariant
  import opened PublishWaitProperties

  /** Steps of set still to take. */
  function SetterWork(pc: Pc): nat {
    match pc
    case SetLockData(_, _) => 8
    case SetWrite(_, _) => 7
    case SetUnlockData(_) => 6
    case SetLockCondition(_) => 5
    case SetBumpSlot(_) => 4
    case SetBumpTotal(_) => 3
    case SetNotify(_) => 2
    case SetUnlockCondition(_) => 1
    case _ => 0
  }

  /** Steps of a wait or get still to take, at most, if nobody notifies in between. */
  function ReaderWork(pc: Pc, size: nat): nat {
    match pc
    case WaitLock(_) => size + 7
    case WaitSnapshot(_) => size + 6
    case WaitRelock(_, _) => size + 5
    case WaitTest(_, _) => size + 4
    case WaitDecide(_, _) => size + 3
    case WaitScan(_, k, _) => if k <= size then size + 2 - k else 0
    case WaitUnlock(_, _, _) => 1
    case GetLock(_) => 3
    case GetCopy(_) => 2
    case GetUnlock(_, _, _) => 1
    case _ => 0
  }

  // ------------------------------------------------------------ totals over threads

  function Product(x: nat, y: nat): nat { x * y }

  lemma ProductStep(x: nat, y: nat)
    ensures Product(x + 1, y) == Product(x, y) + y && Product(x, 0) == 0
  {
  }

  ghost function Total(ts: set<Tid>, work: map<Tid, nat>): nat
    requires ts <= work.Keys
  {
    if ts == {} then 0 else
    var t :| t in ts;
    work[t] + Total(ts - {t}, work)
  }

  lemma {:induction false} TotalSplits(ts: set<Tid>, work: map<Tid, nat>, t: Tid)
    requires ts <= work.Keys && t in ts
    ensures Total(ts, work) == work[t] + Total(ts - {t}, work)
    decreases |ts|
  {
    var u :| u in ts && Total(ts, work) == work[u] + Total(ts - {u}, work);
    if u == t {
    } else {
      TotalSplits(ts - {u}, work, t);
      TotalSplits(ts - {t}, work, u);
      assert ts - {u} - {t} == ts - {t} - {u};
    }
  }

  lemma {:induction false} TotalGrowsBy(ts: set<Tid>, work: map<Tid, nat>, work': map<Tid, nat>, c: nat)
    requires ts <= work.Keys && ts <= work'.Keys
    requires forall u :: u in ts ==> work'[u] <= work[u] + c
    ensures Total(ts, work') <= Total(ts, work) + Product(|ts|, c)
    decreases |ts|
  {
    if ts == {} {
    } else {
      var u :| u in ts;
      TotalSplits(ts, work, u);
      TotalSplits(ts, work', u);
      TotalGrowsBy(ts - {u}, work, work', c);
      assert |ts - {u}| == |ts| - 1;
      ProductStep(|ts| - 1, c);
    }
  }

  ghost function TotalWork(work: map<Tid, nat>): nat { Total(work.Keys, work) }

  /** The entry of t changes, the others grow by at most c. */
  lemma SumChanges(work: map<Tid, nat>, work': map<Tid, nat>, t: Tid, c: nat)
    requires work.Keys == work'.Keys && t in work.Keys
    requires forall u :: u in work.Keys && u != t ==> work'[u] <= work[u] + c
    ensures TotalWork(work') + work[t] <= TotalWork(work) + work'[t] + Product(|work.Keys|, c)
  {
    var rest := work.Keys - {t};
    TotalSplits(work.Keys, work, t);
    TotalSplits(work.Keys, work', t);
    TotalGrowsBy(rest, work, work', c);
    Outweighs(|work.Keys|, |rest|, c);
  }

  lemma {:induction false} Outweighs(x: nat, y: nat, w: nat)
    requires y <= x
    ensures Product(y, w) <= Product(x, w)
    ensures y < x ==> Product(y, w) + w <= Product(x, w)
  {
    if y == x {
    } else {
      Outweighs(x - 1, y, w);
      ProductStep(x - 1, w);
    }
  }

  ghost function SetterWorks(s: State): map<Tid, nat> {
    map t | t in s.threads :: SetterWork(s.threads[t].pc)
  }

  ghost function ReaderWorks(s: State): map<Tid, nat> {
    map t | t in s.threads :: ReaderWork(s.threads[t].pc, |s.counts|)
  }

  /** The work left in a state.  A step of set outweighs the work of all the waiting threads
      that it may wake. */
  ghost function Remaining(s: State): nat {
    Product(TotalWork(SetterWorks(s)), WakeCost(s)) + TotalWork(ReaderWorks(s)) + if s.exit == Running then 1 else 0
  }

  function WakeCost(s: State): nat {
    Product(|s.threads.Keys|, |s.counts| + 5) + 1
  }

  // -------------------------------------------------------------- one step of a run

  ghost function NextPc(s: State, t: Tid): Pc
    requires Shape(s) && Enabled(s, t, Run)
  {
    ArraysKept(s, t, Run);
    Next(s, t, Run).threads[t].pc
  }

  lemma OwnWork(s: State, t: Tid)
    requires Shape(s) && Enabled(s, t, Run)
    ensures var s', pc, pc' := Next(s, t, Run), s.threads[t].pc, NextPc(s, t);
      || (s'.exit != Running && pc' == pc && !pc.SetNotify?)
      || (SetterWork(pc') < SetterWork(pc) && ReaderWork(pc', |s.counts|) == 0 && s'.exit == Running)
      || (SetterWork(pc') == SetterWork(pc) && ReaderWork(pc', |s.counts|) < ReaderWork(pc, |s.counts|)
          && !pc.SetNotify? && s'.exit == Running)
  {
  }

  lemma OthersWork(s: State, t: Tid, u: Tid)
    requires Shape(s) && Enabled(s, t, Run) && u in s.threads && u != t
    ensures u in Next(s, t, Run).threads
    ensures var pc, pc' := s.threads[u].pc, Next(s, t, Run).threads[u].pc;
      && SetterWork(pc') == SetterWork(pc)
      && ReaderWork(pc', |s.counts|)
         <= ReaderWork(pc, |s.counts|) + if s.threads[t].pc.SetNotify? then |s.counts| + 5 else 0
  {
    OthersKept(s, t, Run, u);
    if !s.threads[t].pc.SetNotify? { SleepersSleepOn(s, t, u); }
  }

  lemma SleepersSleepOn(s: State, t: Tid, u: Tid)
    requires Shape(s) && Enabled(s, t, Run) && u in s.threads && u != t && !s.threads[t].pc.SetNotify?
    ensures u in Next(s, t, Run).threads && Next(s, t, Run).threads[u] == s.threads[u]
  {
  }

  lemma SetterWorkEffect(s: State, t: Tid)
    requires Shape(s) && Enabled(s, t, Run)
    ensures var pc, pc' := s.threads[t].pc, NextPc(s, t);
      TotalWork(SetterWorks(Next(s, t, Run))) + SetterWork(pc) <= TotalWork(SetterWorks(s)) + SetterWork(pc')
  {
    var s' := Next(s, t, Run);
    ArraysKept(s, t, Run);
    forall u | u in s.threads && u != t ensures SetterWorks(s')[u] == SetterWorks(s)[u] { OthersWork(s, t, u); }
    SumChanges(SetterWorks(s), SetterWorks(s'), t, 0);
  }

  lemma ReaderWorkEffect(s: State, t: Tid, c: nat)
    requires Shape(s) && Enabled(s, t, Run)
    requires c == if s.threads[t].pc.SetNotify? then |s.counts| + 5 else 0
    ensures var pc, pc', n := s.threads[t].pc, NextPc(s, t), |s.counts|;
      TotalWork(ReaderWorks(Next(s, t, Run))) + ReaderWork(pc, n)
      <= TotalWork(ReaderWorks(s)) + ReaderWork(pc', n) + Product(|s.threads.Keys|, c)
  {
    var s' := Next(s, t, Run);
    ArraysKept(s, t, Run);
    forall u | u in s.threads && u != t ensures ReaderWorks(s')[u] <= ReaderWorks(s)[u] + c { OthersWork(s, t, u); }
    assert ReaderWorks(s).Keys == s.threads.Keys;
    SumChanges(ReaderWorks(s), ReaderWorks(s'), t, c);
  }

  lemma Weighed(a: nat, a': nat, b: nat, b': nat, cost: nat)
    requires a' <= a && (b' < b || (a' < a && b' < b + cost))
    ensures Product(a', cost) + b' < Product(a, cost) + b
  {
    Outweighs(a, a', cost);
  }

  lemma TotalsShrink(s: State, t: Tid)
    requires Shape(s) && Enabled(s, t, Run) && Next(s, t, Run).exit == Running
    ensures var s' := Next(s, t, Run);
      var a, a' := TotalWork(SetterWorks(s)), TotalWork(SetterWorks(s'));
      var b, b' := TotalWork(ReaderWorks(s)), TotalWork(ReaderWorks(s'));
      a' <= a && (b' < b || (a' < a && b' < b + WakeCost(s)))
  {
    OwnWork(s, t);
    SetterWorkEffect(s, t);
    if s.threads[t].pc.SetNotify? {
      ReaderWorkEffect(s, t, |s.counts| + 5);
    } else {
      ReaderWorkEffect(s, t, 0);
      ProductStep(|s.threads.Keys|, 0);
    }
  }

  lemma ExitKeepsThreads(s: State, t: Tid)
    requires Shape(s) && Enabled(s, t, Run) && Next(s, t, Run).exit != Running
    ensures Next(s, t, Run).threads == s.threads && |Next(s, t, Run).counts| == |s.counts|
  {
  }

  lemma ExitUsesUpWork(s: State, t: Tid)
    requires Shape(s) && Enabled(s, t, Run) && Next(s, t, Run).exit != Running
    ensures Remaining(Next(s, t, Run)) < Remaining(s)
  {
    ExitKeepsThreads(s, t);
    var s' := Next(s, t, Run);
    assert SetterWorks(s') == SetterWorks(s) && ReaderWorks(s') == ReaderWorks(s);
  }

  lemma RunningUsesUpWork(s: State, t: Tid)
    requires Shape(s) && Enabled(s, t, Run) && Next(s, t, Run).exit == Running
    ensures Remaining(Next(s, t, Run)) < Remaining(s)
  {
    var s' := Next(s, t, Run);
    ArraysKept(s, t, Run);
    assert WakeCost(s') == WakeCost(s);
    TotalsShrink(s, t);
    Weighed(TotalWork(SetterWorks(s)), TotalWork(SetterWorks(s')),
            TotalWork(ReaderWorks(s)), TotalWork(ReaderWorks(s')), WakeCost(s));
  }

  /** Between new calls and spurious wakeups every step uses up work: no thread spins, and a
      notification causes less work than its setter gives up. */
  lemma EveryStepMakesProgress(s: State, t: Tid)
    requires Shape(s) && Enabled(s, t, Run)
    ensures Remaining(Next(s, t, Run)) < Remaining(s)
  {
    if Next(s, t, Run).exit == Running {
      RunningUsesUpWork(s, t);
    } else {
      ExitUsesUpWork(s, t);
    }
  }

  /** A step that starts no call and wakes nobody spuriously. */
  ghost predicate SettlingStep(s: State, s': State) {
    exists t: Tid :: Takes(s, t, Run, s')
  }

  /** A run of such steps from a reachable state. */
  ghost predicate Settling(run: seq<State>) {
    && |run| > 0
    && Reachable(run[0])
    && forall j, k :: 0 <= j && k == j + 1 < |run| ==> SettlingStep(run[j], run[k])
  }

  function Last(run: seq<State>): State
    requires |run| > 0
  {
    run[|run| - 1]
  }

  /** A run of such steps is no longer than the work in its first state. */
  lemma {:induction false} RunsSettle(run: seq<State>)
    requires |run| > 0 && forall j, k :: 0 <= j && k == j + 1 < |run| ==> SettlingStep(run[j], run[k])
    ensures |run| - 1 <= Remaining(run[0]) - Remaining(run[|run| - 1])
    decreases |run|
  {
    if |run| == 1 {
    } else {
      var s := run[0];
      assert SettlingStep(run[0], run[1]);
      var t: Tid :| Takes(s, t, Run, run[1]);
    Taken(s, t, Run, run[1]);
      EveryStepMakesProgress(s, t);
      var after := run[1..];
      forall j, k | 0 <= j && k == j + 1 < |after| ensures SettlingStep(after[j], after[k]) {
        assert SettlingStep(run[j + 1], run[k + 1]);
      }
      RunsSettle(after);
    }
  }

  /** The process has exited, or every thread is done or parked with nothing published for it. */
  ghost predicate AtRest(s: State) {
    Shape(s) && (s.exit != Running || forall t :: t in s.threads ==> Resting(s, t))
  }

  /** A state that no such step leaves. */
  ghost predicate Settled(s: State) {
    Shape(s) && forall t :: t in s.threads ==> !Enabled(s, t, Run)
  }

  lemma SettledExactlyAtRest(s: State)
    requires Reachable(s)
    ensures Settled(s) <==> AtRest(s)
  {
    ReachableInv(s);
    if s.exit == Running { OnlyQuietWaitersAreStuck(s); }
  }

  lemma {:induction false} SettlingStaysReachable(run: seq<State>, k: nat)
    requires Settling(run) && k < |run|
    ensures Reachable(run[k])
  {
    if k == 0 {
    } else {
      SettlingStaysReachable(run, k - 1);
      SettlingStepReaches(run[k - 1], run[k]);
    }
  }

  lemma SettlingStepReaches(s: State, s': State)
    requires Reachable(s) && SettlingStep(s, s')
    ensures Reachable(s')
  {
    var t: Tid :| Takes(s, t, Run, s');
    Taken(s, t, Run, s');
    ReachableStep(s, t, Run);
  }

  /** A run of such steps that cannot be continued has come to rest, and only such a run has. */
  lemma UncutRunsComeToRest(run: seq<State>)
    requires Settling(run)
    ensures Settled(Last(run)) <==> AtRest(Last(run))
  {
    SettlingStaysReachable(run, |run| - 1);
    SettledExactlyAtRest(Last(run));
  }

  lemma PrependSettling(s: State, t: Tid, run: seq<State>)
    requires Reachable(s) && Shape(s) && Enabled(s, t, Run)
    requires Settling(run) && run[0] == Next(s, t, Run)
    ensures Settling([s] + run)
  {
    var longer := [s] + run;
    Taken(s, t, Run, run[0]);
    forall j, k | 0 <= j && k == j + 1 < |longer| ensures SettlingStep(longer[j], longer[k]) {
      if j > 0 { assert SettlingStep(run[j - 1], run[k - 1]); }
    }
  }

  /** From every reachable state there is such a run, and it ends at rest. */
  lemma {:induction false} EverythingComesToRest(s: State) returns (run: seq<State>)
    requires Reachable(s)
    ensures Settling(run) && run[0] == s && AtRest(Last(run))
    decreases Remaining(s)
  {
    ReachableInv(s);
    SettledExactlyAtRest(s);
    if Settled(s) {
      run := [s];
    } else {
      var t :| t in s.threads && Enabled(s, t, Run);
      EveryStepMakesProgress(s, t);
      ReachableStep(s, t, Run);
      var rest := EverythingComesToRest(Next(s, t, Run));
      PrependSettling(s, t, rest);
      run := [s] + rest;
    }
  }

  // ------------------------------------------------------------------ waits that return

  /** Thread t is inside a call of wait_for_update that entered with this snapshot. */
  ghost predicate WaitsSince(s: State, t: Tid, w: Watch, snap: Snapshot) {
    && t in s.threads && HasSnapshot(s.threads[t].pc)
    && WatchOf(s.threads[t].pc) == w && s.threads[t].pc.snap == snap
  }

  /** That call has returned: something it watches was published since its snapshot, and a call
      that watches every slot has reported the first entry since. */
  ghost predicate Returned(s: State, t: Tid, w: Watch, snap: Snapshot, reports: seq<Report>) {
    && t in s.threads && s.threads[t].pc.Idle?
    && snap.mark <= |s.log| && PublishedSince(w, s.log, snap.mark) >= 1
    && s.threads[t].reports ==
       if w.AnySlot? then reports + [Report(snap.mark, s.log[snap.mark])] else reports
  }

  ghost predicate WaitsOrReturned(s: State, t: Tid, w: Watch, snap: Snapshot, reports: seq<Report>) {
    || (WaitsSince(s, t, w, snap) && s.threads[t].reports == reports)
    || Returned(s, t, w, snap, reports)
  }

  lemma PublishedGrows(w: Watch, log: seq<nat>, log': seq<nat>, mark: nat)
    requires mark <= |log| && log <= log'
    ensures PublishedSince(w, log, mark) <= PublishedSince(w, log', mark)
  {
    assert log'[mark..] == log[mark..] + log'[|log|..];
  }

  lemma PublishedIsWatched(s: State, t: Tid, w: Watch, snap: Snapshot)
    requires Shape(s) && Counters(s) && !BetweenBumps(s)
    requires WaitsSince(s, t, w, snap) && WaitOk(s, s.threads[t].pc)
    ensures snap.mark <= |s.log| && (w.Slot? ==> w.index < |s.counts|)
    ensures snap.count + PublishedSince(w, s.log, snap.mark) == Watched(s, w)
  {
    assert s.log == s.log[..snap.mark] + s.log[snap.mark..];
  }

  /** A step of the waiting thread itself: it waits on, or returns what was published. */
  lemma OwnWaitGoesOn(s: State, t: Tid, w: Watch, snap: Snapshot)
    requires Shape(s) && Enabled(s, t, Run) && WaitsSince(s, t, w, snap)
    ensures t in Next(s, t, Run).threads
    ensures var s' := Next(s, t, Run);
      if s.threads[t].pc.WaitUnlock? then s'.threads[t].pc.Idle? else WaitsSince(s', t, w, snap)
  {
  }

  lemma OwnReturn(s: State, t: Tid, w: Watch, snap: Snapshot)
    requires Shape(s) && Locks(s) && Counters(s) && Enabled(s, t, Run)
    requires WaitsSince(s, t, w, snap) && s.threads[t].pc.WaitUnlock? && WaitOk(s, s.threads[t].pc)
    ensures Returned(Next(s, t, Run), t, w, snap, s.threads[t].reports)
  {
    CounterEffect(s, t, Run);
    OwnHistoryEffect(s, t, Run);
    OwnWaitGoesOn(s, t, w, snap);
    PublishedIsWatched(s, t, w, snap);
  }

  lemma OwnStepServes(s: State, t: Tid, w: Watch, snap: Snapshot, reports: seq<Report>)
    requires Inv(s) && Enabled(s, t, Run) && WaitsOrReturned(s, t, w, snap, reports)
    ensures WaitsOrReturned(Next(s, t, Run), t, w, snap, reports)
  {
    assert WaitOk(s, s.threads[t].pc);
    OwnWaitGoesOn(s, t, w, snap);
    if s.threads[t].pc.WaitUnlock? {
      OwnReturn(s, t, w, snap);
    } else {
      OwnHistoryEffect(s, t, Run);
    }
  }

  lemma OthersStepServes(s: State, u: Tid, t: Tid, w: Watch, snap: Snapshot, reports: seq<Report>)
    requires Shape(s) && Enabled(s, u, Run) && u != t && WaitsOrReturned(s, t, w, snap, reports)
    ensures WaitsOrReturned(Next(s, u, Run), t, w, snap, reports)
  {
    OthersKept(s, u, Run, t);
    CounterEffect(s, u, Run);
    if Returned(s, t, w, snap, reports) { PublishedGrows(w, s.log, Next(s, u, Run).log, snap.mark); }
  }

  lemma {:induction false} WaitsUntilReturned(run: seq<State>, k: nat, t: Tid, w: Watch, snap: Snapshot)
    requires Settling(run) && k < |run| && WaitsSince(run[0], t, w, snap)
    ensures WaitsOrReturned(run[k], t, w, snap, run[0].threads[t].reports)
  {
    if k == 0 {
    } else {
      var before, reports := run[k - 1], run[0].threads[t].reports;
      WaitsUntilReturned(run, k - 1, t, w, snap);
      SettlingStaysReachable(run, k - 1);
      ReachableInv(before);
      assert SettlingStep(before, run[k]);
      var u: Tid :| Takes(before, u, Run, run[k]);
    Taken(before, u, Run, run[k]);
      if u == t {
        OwnStepServes(before, t, w, snap, reports);
      } else {
        OthersStepServes(before, u, t, w, snap, reports);
      }
    }
  }

  lemma RestingMeansUnpublished(s: State, t: Tid, w: Watch, snap: Snapshot)
    requires Inv(s) && s.conditionOwner == None && WaitsSince(s, t, w, snap) && Resting(s, t)
    ensures s.threads[t].pc == WaitParked(w, snap)
    ensures snap.mark <= |s.log| && PublishedSince(w, s.log, snap.mark) == 0
  {
    assert WaitOk(s, s.threads[t].pc);
    PublishedIsWatched(s, t, w, snap);
  }

  /** No update is slept through for good: when a run of such steps has come to rest and the
      process lives, a call that was waiting at its start has returned if and only if something
      it watches was published since its snapshot, and otherwise is parked.  A call that watches
      every slot has reported the first entry since. */
  lemma WaitsReturnIfPublished(run: seq<State>, t: Tid, w: Watch, snap: Snapshot)
    requires Settling(run) && WaitsSince(run[0], t, w, snap)
    requires Settled(Last(run)) && Last(run).exit == Running
    ensures t in Last(run).threads && snap.mark <= |Last(run).log|
    ensures var s, published := Last(run), PublishedSince(w, Last(run).log, snap.mark) >= 1;
      && (Returned(s, t, w, snap, run[0].threads[t].reports) <==> published)
      && (s.threads[t].pc == WaitParked(w, snap) <==> !published)
  {
    var s := Last(run);
    SettlingStaysReachable(run, |run| - 1);
    ReachableInv(s);
    OnlyQuietWaitersAreStuck(s);
    WaitsUntilReturned(run, |run| - 1, t, w, snap);
    if WaitsSince(s, t, w, snap) { RestingMeansUnpublished(s, t, w, snap); }
  }

  /** In particular, when it was published before the run already. */
  lemma PublishedWaitsReturn(run: seq<State>, t: Tid, w: Watch, snap: Snapshot)
    requires Settling(run) && WaitsSince(run[0], t, w, snap) && Settled(Last(run))
    requires snap.mark <= |run[0].log| && PublishedSince(w, run[0].log, snap.mark) >= 1
    ensures Last(run).exit == Running ==> Returned(Last(run), t, w, snap, run[0].threads[t].reports)
  {
    LogGrows(run, |run| - 1);
    if Last(run).exit == Running {
      WaitsReturnIfPublished(run, t, w, snap);
      PublishedGrows(w, run[0].log, Last(run).log, snap.mark);
    }
  }

  lemma {:induction false} LogGrows(run: seq<State>, k: nat)
    requires Settling(run) && k < |run|
    ensures run[0].log <= run[k].log
  {
    if k == 0 {
    } else {
      LogGrows(run, k - 1);
      assert SettlingStep(run[k - 1], run[k]);
      var t: Tid :| Takes(run[k - 1], t, Run, run[k]);
    Taken(run[k - 1], t, Run, run[k]);
      CounterEffect(run[k - 1], t, Run);
    }
  }

  lemma ReachableStep(s: State, t: Tid, l: Label)
    requires Reachable(s) && Shape(s) && Enabled(s, t, l)
    ensures Reachable(Next(s, t, l))
  {
    var run: seq<State> :| IsRun(run) && run[|run| - 1] == s;
    Taken(s, t, l, Next(s, t, l));
    ExtendedRun(run, Next(s, t, l));
    assert (run + [Next(s, t, l)])[|run|] == Next(s, t, l);
  }

  lemma {:induction false} ExtendedRun(run: seq<State>, s': State)
    requires IsRun(run) && Step(run[|run| - 1], s')
    ensures IsRun(run + [s'])
  {
    assert (run + [s'])[..|run|] == run;
  }
}
