/** Waits among running threads: once what a call watches was published, it needs a bounded
    number of its own steps to return, whatever the other threads do in between. */
module PublishWaitBounded {
  import opened Wrappers
  import opened PublishWait
  import opened PublishWaitInvariant
  import opened PublishWaitProperties
  import opened PublishWaitProgress

  ghost predicate StepOf(s: State, t: Tid, s': State) {
    exists l: Label :: Takes(s, t, l, s')
  }

  /** Any interleaving of any steps of any threads from a reachable state, new calls and spurious
      wakeups included; `movers` says who takes each step. */
  ghost predicate Follows(run: seq<State>, movers: seq<Tid>)
    decreases |movers|
  {
    && |run| == |movers| + 1
    && if movers == [] then Reachable(run[0])
       else
         var last := |movers| - 1;
         Follows(run[..last + 1], movers[..last]) && StepOf(run[last], movers[last], run[last + 1])
  }

  /** How many of the steps thread t took itself. */
  function OwnMoves(movers: seq<Tid>, t: Tid): nat {
    if movers == [] then 0
    else OwnMoves(movers[..|movers| - 1], t) + if movers[|movers| - 1] == t then 1 else 0
  }

  lemma {:induction false} FollowsStaysReachable(run: seq<State>, movers: seq<Tid>)
    requires Follows(run, movers)
    ensures Reachable(Last(run))
    decreases |movers|
  {
    if movers == [] {
    } else {
      var last := |movers| - 1;
      FollowsStaysReachable(run[..last + 1], movers[..last]);
      StepKeepsReachable(run[last], movers[last], run[last + 1]);
    }
  }

  lemma StepKeepsReachable(s: State, t: Tid, s': State)
    requires Reachable(s) && StepOf(s, t, s')
    ensures Reachable(s')
  {
    var l: Label :| Takes(s, t, l, s');
    Taken(s, t, l, s');
    ReachableStep(s, t, l);
  }

  lemma OnlyRunningStep(s: State, t: Tid, s': State)
    requires StepOf(s, t, s')
    ensures s.exit == Running
  {
    var l: Label :| Takes(s, t, l, s');
    Taken(s, t, l, s');
  }

  /** The call is awake, and the counter that it watches has moved past its snapshot. */
  ghost predicate Served(s: State, t: Tid, w: Watch, snap: Snapshot, reports: seq<Report>) {
    && Shape(s) && WaitsSince(s, t, w, snap) && !s.threads[t].pc.WaitParked?
    && (w.Slot? ==> w.index < |s.counts|) && snap.count < Watched(s, w)
    && s.threads[t].reports == reports
  }

  /** The steps that the call of thread t still has to take, at most. */
  function WaitWork(s: State, t: Tid): nat
    requires t in s.threads
  {
    ReaderWork(s.threads[t].pc, |s.counts|)
  }

  /** Nobody else can put the call back to sleep or give it more to do. */
  lemma OthersLeaveServed(s: State, u: Tid, l: Label, t: Tid, w: Watch, snap: Snapshot, reports: seq<Report>)
    requires Served(s, t, w, snap, reports) && Enabled(s, u, l) && u != t
    ensures Served(Next(s, u, l), t, w, snap, reports)
    ensures WaitWork(Next(s, u, l), t) == WaitWork(s, t)
  {
    ShapeKept(s, u, l);
    OthersKept(s, u, l, t);
    CounterEffect(s, u, l);
  }

  lemma OwnStepRuns(s: State, t: Tid, l: Label, w: Watch, snap: Snapshot, reports: seq<Report>)
    requires Served(s, t, w, snap, reports) && Enabled(s, t, l)
    ensures l == Run
  {
  }

  /** The call does not park again. */
  lemma OwnStepStaysAwake(s: State, t: Tid, w: Watch, snap: Snapshot, reports: seq<Report>)
    requires Served(s, t, w, snap, reports) && Enabled(s, t, Run)
    ensures t in Next(s, t, Run).threads && !Next(s, t, Run).threads[t].pc.WaitParked?
  {
  }

  lemma OwnStepServed(s: State, t: Tid, w: Watch, snap: Snapshot, reports: seq<Report>)
    requires Served(s, t, w, snap, reports) && Enabled(s, t, Run)
    requires !s.threads[t].pc.WaitUnlock? && Next(s, t, Run).exit == Running
    ensures Served(Next(s, t, Run), t, w, snap, reports)
    ensures WaitWork(Next(s, t, Run), t) < WaitWork(s, t)
  {
    ShapeKept(s, t, Run);
    OwnWork(s, t);
    OwnWaitGoesOn(s, t, w, snap);
    OwnStepStaysAwake(s, t, w, snap, reports);
    CounterEffect(s, t, Run);
    OwnHistoryEffect(s, t, Run);
  }

  /** Some state of the run is that in which the call has just returned. */
  ghost predicate HasReturned(run: seq<State>, t: Tid, w: Watch, snap: Snapshot, reports: seq<Report>) {
    exists k :: 0 <= k < |run| && Returned(run[k], t, w, snap, reports)
  }

  /** The call is served, and each step of its thread so far has used up some of its work. */
  ghost predicate OnTime(first: State, s: State, own: nat, t: Tid, w: Watch, snap: Snapshot)
    requires t in first.threads
  {
    Served(s, t, w, snap, first.threads[t].reports) && own + WaitWork(s, t) <= WaitWork(first, t)
  }

  lemma OnTimeNext(first: State, s: State, own: nat, mover: Tid, s': State, t: Tid, w: Watch, snap: Snapshot)
    requires t in first.threads && Reachable(s) && OnTime(first, s, own, t, w, snap) && StepOf(s, mover, s')
    ensures || s'.exit != Running
            || Returned(s', t, w, snap, first.threads[t].reports)
            || OnTime(first, s', own + if mover == t then 1 else 0, t, w, snap)
  {
    var l: Label :| Takes(s, mover, l, s');
    Taken(s, mover, l, s');
    if mover == t {
      OwnStep(s, l, t, w, snap, first.threads[t].reports);
    } else {
      OthersLeaveServed(s, mover, l, t, w, snap, first.threads[t].reports);
    }
  }

  lemma OwnStep(s: State, l: Label, t: Tid, w: Watch, snap: Snapshot, reports: seq<Report>)
    requires Reachable(s) && Served(s, t, w, snap, reports) && Enabled(s, t, l)
    ensures || Next(s, t, l).exit != Running
            || Returned(Next(s, t, l), t, w, snap, reports)
            || (Served(Next(s, t, l), t, w, snap, reports) && WaitWork(Next(s, t, l), t) < WaitWork(s, t))
  {
    OwnStepRuns(s, t, l, w, snap, reports);
    if s.threads[t].pc.WaitUnlock? {
      ReachableInv(s);
      assert WaitOk(s, s.threads[t].pc);
      OwnReturn(s, t, w, snap);
    } else if Next(s, t, Run).exit == Running {
      OwnStepServed(s, t, w, snap, reports);
    }
  }

  lemma {:induction false} OnTimeUntilReturned(run: seq<State>, movers: seq<Tid>, t: Tid, w: Watch, snap: Snapshot)
    requires Follows(run, movers) && t in run[0].threads
    requires Served(run[0], t, w, snap, run[0].threads[t].reports)
    ensures || Last(run).exit != Running
            || HasReturned(run, t, w, snap, run[0].threads[t].reports)
            || OnTime(run[0], Last(run), OwnMoves(movers, t), t, w, snap)
    decreases |movers|
  {
    if movers == [] {
    } else {
      var last := |movers| - 1;
      var before, reports := run[..last + 1], run[0].threads[t].reports;
      OnTimeUntilReturned(before, movers[..last], t, w, snap);
      OnlyRunningStep(run[last], movers[last], run[last + 1]);
      if HasReturned(before, t, w, snap, reports) {
        var k :| 0 <= k < |before| && Returned(before[k], t, w, snap, reports);
        assert Returned(run[k], t, w, snap, reports);
      } else {
        FollowsStaysReachable(before, movers[..last]);
        OnTimeNext(run[0], run[last], OwnMoves(movers[..last], t), movers[last], run[last + 1], t, w, snap);
      }
    }
  }

  lemma PublishedIsServed(s: State, t: Tid, w: Watch, snap: Snapshot)
    requires Reachable(s) && s.conditionOwner == None && WaitsSince(s, t, w, snap)
    requires snap.mark <= |s.log| && PublishedSince(w, s.log, snap.mark) >= 1
    ensures Served(s, t, w, snap, s.threads[t].reports) && WaitWork(s, t) <= |s.counts| + 5
  {
    ReachableInv(s);
    assert WaitOk(s, s.threads[t].pc);
    PublishedIsWatched(s, t, w, snap);
  }

  /** Bounded waiting: once something a call of wait_for_update watches was published and the
      condition mutex was released, the call returns within size + 5 steps of its own, whatever
      the other threads do meanwhile, unless the process exits: new calls and spurious wakeups
      do not delay it by a step. */
  lemma {:induction false} PublishedWaitIsShort(run: seq<State>, movers: seq<Tid>, t: Tid, w: Watch, snap: Snapshot)
    requires Follows(run, movers) && WaitsSince(run[0], t, w, snap) && run[0].conditionOwner == None
    requires snap.mark <= |run[0].log| && PublishedSince(w, run[0].log, snap.mark) >= 1
    requires OwnMoves(movers, t) >= |run[0].counts| + 5 && Last(run).exit == Running
    ensures HasReturned(run, t, w, snap, run[0].threads[t].reports)
  {
    StartsReachable(run, movers);
    PublishedIsServed(run[0], t, w, snap);
    OnTimeUntilReturned(run, movers, t, w, snap);
    if OnTime(run[0], Last(run), OwnMoves(movers, t), t, w, snap) { WorkIsLeft(Last(run), t); }
  }

  lemma {:induction false} StartsReachable(run: seq<State>, movers: seq<Tid>)
    requires Follows(run, movers)
    ensures Reachable(run[0])
    decreases |movers|
  {
    if movers == [] {
    } else {
      StartsReachable(run[..|movers|], movers[..|movers| - 1]);
    }
  }

  lemma WorkIsLeft(s: State, t: Tid)
    requires t in s.threads && PcInBounds(s.threads[t].pc, |s.counts|)
    requires HasSnapshot(s.threads[t].pc) && !s.threads[t].pc.WaitParked?
    ensures WaitWork(s, t) >= 1
  {
  }
}
