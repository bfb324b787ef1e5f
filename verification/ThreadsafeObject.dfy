/** The code of SingletypeThreadsafeObject inside its critical sections, over the arrays it
    updates in place.  Each section is proved to take exactly the steps that the protocol
    attributes to the thread running it. */
module ThreadsafeObject {
  import opened PublishWait
  import opened PublishWaitInvariant
  import opened PublishWaitProperties

  /** How the scanning loop of wait_for_update() ends. */
  datatype Scan = Modified(index: int) | HorriblyWrong

  /** What the scanning loop does from slot k on, when it has found `modified` so far. */
  function ScanFrom(initial: seq<nat>, counts: seq<nat>, k: nat, modified: int): Scan
    requires |initial| == |counts| && k <= |counts|
    decreases |counts| - k
  {
    if k == |counts| then Modified(modified)
    else if initial[k] + 1 == counts[k] then
      if modified != -1 then HorriblyWrong else ScanFrom(initial, counts, k + 1, k)
    else if initial[k] != counts[k] then HorriblyWrong
    else ScanFrom(initial, counts, k + 1, modified)
  }

  function ScanOf(initial: seq<nat>, counts: seq<nat>): Scan
    requires |initial| == |counts|
  {
    ScanFrom(initial, counts, 0, -1)
  }

  lemma {:induction false} ScanFromFinds(initial: seq<nat>, counts: seq<nat>, k: nat, m: int)
    requires |initial| == |counts| && k <= |counts| && -1 <= m < k
    requires forall j :: 0 <= j < k && j != m ==> counts[j] == initial[j]
    requires m >= 0 ==> counts[m] == initial[m] + 1
    ensures forall i: nat :: ScanFrom(initial, counts, k, m) == Modified(i) <==> OnlyBumped(initial, counts, i)
    ensures ScanFrom(initial, counts, k, m) == Modified(-1) <==> initial == counts
    decreases |counts| - k
  {
    if k == |counts| {
    } else if counts[k] == initial[k] || (counts[k] == initial[k] + 1 && m == -1) {
      ScanFromFinds(initial, counts, k + 1, if counts[k] == initial[k] then m else k);
    }
  }

  /** The loop finds slot i exactly when i went up by one and no other slot changed, -1 exactly
      when none did, and ends the process in every other case. */
  lemma ScanFindsTheOnlyBump(initial: seq<nat>, counts: seq<nat>)
    requires |initial| == |counts|
    ensures forall i: nat :: ScanOf(initial, counts) == Modified(i) <==> OnlyBumped(initial, counts, i)
    ensures ScanOf(initial, counts) == Modified(-1) <==> initial == counts
  {
    ScanFromFinds(initial, counts, 0, -1);
  }

  /** The protocol's next scan step, after n steps of thread t alone. */
  lemma TakeScanRound(s: State, t: Tid, n: nat, mid: State, snap: Snapshot, k: nat, m: int) returns (next: State)
    requires RunsAlone(s, t, n, mid) && Shape(mid) && Enabled(mid, t, Run)
    requires mid.threads[t].pc == WaitScan(snap, k, m)
    ensures |snap.counts| == |mid.counts| && k <= |mid.counts|
    ensures RunsAlone(s, t, n + 1, next) && Shape(next) && t in next.threads
    ensures next.data == mid.data && next.counts == mid.counts && next.total == mid.total
    ensures if k == |mid.counts| then next.threads[t].pc == WaitUnlock(AnySlot, snap, m) && next.exit == Running
      else
        var bumped, same := snap.counts[k] + 1 == mid.counts[k], snap.counts[k] == mid.counts[k];
        if same || (bumped && m == -1)
        then Enabled(next, t, Run) && next.threads[t].pc == WaitScan(snap, k + 1, if bumped then k else m)
        else next.exit == Corrupt(t)
  {
    ScanRoundEffect(mid, t, snap, k, m);
    RunsAloneThen(s, t, n, mid);
    next := Next(mid, t, Run);
  }

  class SingletypeThreadsafeObject {
    const data: array<Datum>
    const counts: array<nat>
    var total: nat

    ghost predicate Valid()
      reads this
    {
      data.Length == counts.Length && data as object != counts as object
    }

    /** The shared memory is as the protocol state says. */
    ghost predicate Shows(s: State)
      reads this, data, counts
    {
      Valid() && data[..] == s.data && counts[..] == s.counts && total == s.total
    }

    constructor (size: nat, zero: Datum)
      ensures Valid() && fresh(data) && fresh(counts)
      ensures data.Length == size && forall i :: 0 <= i < size ==> data[i] == zero && counts[i] == 0
      ensures total == 0
      ensures forall s :: Init(s) && s.data == data[..] ==> Shows(s)
    {
      data := new Datum[size](_ => zero);
      counts := new nat[size];
      new;
      for i := 0 to size
        invariant forall j :: 0 <= j < i ==> counts[j] == 0
        invariant forall j :: 0 <= j < size ==> data[j] == zero
        invariant Valid() && fresh(data) && fresh(counts)
      {
        counts[i] := 0;
      }
      total := 0;
      forall s | Init(s) && s.data == data[..] ensures Shows(s) {
        assert counts[..] == s.counts;
      }
    }

    /** set, under the mutex of the slot. */
    method Store(index: nat, datum: Datum, ghost s: State, ghost t: Tid) returns (ghost s': State)
      requires index < data.Length && Shows(s)
      requires Shape(s) && Enabled(s, t, Run) && s.threads[t].pc == SetWrite(index, datum)
      modifies data
      ensures data[..] == old(data[..])[index := datum]
      ensures Shows(s') && RunsAlone(s, t, 1, s') && t in s'.threads && s'.threads[t].pc == SetUnlockData(index)
    {
      data[index] := datum;
      s' := Next(s, t, Run);
      RunsAloneThen(s, t, 0, s);
    }

    /** set, under the condition mutex, up to the notification. */
    method Publish(index: nat, ghost s: State, ghost t: Tid) returns (ghost s': State)
      requires index < counts.Length && Shows(s)
      requires Shape(s) && Enabled(s, t, Run) && s.threads[t].pc == SetBumpSlot(index)
      modifies this`total, counts
      ensures counts[..] == old(counts[..])[index := old(counts[index]) + 1] && total == old(total) + 1
      ensures Shows(s') && RunsAlone(s, t, 2, s') && t in s'.threads && s'.threads[t].pc == SetNotify(index)
    {
      counts[index] := counts[index] + 1;
      ghost var s1 := Next(s, t, Run);
      ShapeKept(s, t, Run);
      RunsAloneThen(s, t, 0, s);
      total := total + 1;
      s' := Next(s1, t, Run);
      RunsAloneThen(s, t, 1, s1);
    }

    /** get, under the mutex of the slot. */
    method Copy(index: nat, ghost s: State, ghost t: Tid) returns (value: Datum, ghost s': State)
      requires index < data.Length && Shows(s)
      requires Shape(s) && Enabled(s, t, Run) && s.threads[t].pc == GetCopy(index)
      ensures value == data[index]
      ensures Shows(s') && RunsAlone(s, t, 1, s') && t in s'.threads
      ensures s'.threads[t].pc.GetUnlock? && s'.threads[t].pc.value == value
    {
      value := data[index];
      s' := Next(s, t, Run);
      RunsAloneThen(s, t, 0, s);
    }

    /** wait_for_update(), on entry: what the call remembers. */
    method TakeCounts(ghost s: State, ghost t: Tid)
      returns (initialCounts: array<nat>, initialTotal: nat, ghost s': State)
      requires Shows(s) && Shape(s) && Enabled(s, t, Run) && s.threads[t].pc == WaitSnapshot(AnySlot)
      ensures fresh(initialCounts) && initialCounts[..] == counts[..] && initialTotal == total
      ensures Shows(s') && RunsAlone(s, t, 1, s') && t in s'.threads
      ensures s'.threads[t].pc == WaitTest(AnySlot, Snapshot(initialTotal, initialCounts[..], |s.log|))
    {
      initialCounts := new nat[counts.Length](i requires 0 <= i < counts.Length reads this, counts => counts[i]);
      initialTotal := total;
      assert initialCounts[..] == counts[..];
      s' := Next(s, t, Run);
      RunsAloneThen(s, t, 0, s);
    }

    /** wait_for_update(), after the miss check: which slot was modified?  The thread takes n
        steps of the protocol: one per slot, up to the one that is horribly wrong if any is, and
        otherwise one more to leave the loop. */
    method FindModified(initial: array<nat>, ghost s: State, ghost t: Tid, ghost snap: Snapshot)
      returns (scan: Scan, ghost s': State, ghost n: nat)
      requires initial.Length == counts.Length
      requires Shows(s) && Shape(s) && Enabled(s, t, Run)
      requires s.threads[t].pc == WaitScan(snap, 0, -1) && snap.counts == initial[..]
      ensures scan == ScanOf(initial[..], counts[..])
      ensures RunsAlone(s, t, n, s') && Shows(s')
      ensures scan.HorriblyWrong? ==> 0 < n <= counts.Length && s'.exit == Corrupt(t)
      ensures scan.Modified? ==>
        && n == counts.Length + 1 && s'.exit == Running
        && t in s'.threads && s'.threads[t].pc == WaitUnlock(AnySlot, snap, scan.index)
    {
      var modified := -1;
      s' := s;
      for i := 0 to counts.Length
        invariant -1 <= modified < i
        invariant ScanOf(initial[..], counts[..]) == ScanFrom(initial[..], counts[..], i, modified)
        invariant RunsAlone(s, t, i, s') && Shape(s') && Enabled(s', t, Run) && Shows(s')
        invariant s'.threads[t].pc == WaitScan(snap, i, modified)
      {
        s' := TakeScanRound(s, t, i, s', snap, i, modified);
        if initial[i] + 1 == counts[i] {
          if modified != -1 {
            return HorriblyWrong, s', i + 1;
          }
          modified := i;
        } else if initial[i] != counts[i] {
          return HorriblyWrong, s', i + 1;
        }
      }
      s' := TakeScanRound(s, t, counts.Length, s', snap, counts.Length, modified);
      scan, n := Modified(modified), counts.Length + 1;
    }
  }
}
