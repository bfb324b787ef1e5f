/** CheckpointTimer: one Timer for the whole iteration (index 0) and one per checkpoint.  The
    array holds the timers by value, as std::array does. */
module CheckpointTiming {
  import opened Moments
  import opened RealtimeClock
  import opened TimerStatistics
  import opened Wrappers

  datatype Checkpoints = Checkpoints(timers: seq<TimerState>, names: seq<string>, current: nat)

  predicate Shape(s: Checkpoints) {
    && |s.timers| == |s.names| >= 2
    && forall i :: 0 <= i < |s.timers| ==> |s.timers[i].window| == s.timers[i].capacity
  }

  predicate Init(s: Checkpoints) {
    && Shape(s) && s.current == 1
    && (forall i :: 0 <= i < |s.timers| ==> s.timers[i] == Fresh())
    && s.names[0] == "Total"
    && forall i :: 1 <= i < |s.names| ==> s.names[i] == ""
  }

  /** Each call reads the clock twice: to end an interval, and to begin the next one. */
  datatype Call =
    | Start(at: real, after: real)
    | Checkpoint(name: string, at: real, after: real)

  function AfterStart(s: Checkpoints, at: real, after: real): (r: Checkpoints)
    requires Shape(s)
    ensures Shape(r) && |r.timers| == |s.timers|
  {
    var total := s.timers[0 := TacTic(s.timers[0], at)];
    s.(timers := total[1 := Tic(total[1], after)], current := 1)
  }

  /** Another name is already stored for this checkpoint: std::runtime_error. */
  predicate Mismatch(s: Checkpoints, name: string)
    requires Shape(s) && s.current < |s.timers|
  {
    s.names[s.current] != "" && s.names[s.current] != name
  }

  function AfterCheckpoint(s: Checkpoints, name: string, at: real, after: real): (r: Checkpoints)
    requires Shape(s) && s.current < |s.timers|
    ensures Shape(r) && |r.timers| == |s.timers| && r.current <= |r.timers|
  {
    var c := s.current;
    var logged := s.(timers := s.timers[c := Tac(s.timers[c], at)]);
    if Mismatch(s, name) then logged
    else
      var named := if s.names[c] == "" then logged.(names := s.names[c := name]) else logged;
      named.(current := c + 1,
             timers := if c + 1 < |s.timers| then named.timers[c + 1 := Tic(named.timers[c + 1], after)]
                       else named.timers)
  }

  /** Past its last checkpoint an iteration must not call checkpoint: the source would index
      its arrays out of bounds. */
  predicate Callable(s: Checkpoints, call: Call)
    requires Shape(s)
  {
    call.Checkpoint? ==> s.current < |s.timers|
  }

  function Apply(s: Checkpoints, call: Call): (r: Checkpoints)
    requires Shape(s) && Callable(s, call)
    ensures Shape(r) && |r.timers| == |s.timers|
  {
    match call
    case Start(at, after) => AfterStart(s, at, after)
    case Checkpoint(name, at, after) => AfterCheckpoint(s, name, at, after)
  }

  // ------------------------------------------------------------------------ the class

  class CheckpointTimer {
    const timers: array<TimerState>
    const names: array<string>
    var current: nat

    ghost function View(): Checkpoints
      reads this, timers, names
    {
      Checkpoints(timers[..], names[..], current)
    }

    ghost predicate Valid()
      reads this, timers, names
    {
      Shape(View())
    }

    constructor (checkpoints: nat)
      requires checkpoints > 0
      ensures fresh(timers) && fresh(names)
      ensures Valid() && Init(View()) && timers.Length == names.Length == checkpoints + 1 && current == 1
      ensures names[0] == "Total" && forall i :: 1 <= i <= checkpoints ==> names[i] == ""
      ensures forall i :: 0 <= i <= checkpoints ==> timers[i].ticTime == None && timers[i].count == 0
    {
      timers := new TimerState[checkpoints + 1](_ => Fresh());
      names := new string[checkpoints + 1](i => if i == 0 then "Total" else "");
      current := 1;
    }

    method Start(clock: Clock) returns (ghost at: real, ghost after: real)
      requires Valid()
      modifies this, timers, clock
      ensures clock.now >= old(clock.now) && after * 1_000_000_000.0 == clock.now as real
      ensures old(clock.now) as real <= at * 1_000_000_000.0 && at <= after
      ensures Valid() && View() == AfterStart(old(View()), at, after)
      ensures current == 1 && timers[0].ticTime == Some(at) && timers[1].ticTime == Some(after)
      ensures forall i :: 2 <= i < timers.Length ==> timers[i] == old(timers[i])
    {
      var sec := clock.CurrentTimeSec();
      timers[0] := TacTic(timers[0], sec);
      at := sec;
      current := 1;
      sec := clock.CurrentTimeSec();
      timers[current] := Tic(timers[current], sec);
      after := sec;
    }

    /** The result says whether the call was accepted; the source throws if not. */
    method Checkpoint(clock: Clock, name: string) returns (accepted: bool, ghost at: real, ghost after: real)
      requires Valid() && current < timers.Length
      modifies this, timers, names, clock
      ensures clock.now >= old(clock.now) && after * 1_000_000_000.0 == clock.now as real
      ensures old(clock.now) as real <= at * 1_000_000_000.0 && at <= after
      ensures accepted <==> !Mismatch(old(View()), name)
      ensures Valid() && View() == AfterCheckpoint(old(View()), name, at, after)
      ensures accepted <==> old(names[current]) == "" || old(names[current]) == name
      ensures current == old(current) + if accepted then 1 else 0
      ensures accepted ==> names[old(current)] == name
      ensures accepted && current < timers.Length ==> timers[current].ticTime == Some(after)
      ensures forall i :: 0 <= i < names.Length && (i != old(current) || !accepted) ==> names[i] == old(names[i])
    {
      var sec := clock.CurrentTimeSec();
      ghost var s := View();
      timers[current] := Tac(timers[current], sec);
      at, after := sec, sec;
      assert View() == s.(timers := s.timers[current := Tac(s.timers[current], sec)]);
      if names[current] == "" {
        names[current] := name;
      } else if names[current] != name {
        return false, at, after;
      }
      current := current + 1;
      if current < timers.Length {
        sec := clock.CurrentTimeSec();
        after := sec;
        timers[current] := Tic(timers[current], sec);
      }
      accepted := true;
    }
  }

  // -------------------------------------------------- any use, mismatches included

  /** The state after some calls, as long as the source stays within its arrays. */
  function AnyUse(s: Checkpoints, calls: seq<Call>): Option<Checkpoints>
    requires Shape(s)
    decreases |calls|
  {
    if calls == [] then Some(s)
    else if !Callable(s, calls[0]) then None
    else AnyUse(Apply(s, calls[0]), calls[1..])
  }

  /** A name once stored never changes, whatever is called, accepted or not. */
  lemma {:induction false} NamesStick(s: Checkpoints, calls: seq<Call>, i: nat)
    requires Shape(s) && i < |s.names| && s.names[i] != "" && AnyUse(s, calls).Some?
    ensures i < |AnyUse(s, calls).value.names| && AnyUse(s, calls).value.names[i] == s.names[i]
    decreases |calls|
  {
    if calls == [] {
    } else {
      NamesStick(Apply(s, calls[0]), calls[1..], i);
    }
  }

  // ------------------------------------------------------------------- histories of runs

  /** An interval of time. */
  datatype Span = Span(from: real, to: real)

  /** What happened so far: the first and the last start, where the interval of the current
      checkpoint began, the latest clock reading, the number of starts, per index how many
      calls were accepted and rejected; and the spans that checkpoints measured, in order.
      A rejected call measures from the mark and leaves it where it is: `front` is where the
      latest such span ended, `added` holds what each span adds behind it, and `repeated` is
      the time that was measured more than once. */
  datatype History = History(first: real, last: real, mark: real, front: real, now: real, starts: nat,
                             reached: seq<nat>, rejected: seq<nat>,
                             spans: seq<Span>, added: seq<Span>, repeated: real)

  function Blank(n: nat, now: real): History {
    History(now, now, now, now, now, 0, seq(n, _ => 0), seq(n, _ => 0), [], [], 0.0)
  }

  /** Calls in bounds: start comes first, no more checkpoints than the timer has, and a clock
      that does not go back.  Any checkpoint may be rejected. */
  predicate Possible(s: Checkpoints, h: History, call: Call)
    requires Shape(s)
  {
    && h.now <= call.at <= call.after
    && (call.Checkpoint? ==> h.starts > 0 && s.current < |s.timers|)
  }

  predicate Rejected(s: Checkpoints, call: Call)
    requires Shape(s) && Callable(s, call)
  {
    call.Checkpoint? && Mismatch(s, call.name)
  }

  /** A checkpoint called after a rejected one that came later than the mark. */
  predicate Repeats(h: History, call: Call) { call.Checkpoint? && h.front > h.mark }

  function Bump(counts: seq<nat>, i: nat): seq<nat>
    requires i < |counts|
  {
    counts[i := counts[i] + 1]
  }

  predicate Sized(s: Checkpoints, h: History) {
    Shape(s) && |h.reached| == |h.rejected| == |s.timers| && 1 <= s.current <= |s.timers|
  }

  function Recorded(s: Checkpoints, h: History, call: Call): History
    requires Sized(s, h) && Callable(s, call)
  {
    match call
    case Start(at, after) =>
      h.(first := if h.starts == 0 then at else h.first, last := at, mark := after, front := after,
         now := after, starts := h.starts + 1)
    case Checkpoint(name, at, after) =>
      var measured := h.(spans := h.spans + [Span(h.mark, at)], added := h.added + [Span(h.front, at)],
                         repeated := h.repeated + (h.front - h.mark), now := after);
      if Mismatch(s, name) then measured.(front := at, rejected := Bump(h.rejected, s.current))
      else measured.(mark := after, front := after, reached := Bump(h.reached, s.current))
  }

  function Total(t: TimerState): real { Times(t.count, t.avg) }

  /** The time logged by the timers from index i on. */
  function TotalFrom(timers: seq<TimerState>, i: nat): real
    requires i <= |timers|
    decreases |timers| - i
  {
    if i == |timers| then 0.0 else Total(timers[i]) + TotalFrom(timers, i + 1)
  }

  function TotalOf(spans: seq<Span>): real {
    if spans == [] then 0.0
    else TotalOf(spans[..|spans| - 1]) + (spans[|spans| - 1].to - spans[|spans| - 1].from)
  }

  /** The spans lie in order and apart between two dates. */
  predicate Disjoint(spans: seq<Span>, from: real, to: real) {
    && from <= to
    && (forall k :: 0 <= k < |spans| ==> from <= spans[k].from <= spans[k].to <= to)
    && forall j, k :: 0 <= j < k < |spans| ==> spans[j].to <= spans[k].from
  }

  // ----------------------------------------------------------------------- the invariant

  /** The counts: timer 0 has one interval per start but the first, timer i one per call at
      checkpoint i; fewer iterations reach a later checkpoint. */
  predicate Counts(s: Checkpoints, h: History)
    requires Sized(s, h)
  {
    && s.timers[0].count == (if h.starts == 0 then 0 else h.starts - 1)
    && (forall i :: 1 <= i < |s.timers| ==>
          s.timers[i].count == h.reached[i] + h.rejected[i] && h.reached[i] <= h.starts)
    && (forall i, j :: 1 <= i < j < |s.timers| ==> h.reached[i] >= h.reached[j])
    && (forall i, j :: 1 <= i < s.current <= j < |s.timers| ==> h.reached[i] > h.reached[j])
    && (h.starts > 0 ==> forall i :: s.current <= i < |s.timers| ==> h.reached[i] < h.starts)
  }

  /** The running intervals: timer 0 since the last start, the current checkpoint since the
      mark; and the time timer 0 has logged. */
  predicate Running(s: Checkpoints, h: History)
    requires Sized(s, h)
  {
    && s.timers[0].ticTime == (if h.starts == 0 then None else Some(h.last))
    && (h.starts > 0 && s.current < |s.timers| ==> s.timers[s.current].ticTime == Some(h.mark))
    && h.first <= h.last <= h.mark <= h.front <= h.now
    && Total(s.timers[0]) == h.last - h.first
  }

  predicate Measured(s: Checkpoints, h: History)
    requires Sized(s, h)
  {
    && (h.starts == 0 ==> h.spans == h.added == [] && h.repeated == 0.0)
    && TotalFrom(s.timers, 1) == TotalOf(h.spans)
  }

  predicate Overlapping(spans: seq<Span>) {
    exists j, k :: 0 <= j < k < |spans| && spans[j].to > spans[k].from
  }

  /** What the spans cover: the added parts are apart; the rest was measured before. */
  predicate Covers(spans: seq<Span>, added: seq<Span>, repeated: real, from: real, to: real) {
    && |spans| == |added|
    && (forall k :: 0 <= k < |spans| ==> spans[k].to == added[k].to && from <= spans[k].from <= added[k].from)
    && Disjoint(added, from, to)
    && TotalOf(spans) == TotalOf(added) + repeated
    && 0.0 <= repeated
    && (repeated == 0.0 ==> spans == added)
    && (repeated > 0.0 ==> Overlapping(spans))
  }

  predicate Covered(h: History) {
    && Covers(h.spans, h.added, h.repeated, h.first, h.front)
    && (h.front > h.mark ==> h.spans != [] && h.spans[|h.spans| - 1].to == h.front)
  }

  predicate Inv(s: Checkpoints, h: History) {
    Sized(s, h) && Counts(s, h) && Running(s, h) && Measured(s, h) && Covered(h)
  }

  // -- the timers' totals

  lemma TotalGrows(t: TimerState, x: real)
    requires |t.window| == t.capacity
    ensures Total(LogInterval(t, Some(x))) == Total(t) + x
  {
    MeanStep(t.count, t.avg, Total(t), x);
  }

  lemma {:induction false} TotalFromUpdate(timers: seq<TimerState>, i: nat, c: nat, t: TimerState)
    requires i <= c < |timers|
    ensures TotalFrom(timers[c := t], i) == TotalFrom(timers, i) - Total(timers[c]) + Total(t)
    decreases c - i
  {
    if i == c {
      TotalFromAgrees(timers, timers[c := t], c + 1);
    } else {
      TotalFromUpdate(timers, i + 1, c, t);
    }
  }

  lemma {:induction false} TotalFromAgrees(a: seq<TimerState>, b: seq<TimerState>, i: nat)
    requires |a| == |b| && i <= |a| && forall k :: i <= k < |a| ==> a[k] == b[k]
    ensures TotalFrom(a, i) == TotalFrom(b, i)
    decreases |a| - i
  {
    if i == |a| {
    } else {
      TotalFromAgrees(a, b, i + 1);
    }
  }

  lemma {:induction false} TotalFromFresh(timers: seq<TimerState>, i: nat)
    requires i <= |timers| && forall k :: i <= k < |timers| ==> timers[k] == Fresh()
    ensures TotalFrom(timers, i) == 0.0
    decreases |timers| - i
  {
    if i == |timers| {
    } else {
      TotalFromFresh(timers, i + 1);
    }
  }

  lemma {:induction false} TotalOfAppended(spans: seq<Span>, span: Span)
    ensures TotalOf(spans + [span]) == TotalOf(spans) + (span.to - span.from)
  {
    assert (spans + [span])[..|spans|] == spans;
  }

  /** Disjoint spans between two dates add up to no more than the time between them. */
  lemma {:induction false} DisjointSpansFit(spans: seq<Span>, from: real, to: real)
    requires Disjoint(spans, from, to)
    ensures TotalOf(spans) <= to - from
    decreases |spans|
  {
    if spans == [] {
    } else {
      var last := |spans| - 1;
      DisjointSpansFit(spans[..last], from, spans[last].from);
    }
  }

  // -- preservation

  lemma StartKeeps(s: Checkpoints, h: History, at: real, after: real)
    requires Inv(s, h) && Possible(s, h, Call.Start(at, after))
    ensures Inv(AfterStart(s, at, after), Recorded(s, h, Call.Start(at, after)))
  {
    SizedKept(s, h, Call.Start(at, after));
    StartTotals(s, h, at, after);
    var total := s.timers[0 := TacTic(s.timers[0], at)];
    TotalFromAgrees(s.timers, total, 1);
    TicAddsNothing(total, 1, after);
    StartCovers(s, h, at, after);
    StartCounts(s, h, at, after);
  }

  lemma StartCounts(s: Checkpoints, h: History, at: real, after: real)
    requires Sized(s, h) && Counts(s, h) && Running(s, h) && Possible(s, h, Call.Start(at, after))
    ensures var s', h' := AfterStart(s, at, after), Recorded(s, h, Call.Start(at, after));
      Sized(s', h') && Counts(s', h')
  {
    SizedKept(s, h, Call.Start(at, after));
    StartTotals(s, h, at, after);
  }

  lemma StartCovers(s: Checkpoints, h: History, at: real, after: real)
    requires Inv(s, h) && Possible(s, h, Call.Start(at, after))
    ensures Covered(Recorded(s, h, Call.Start(at, after)))
  {
  }

  lemma StartTotals(s: Checkpoints, h: History, at: real, after: real)
    requires Sized(s, h) && Running(s, h) && s.timers[0].count == (if h.starts == 0 then 0 else h.starts - 1)
    ensures var t := TacTic(s.timers[0], at);
      && t.count == h.starts && t.ticTime == Some(at) && |t.window| == t.capacity
      && Total(t) == if h.starts == 0 then 0.0 else at - h.first
  {
    if h.starts > 0 { TotalGrows(s.timers[0], at - h.last); }
  }

  lemma SizedKept(s: Checkpoints, h: History, call: Call)
    requires Sized(s, h) && Possible(s, h, call)
    ensures Sized(Apply(s, call), Recorded(s, h, call))
  {
  }

  lemma CheckpointEffect(s: Checkpoints, name: string, at: real, after: real)
    requires Shape(s) && s.current < |s.timers| && s.timers[s.current].ticTime.Some?
    ensures var s' := AfterCheckpoint(s, name, at, after);
      && s'.current == (if Mismatch(s, name) then s.current else s.current + 1)
      && forall i :: 0 <= i < |s.timers| ==>
           s'.timers[i].count == s.timers[i].count + if i == s.current then 1 else 0
  {
  }

  lemma CheckpointCounts(s: Checkpoints, h: History, name: string, at: real, after: real)
    requires Sized(s, h) && Counts(s, h) && Running(s, h) && Possible(s, h, Call.Checkpoint(name, at, after))
    ensures var s', h' := AfterCheckpoint(s, name, at, after), Recorded(s, h, Call.Checkpoint(name, at, after));
      Sized(s', h') && Counts(s', h')
  {
    SizedKept(s, h, Call.Checkpoint(name, at, after));
    CheckpointEffect(s, name, at, after);
  }

  lemma TacAdds(timers: seq<TimerState>, c: nat, mark: real, at: real)
    requires 1 <= c < |timers| && |timers[c].window| == timers[c].capacity && timers[c].ticTime == Some(mark)
    ensures TotalFrom(timers[c := Tac(timers[c], at)], 1) == TotalFrom(timers, 1) + (at - mark)
  {
    TotalGrows(timers[c], at - mark);
    TotalFromUpdate(timers, 1, c, Tac(timers[c], at));
  }

  lemma TicAddsNothing(timers: seq<TimerState>, c: nat, at: real)
    requires 1 <= c < |timers|
    ensures TotalFrom(timers[c := Tic(timers[c], at)], 1) == TotalFrom(timers, 1)
  {
    TotalFromUpdate(timers, 1, c, Tic(timers[c], at));
  }

  lemma CheckpointTotals(s: Checkpoints, name: string, mark: real, at: real, after: real)
    requires Shape(s) && 1 <= s.current < |s.timers| && s.timers[s.current].ticTime == Some(mark)
    ensures TotalFrom(AfterCheckpoint(s, name, at, after).timers, 1) == TotalFrom(s.timers, 1) + (at - mark)
  {
    var c := s.current;
    TacAdds(s.timers, c, mark, at);
    if !Mismatch(s, name) && c + 1 < |s.timers| {
      TicAddsNothing(s.timers[c := Tac(s.timers[c], at)], c + 1, after);
    }
  }

  lemma CheckpointMeasures(s: Checkpoints, h: History, name: string, at: real, after: real)
    requires Sized(s, h) && Running(s, h) && Measured(s, h) && Possible(s, h, Call.Checkpoint(name, at, after))
    ensures var s', h' := AfterCheckpoint(s, name, at, after), Recorded(s, h, Call.Checkpoint(name, at, after));
      Sized(s', h') && Measured(s', h')
  {
    SizedKept(s, h, Call.Checkpoint(name, at, after));
    CheckpointTotals(s, name, h.mark, at, after);
    TotalOfAppended(h.spans, Span(h.mark, at));
  }

  lemma DisjointOneMore(spans: seq<Span>, from: real, front: real, at: real)
    requires Disjoint(spans, from, front) && front <= at
    ensures Disjoint(spans + [Span(front, at)], from, at)
  {
  }

  lemma OverlappingOneMore(spans: seq<Span>, mark: real, front: real, at: real)
    requires Overlapping(spans) || (front > mark && spans != [] && spans[|spans| - 1].to == front)
    ensures Overlapping(spans + [Span(mark, at)])
  {
    var more := spans + [Span(mark, at)];
    if Overlapping(spans) {
      var j, k :| 0 <= j < k < |spans| && spans[j].to > spans[k].from;
      assert more[j].to > more[k].from;
    } else {
      assert more[|spans| - 1].to > more[|spans|].from;
    }
  }

  lemma CoversOneMore(spans: seq<Span>, added: seq<Span>, repeated: real, from: real, mark: real, front: real,
                      at: real)
    requires Covers(spans, added, repeated, from, front) && from <= mark <= front <= at
    requires front > mark ==> spans != [] && spans[|spans| - 1].to == front
    ensures Covers(spans + [Span(mark, at)], added + [Span(front, at)], repeated + (front - mark), from, at)
  {
    TotalOfAppended(spans, Span(mark, at));
    TotalOfAppended(added, Span(front, at));
    DisjointOneMore(added, from, front, at);
    if front > mark || repeated > 0.0 { OverlappingOneMore(spans, mark, front, at); }
  }

  lemma CoversLonger(spans: seq<Span>, added: seq<Span>, repeated: real, from: real, to: real, later: real)
    requires Covers(spans, added, repeated, from, to) && to <= later
    ensures Covers(spans, added, repeated, from, later)
  {
  }

  lemma CheckpointRecorded(s: Checkpoints, h: History, call: Call)
    requires Sized(s, h) && call.Checkpoint? && Possible(s, h, call)
    ensures var h' := Recorded(s, h, call);
      && h'.first == h.first
      && h'.spans == h.spans + [Span(h.mark, call.at)] && h'.added == h.added + [Span(h.front, call.at)]
      && h'.repeated == h.repeated + (h.front - h.mark)
      && (h'.front == call.at || h'.front == h'.mark == call.after)
  {
  }

  lemma CoveredNext(h: History, at: real, h': History)
    requires Covered(h) && h.first <= h.mark <= h.front <= at && h'.first == h.first
    requires h'.spans == h.spans + [Span(h.mark, at)] && h'.added == h.added + [Span(h.front, at)]
    requires h'.repeated == h.repeated + (h.front - h.mark)
    requires h'.front == at || h'.front == h'.mark >= at
    ensures Covered(h')
  {
    CoversOneMore(h.spans, h.added, h.repeated, h.first, h.mark, h.front, at);
    CoversLonger(h'.spans, h'.added, h'.repeated, h.first, at, h'.front);
    assert h'.spans[|h.spans|] == Span(h.mark, at);
  }

  lemma CheckpointCovers(s: Checkpoints, h: History, call: Call)
    requires Sized(s, h) && Covered(h) && call.Checkpoint? && Possible(s, h, call)
    requires h.first <= h.mark <= h.front <= h.now
    ensures Covered(Recorded(s, h, call))
  {
    CheckpointRecorded(s, h, call);
    CoveredNext(h, call.at, Recorded(s, h, call));
  }

  lemma CheckpointKeeps(s: Checkpoints, h: History, name: string, at: real, after: real)
    requires Inv(s, h) && Possible(s, h, Call.Checkpoint(name, at, after))
    ensures Inv(AfterCheckpoint(s, name, at, after), Recorded(s, h, Call.Checkpoint(name, at, after)))
  {
    CheckpointCounts(s, h, name, at, after);
    CheckpointMeasures(s, h, name, at, after);
    CheckpointCovers(s, h, Call.Checkpoint(name, at, after));
    CheckpointRuns(s, h, name, at, after);
  }

  lemma CheckpointRuns(s: Checkpoints, h: History, name: string, at: real, after: real)
    requires Sized(s, h) && Running(s, h) && Possible(s, h, Call.Checkpoint(name, at, after))
    ensures var s', h' := AfterCheckpoint(s, name, at, after), Recorded(s, h, Call.Checkpoint(name, at, after));
      Sized(s', h') && Running(s', h')
  {
    SizedKept(s, h, Call.Checkpoint(name, at, after));
  }

  lemma InitInv(s: Checkpoints, now: real)
    requires Init(s)
    ensures Inv(s, Blank(|s.timers|, now))
  {
    TotalFromFresh(s.timers, 1);
  }

  // ------------------------------------------------------------------------ whole runs

  /** The state and the history after some calls, as long as every call is possible. */
  function Run(s: Checkpoints, h: History, calls: seq<Call>): Option<(Checkpoints, History)>
    requires Sized(s, h)
    decreases |calls|
  {
    if calls == [] then Some((s, h))
    else if !Possible(s, h, calls[0]) then None
    else
      SizedKept(s, h, calls[0]);
      Run(Apply(s, calls[0]), Recorded(s, h, calls[0]), calls[1..])
  }

  lemma CallKeeps(s: Checkpoints, h: History, call: Call)
    requires Inv(s, h) && Possible(s, h, call)
    ensures Inv(Apply(s, call), Recorded(s, h, call))
  {
    match call
    case Start(at, after) => StartKeeps(s, h, at, after);
    case Checkpoint(name, at, after) => CheckpointKeeps(s, h, name, at, after);
  }

  lemma {:induction false} RunKeeps(s: Checkpoints, h: History, calls: seq<Call>)
    requires Inv(s, h) && Run(s, h, calls).Some?
    ensures Inv(Run(s, h, calls).value.0, Run(s, h, calls).value.1)
    decreases |calls|
  {
    if calls == [] {
    } else {
      CallKeeps(s, h, calls[0]);
      RunKeeps(Apply(s, calls[0]), Recorded(s, h, calls[0]), calls[1..]);
    }
  }

  /** No call of the run was rejected. */
  predicate AllAccepted(s: Checkpoints, h: History, calls: seq<Call>)
    requires Sized(s, h) && Run(s, h, calls).Some?
    decreases |calls|
  {
    calls == [] ||
    (!Rejected(s, calls[0]) && AllAccepted(Apply(s, calls[0]), Recorded(s, h, calls[0]), calls[1..]))
  }

  /** No rejected call later than its mark was followed by another checkpoint before the next
      start. */
  predicate NoneRepeats(s: Checkpoints, h: History, calls: seq<Call>)
    requires Sized(s, h) && Run(s, h, calls).Some?
    decreases |calls|
  {
    calls == [] ||
    (!Repeats(h, calls[0]) && NoneRepeats(Apply(s, calls[0]), Recorded(s, h, calls[0]), calls[1..]))
  }

  lemma {:induction false} RejectedCalls(s: Checkpoints, h: History, calls: seq<Call>)
    requires Sized(s, h) && Run(s, h, calls).Some?
    ensures |Run(s, h, calls).value.1.rejected| == |h.rejected|
    ensures forall i :: 0 <= i < |h.rejected| ==> h.rejected[i] <= Run(s, h, calls).value.1.rejected[i]
    ensures AllAccepted(s, h, calls) <==> Run(s, h, calls).value.1.rejected == h.rejected
    decreases |calls|
  {
    if calls == [] {
    } else {
      RejectedCalls(Apply(s, calls[0]), Recorded(s, h, calls[0]), calls[1..]);
    }
  }

  lemma {:induction false} RepeatedTime(s: Checkpoints, h: History, calls: seq<Call>)
    requires Inv(s, h) && Run(s, h, calls).Some?
    ensures Run(s, h, calls).value.1.repeated >= h.repeated
    ensures NoneRepeats(s, h, calls) <==> Run(s, h, calls).value.1.repeated == h.repeated
    decreases |calls|
  {
    if calls == [] {
    } else {
      CallKeeps(s, h, calls[0]);
      RepeatedTime(Apply(s, calls[0]), Recorded(s, h, calls[0]), calls[1..]);
    }
  }

  lemma {:induction false} AcceptedCallsRepeatNothing(s: Checkpoints, h: History, calls: seq<Call>)
    requires Sized(s, h) && Run(s, h, calls).Some? && AllAccepted(s, h, calls) && h.front == h.mark
    ensures NoneRepeats(s, h, calls)
    decreases |calls|
  {
    if calls == [] {
    } else {
      AcceptedCallsRepeatNothing(Apply(s, calls[0]), Recorded(s, h, calls[0]), calls[1..]);
    }
  }

  /** Calls that fit a timer of n checkpoints: the clock does not go back, and at most n checkpoints
      follow each start, accepted or not; `left` of them may come before the next start. */
  predicate Fits(calls: seq<Call>, left: nat, n: nat, now: real)
    decreases |calls|
  {
    calls == [] ||
    (now <= calls[0].at <= calls[0].after &&
     match calls[0]
     case Start(_, after) => Fits(calls[1..], n, n, after)
     case Checkpoint(_, _, after) => left > 0 && Fits(calls[1..], left - 1, n, after))
  }

  lemma {:induction false} FittingCallsRun(s: Checkpoints, h: History, calls: seq<Call>, left: nat)
    requires Sized(s, h) && Fits(calls, left, |s.timers| - 1, h.now)
    requires s.current + left <= |s.timers| && (left > 0 ==> h.starts > 0)
    ensures Run(s, h, calls).Some?
    decreases |calls|
  {
    if calls == [] {
    } else {
      SizedKept(s, h, calls[0]);
      var s', h' := Apply(s, calls[0]), Recorded(s, h, calls[0]);
      CallMoves(s, h, calls[0]);
      FittingCallsRun(s', h', calls[1..], if calls[0].Start? then |s.timers| - 1 else left - 1);
    }
  }

  /** Start takes the index back to 1; an accepted checkpoint moves it on by one, a rejected one
      leaves it. */
  lemma CallMoves(s: Checkpoints, h: History, call: Call)
    requires Sized(s, h) && Possible(s, h, call)
    ensures Apply(s, call).current ==
      if call.Start? then 1 else if s.names[s.current] == "" || s.names[s.current] == call.name then s.current + 1
      else s.current
    ensures Recorded(s, h, call).now == call.after && Recorded(s, h, call).starts >= h.starts
    ensures call.Start? ==> Recorded(s, h, call).starts > 0
  {
  }

  /** A checkpoint timer serves every use that begins with a start and has at most as many
      checkpoints between two starts as it was made for, on any clock that does not go back. */
  lemma {:induction false} EveryFittingUseRuns(s: Checkpoints, now: real, calls: seq<Call>)
    requires Init(s) && Fits(calls, 0, |s.timers| - 1, now)
    ensures Run(s, Blank(|s.timers|, now), calls).Some?
  {
    FittingCallsRun(s, Blank(|s.timers|, now), calls, 0);
  }

  /** The checkpoints accepted since the last start; `accepted` of them before these calls. */
  function AcceptedSinceStart(s: Checkpoints, h: History, calls: seq<Call>, accepted: nat): nat
    requires Sized(s, h) && Run(s, h, calls).Some?
    decreases |calls|
  {
    if calls == [] then accepted
    else
      var next := if calls[0].Start? then 0 else if Rejected(s, calls[0]) then accepted else accepted + 1;
      AcceptedSinceStart(Apply(s, calls[0]), Recorded(s, h, calls[0]), calls[1..], next)
  }

  lemma {:induction false} IndexSoFar(s: Checkpoints, h: History, calls: seq<Call>)
    requires Sized(s, h) && Run(s, h, calls).Some?
    ensures Run(s, h, calls).value.0.current == 1 + AcceptedSinceStart(s, h, calls, s.current - 1)
    decreases |calls|
  {
    if calls == [] {
    } else {
      CallMoves(s, h, calls[0]);
      IndexSoFar(Apply(s, calls[0]), Recorded(s, h, calls[0]), calls[1..]);
    }
  }

  /** After any use the index is one more than the checkpoints accepted since the last start. */
  lemma {:induction false} IndexCountsAccepted(s: Checkpoints, now: real, calls: seq<Call>)
    requires Init(s) && Run(s, Blank(|s.timers|, now), calls).Some?
    ensures Run(s, Blank(|s.timers|, now), calls).value.0.current
         == 1 + AcceptedSinceStart(s, Blank(|s.timers|, now), calls, 0)
  {
    IndexSoFar(s, Blank(|s.timers|, now), calls);
  }

  /** Run invariant: after any use the index is between 1 and one past the last checkpoint,
      timer 0 has one interval per start but the first, timer i one per iteration that got past
      checkpoint i and one per call rejected there; fewer iterations get past a later
      checkpoint.  No call was rejected exactly when each timer has one per iteration. */
  lemma {:induction false} RunCounts(s: Checkpoints, now: real, calls: seq<Call>)
    requires Init(s) && Run(s, Blank(|s.timers|, now), calls).Some?
    ensures var (s', h) := Run(s, Blank(|s.timers|, now), calls).value;
      && |s'.timers| == |h.reached| == |h.rejected| && 1 <= s'.current <= |s'.timers|
      && (h.starts > 0 ==> s'.timers[0].count == h.starts - 1)
      && (forall i :: 1 <= i < |s'.timers| ==> s'.timers[i].count == h.reached[i] + h.rejected[i])
      && (forall i, j :: 1 <= i < j < |s'.timers| ==> h.starts >= h.reached[i] >= h.reached[j])
      && (AllAccepted(s, Blank(|s.timers|, now), calls) <==>
            forall i :: 0 <= i < |h.rejected| ==> h.rejected[i] == 0)
  {
    var blank := Blank(|s.timers|, now);
    InitInv(s, now);
    RunKeeps(s, blank, calls);
    RejectedCalls(s, blank, calls);
  }

  /** Time is accounted for, whatever is rejected: timer 0 has logged the time from the first to
      the last start; the checkpoints have logged their spans, which is the time covered by
      disjoint spans since the first start plus the repeated time. */
  lemma {:induction false} TimeIsAccountedFor(s: Checkpoints, now: real, calls: seq<Call>)
    requires Init(s) && Run(s, Blank(|s.timers|, now), calls).Some?
    ensures var (s', h) := Run(s, Blank(|s.timers|, now), calls).value;
      && |s'.timers| >= 2
      && Total(s'.timers[0]) == h.last - h.first
      && TotalFrom(s'.timers, 1) == TotalOf(h.spans) == TotalOf(h.added) + h.repeated
      && Disjoint(h.added, h.first, h.now) && |h.added| == |h.spans|
      && (forall k :: 0 <= k < |h.spans| ==> h.added[k].to == h.spans[k].to && h.spans[k].from <= h.added[k].from)
      && TotalFrom(s'.timers, 1) <= Total(s'.timers[0]) + (h.now - h.last) + h.repeated
  {
    InitInv(s, now);
    RunKeeps(s, Blank(|s.timers|, now), calls);
    var (s', h) := Run(s, Blank(|s.timers|, now), calls).value;
    DisjointSpansFit(h.added, h.first, h.front);
  }

  /** Time is conserved, that is, checkpoint intervals are disjoint, if and only if no rejected
      call later than its mark was followed by another checkpoint before the next start, so in
      particular if none was rejected; then all checkpoints logged at most what timer 0 logged
      plus the time since the last start. */
  lemma {:induction false} TimeIsConserved(s: Checkpoints, now: real, calls: seq<Call>)
    requires Init(s) && Run(s, Blank(|s.timers|, now), calls).Some?
    ensures var (s', h) := Run(s, Blank(|s.timers|, now), calls).value;
      && (Disjoint(h.spans, h.first, h.now) <==> NoneRepeats(s, Blank(|s.timers|, now), calls))
      && (NoneRepeats(s, Blank(|s.timers|, now), calls) ==>
            |s'.timers| >= 2 && TotalFrom(s'.timers, 1) <= Total(s'.timers[0]) + (h.now - h.last))
      && (AllAccepted(s, Blank(|s.timers|, now), calls) ==> NoneRepeats(s, Blank(|s.timers|, now), calls))
  {
    InitInv(s, now);
    RunKeeps(s, Blank(|s.timers|, now), calls);
    TimeIsAccountedFor(s, now, calls);
    RepeatedTime(s, Blank(|s.timers|, now), calls);
    if AllAccepted(s, Blank(|s.timers|, now), calls) {
      AcceptedCallsRepeatNothing(s, Blank(|s.timers|, now), calls);
    }
  }

  // -------------------------------------------------------------- rejected calls by example

  /** An iteration in which "a" took one second, and the next one. */
  lemma {:induction false} TwoStarts(s: Checkpoints, rest: seq<Call>) returns (s': Checkpoints, h: History)
    requires Init(s)
    ensures Sized(s', h) && s'.current == 1 && s'.names[1] == "a"
    ensures h.first == 0.0 && h.starts > 0 && h.last == h.mark == h.front == h.now == 1.0 && h.repeated == 0.0
    ensures h.spans == h.added == [Span(0.0, 1.0)]
    ensures var blank := Blank(|s.timers|, 0.0);
      var calls := [Start(0.0, 0.0), Call.Checkpoint("a", 1.0, 1.0), Start(1.0, 1.0)] + rest;
      && Run(s, blank, calls) == Run(s', h, rest)
      && (Run(s, blank, calls).Some? ==>
            && (NoneRepeats(s, blank, calls) <==> NoneRepeats(s', h, rest))
            && (AllAccepted(s, blank, calls) ==> AllAccepted(s', h, rest)))
  {
    var h0 := Blank(|s.timers|, 0.0);
    var begin, a, again := Start(0.0, 0.0), Call.Checkpoint("a", 1.0, 1.0), Start(1.0, 1.0);
    var s1, h1 := Apply(s, begin), Recorded(s, h0, begin);
    FirstOf(s, h0, begin, [a, again] + rest);
    assert [begin] + ([a, again] + rest) == [begin, a, again] + rest;
    var s2, h2 := Apply(s1, a), Recorded(s1, h1, a);
    FirstOf(s1, h1, a, [again] + rest);
    assert [a] + ([again] + rest) == [a, again] + rest;
    s', h := Apply(s2, again), Recorded(s2, h2, again);
    FirstOf(s2, h2, again, rest);
  }

  lemma {:induction false} FirstOf(s: Checkpoints, h: History, call: Call, rest: seq<Call>)
    requires Sized(s, h) && Possible(s, h, call)
    ensures Sized(Apply(s, call), Recorded(s, h, call))
    ensures var s', h', calls := Apply(s, call), Recorded(s, h, call), [call] + rest;
      && Run(s, h, calls) == Run(s', h', rest)
      && (Run(s, h, calls).Some? ==>
            && (NoneRepeats(s, h, calls) <==> !Repeats(h, call) && NoneRepeats(s', h', rest))
            && (AllAccepted(s, h, calls) <==> !Rejected(s, call) && AllAccepted(s', h', rest)))
  {
    SizedKept(s, h, call);
    assert ([call] + rest)[1..] == rest;
  }

  /** The wrong name, then the right one: the second before the rejected call counts twice, and
      in three seconds the checkpoints have logged four. */
  lemma RejectedTimeCountsTwice(s: Checkpoints)
    requires Init(s)
    ensures var calls := [Start(0.0, 0.0), Call.Checkpoint("a", 1.0, 1.0), Start(1.0, 1.0)]
                       + [Call.Checkpoint("b", 2.0, 2.0), Call.Checkpoint("a", 3.0, 3.0)];
      var run := Run(s, Blank(|s.timers|, 0.0), calls);
      && run.Some? && !NoneRepeats(s, Blank(|s.timers|, 0.0), calls)
      && |run.value.0.timers| >= 2
      && TotalFrom(run.value.0.timers, 1) == 4.0
      && Total(run.value.0.timers[0]) == 1.0 && run.value.1.now - run.value.1.last == 2.0
  {
    var wrong, right := Call.Checkpoint("b", 2.0, 2.0), Call.Checkpoint("a", 3.0, 3.0);
    var s3, h3 := TwoStarts(s, [wrong, right]);
    FirstOf(s3, h3, wrong, [right]);
    assert [wrong] + [right] == [wrong, right];
    var s4, h4 := Apply(s3, wrong), Recorded(s3, h3, wrong);
    FirstOf(s4, h4, right, []);
    assert [right] + [] == [right];
    var h5 := Recorded(s4, h4, right);
    TotalOfAppended([], Span(0.0, 1.0));
    TotalOfAppended(h3.added, Span(1.0, 2.0));
    TotalOfAppended(h4.added, Span(2.0, 3.0));
    assert [] + [Span(0.0, 1.0)] == h3.added;
    TimeIsAccountedFor(s, 0.0, [Start(0.0, 0.0), Call.Checkpoint("a", 1.0, 1.0), Start(1.0, 1.0)] + [wrong, right]);
  }

  /** The wrong name, then a new start: a call was rejected, and time is conserved. */
  lemma RejectionCanBeHarmless(s: Checkpoints)
    requires Init(s)
    ensures var calls := [Start(0.0, 0.0), Call.Checkpoint("a", 1.0, 1.0), Start(1.0, 1.0)]
                       + [Call.Checkpoint("b", 2.0, 2.0), Start(3.0, 3.0)];
      var run := Run(s, Blank(|s.timers|, 0.0), calls);
      && run.Some? && !AllAccepted(s, Blank(|s.timers|, 0.0), calls)
      && Disjoint(run.value.1.spans, run.value.1.first, run.value.1.now)
  {
    var wrong, again := Call.Checkpoint("b", 2.0, 2.0), Start(3.0, 3.0);
    var s3, h3 := TwoStarts(s, [wrong, again]);
    FirstOf(s3, h3, wrong, [again]);
    assert [wrong] + [again] == [wrong, again];
    var s4, h4 := Apply(s3, wrong), Recorded(s3, h3, wrong);
    FirstOf(s4, h4, again, []);
    assert [again] + [] == [again];
    TimeIsConserved(s, 0.0, [Start(0.0, 0.0), Call.Checkpoint("a", 1.0, 1.0), Start(1.0, 1.0)] + [wrong, again]);
  }
}
