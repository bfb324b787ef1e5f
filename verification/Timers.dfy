/** The Timer class: the fields the source updates in place, proved to agree with the history
    of the object at all times. */
module Timers {
  import opened Moments
  import opened RealtimeClock
  import opened TimerStatistics
  import opened Wrappers

  class Timer {
    var ticTime: Option<real>
    var window: seq<real>
    var count: nat
    var capacity: nat
    var minElapsed: Option<real>
    var maxElapsed: Option<real>
    var avgElapsed: real
    var secondMoment: real
    ghost var history: seq<Event>

    function State(): TimerState
      reads this
    {
      TimerState(ticTime, window, count, capacity, minElapsed, maxElapsed, avgElapsed, secondMoment)
    }

    ghost predicate Valid()
      reads this
    {
      Agrees(State(), history)
    }

    constructor ()
      ensures Valid() && State() == Fresh() && history == []
      ensures ticTime == None && count == 0 && capacity == |window| == 60_000
    {
      ticTime := None;
      window := Zeros(DEFAULT_CAPACITY);
      count := 0;
      capacity := DEFAULT_CAPACITY;
      minElapsed, maxElapsed := None, None;
      avgElapsed, secondMoment := 0.0, 0.0;
      history := [];
      new;
      FreshAgrees();
    }

    method SetMemorySize(size: nat)
      requires Valid()
      modifies this
      ensures Valid() && State() == TimerStatistics.SetMemorySize(old(State()), size)
      ensures count == 0 && capacity == |window| == size && ticTime == old(ticTime)
      ensures minElapsed == old(minElapsed) && maxElapsed == old(maxElapsed)
      ensures avgElapsed == old(avgElapsed) && secondMoment == old(secondMoment)
      ensures history == old(history) + [Resized(size)]
    {
      ResizeAgrees(State(), history, size);
      count := 0;
      capacity := size;
      window := Resize(window, capacity);
      history := history + [Resized(size)];
    }

    method LogTimeInterval(interval: Option<real>)
      requires Valid()
      modifies this
      ensures Valid() && State() == LogInterval(old(State()), interval)
      ensures history == if interval.Some? then old(history) + [Logged(interval.value)] else old(history)
    {
      if interval.None? {
        return;
      }
      var x := interval.value;
      ghost var s, h := State(), history;
      Store(x);
      assert State() == s.(window := Stored(s, x));
      UpdateStatistics(x);
      StatisticsIgnoreTheWindow(s, x);
      assert State() == LogInterval(s, Some(x));
      history := history + [Logged(x)];
      LogAgrees(s, h, x);
    }

    /** The window: by index until it is full, then sliding. */
    method Store(x: real)
      requires |window| == capacity
      modifies this`window
      ensures window == Stored(old(State()), x)
    {
      if capacity != 0 {
        if count >= |window| {
          window := window[1..];
          window := window + [x];
        } else {
          window := window[count := x];
        }
      }
    }

    method UpdateStatistics(x: real)
      requires |window| == capacity
      modifies this`count, this`minElapsed, this`maxElapsed, this`avgElapsed, this`secondMoment
      ensures State() == LogInterval(old(State()), Some(x)).(window := window)
    {
      var before := count;
      count := before + 1;
      minElapsed := if minElapsed.None? || x < minElapsed.value then Some(x) else minElapsed;
      maxElapsed := if maxElapsed.None? || x > maxElapsed.value then Some(x) else maxElapsed;
      avgElapsed := NextMean(before, avgElapsed, x);
      secondMoment := NextMean(before, secondMoment, Square(x));
    }

    method Tic(clock: Clock)
      requires Valid()
      modifies this, clock
      ensures Valid() && history == old(history) && clock.now >= old(clock.now)
      ensures State() == TimerStatistics.Tic(old(State()), clock.now as real / 1_000_000_000.0)
    {
      var sec := clock.CurrentTimeSec();
      TicKeepsAgreement(State(), history, sec);
      ticTime := Some(sec);
    }

    /** The time since tic, which is also logged; nothing, if tic was never called. */
    method Tac(clock: Clock) returns (interval: Option<real>)
      requires Valid()
      modifies this, clock
      ensures Valid() && clock.now >= old(clock.now)
      ensures interval == Since(old(ticTime), clock.now as real / 1_000_000_000.0)
      ensures State() == TimerStatistics.Tac(old(State()), clock.now as real / 1_000_000_000.0)
      ensures history == if interval.Some? then old(history) + [Logged(interval.value)] else old(history)
    {
      var sec := clock.CurrentTimeSec();
      interval := Since(ticTime, sec);
      LogTimeInterval(interval);
    }

    method TacTic(clock: Clock) returns (interval: Option<real>)
      requires Valid()
      modifies this, clock
      ensures Valid() && clock.now >= old(clock.now)
      ensures interval == Since(old(ticTime), clock.now as real / 1_000_000_000.0)
      ensures State() == TimerStatistics.TacTic(old(State()), clock.now as real / 1_000_000_000.0)
      ensures history == if interval.Some? then old(history) + [Logged(interval.value)] else old(history)
    {
      var sec := clock.CurrentTimeSec();
      interval := Since(ticTime, sec);
      LogTimeInterval(interval);
      TicKeepsAgreement(State(), history, sec);
      ticTime := Some(sec);
    }

    method GetMinElapsedSec() returns (m: Option<real>)
      requires Valid()
      ensures IsMin(m, AllIntervals(history))
    {
      m := minElapsed;
    }

    method GetMaxElapsedSec() returns (m: Option<real>)
      requires Valid()
      ensures IsMax(m, AllIntervals(history))
    {
      m := maxElapsed;
    }

    /** The mean of the last epoch in which anything was logged, zero if nothing ever was. */
    method GetAvgElapsedSec() returns (avg: real)
      requires Valid()
      ensures var e := StatisticsEpoch(history); if e == [] then avg == 0.0 else IsMean(avg, |e|, Sum(e))
    {
      avg := avgElapsed;
    }

    /** The number whose square root get_std_dev_elapsed_sec returns: the mean squared deviation
        of the same epoch. */
    method GetVarianceElapsed() returns (radicand: real)
      requires Valid()
      ensures var e := StatisticsEpoch(history);
        if e == [] then radicand == 0.0
        else exists avg :: IsMean(avg, |e|, Sum(e)) && IsMean(radicand, |e|, SumOfDeviations(e, avg))
      ensures radicand >= 0.0
    {
      VarianceOfHistory(State(), history);
      radicand := Radicand(avgElapsed, secondMoment);
    }

    /** What dump_measurements writes: the last intervals of the epoch, in order, as many as the
        window holds. */
    method DumpMeasurements() returns (lines: seq<real>)
      requires Valid()
      ensures var e := Epoch(history); lines == LastOf(e, Smaller(|e|, Capacity(history)))
      ensures var e := Epoch(history);
        && |lines| == (if |e| <= capacity then |e| else capacity)
        && forall k :: 0 <= k < |lines| ==> lines[k] == e[|e| - |lines| + k]
    {
      lines := [];
      for i := 0 to Smaller(count, capacity)
        invariant lines == window[..i]
      {
        lines := lines + [window[i]];
      }
    }
  }
}
