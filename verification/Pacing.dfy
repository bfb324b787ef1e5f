/** Loop pacing: Spinner::spin and FrequencyManager::wait. */
module Pacing {
  import Moments
  import opened RealtimeClock
  import opened TimespecConversion

  // -------------------------------------------------------------------------- traces

  /** What one pacer did: call k arrived at arrivals[k], was released at wakes[k] (the wake
      time the pacer records), and had to keep gaps[k] seconds from the previous release. */
  datatype Trace = Trace(arrivals: seq<int>, gaps: seq<real>, wakes: seq<int>)

  predicate Aligned(tr: Trace) { |tr.arrivals| == |tr.gaps| == |tr.wakes| }

  /** Under any clock: no release before the arrival, none sooner after the previous release
      than the gap less half a nanosecond. */
  ghost predicate Spaced(tr: Trace) {
    && Aligned(tr)
    && (forall k :: 0 <= k < |tr.wakes| ==> tr.wakes[k] >= tr.arrivals[k])
    && forall j, k :: 0 <= j && k == j + 1 < |tr.wakes| ==>
         && tr.arrivals[k] >= tr.wakes[j]
         && (tr.wakes[k] - tr.wakes[j]) as real >= tr.gaps[k] * 1_000_000_000.0 - 0.5
  }

  /** On the exact clock: a release is at the arrival, or at the end of the gap if later. */
  ghost predicate Exact(tr: Trace) {
    && Aligned(tr)
    && (|tr.wakes| > 0 ==> tr.wakes[0] == tr.arrivals[0])
    && forall j, k :: 0 <= j && k == j + 1 < |tr.wakes| ==>
         tr.wakes[k] == Max(tr.arrivals[k], tr.wakes[j] + NearestNanos(tr.gaps[k]))
  }

  function Extend(tr: Trace, arrival: int, gap: real, wake: int): Trace {
    Trace(tr.arrivals + [arrival], tr.gaps + [gap], tr.wakes + [wake])
  }

  function Last(wakes: seq<int>): int
    requires |wakes| > 0
  {
    wakes[|wakes| - 1]
  }

  // What one more call has to satisfy.
  predicate SpacedCall(previous: int, arrival: int, gap: real, wake: int) {
    previous <= arrival <= wake && (wake - previous) as real >= gap * 1_000_000_000.0 - 0.5
  }

  predicate ExactCall(previous: int, arrival: int, gap: real, wake: int) {
    wake == Max(arrival, previous + NearestNanos(gap))
  }

  lemma ExtendSpaced(tr: Trace, arrival: int, gap: real, wake: int)
    requires Spaced(tr)
    requires if tr.wakes == [] then arrival <= wake else SpacedCall(Last(tr.wakes), arrival, gap, wake)
    ensures Spaced(Extend(tr, arrival, gap, wake))
  {
  }

  lemma ExtendExact(tr: Trace, arrival: int, gap: real, wake: int)
    requires Exact(tr)
    requires if tr.wakes == [] then arrival == wake else ExactCall(Last(tr.wakes), arrival, gap, wake)
    ensures Exact(Extend(tr, arrival, gap, wake))
  {
  }

  // ------------------------------------------------------------------------- Spinner

  class Spinner {
    const clock: Clock
    var periodSec: real
    var nextDateSec: real
    ghost var gap: real     // the period that is part of nextDateSec
    ghost var trace: Trace

    ghost predicate Valid()
      reads this, clock
    {
      && |trace.wakes| > 0 && Last(trace.wakes) <= clock.now
      && nextDateSec * 1_000_000_000.0 == Last(trace.wakes) as real + gap * 1_000_000_000.0
      && Spaced(trace)
      && (clock.exact ==> Exact(trace))
    }

    constructor (clock: Clock)
      modifies clock
      ensures Valid() && this.clock == clock && periodSec == 0.0 && gap == 0.0
      ensures trace == Trace([clock.now], [0.0], [clock.now])
    {
      this.clock := clock;
      periodSec := 0.0;
      var date := clock.CurrentTimeSec();
      nextDateSec := date + 0.0;
      gap := 0.0;
      trace := Trace([clock.now], [0.0], [clock.now]);
    }

    method SetPeriod(period: real)
      requires Valid()
      modifies this`periodSec
      ensures Valid() && periodSec == period
    {
      periodSec := period;
    }

    method SetFrequency(frequency: real)
      requires Valid() && frequency != 0.0
      modifies this`periodSec
      ensures Valid() && periodSec * frequency == 1.0
    {
      periodSec := 1.0 / frequency;
    }

    /** Starts over: the next release keeps one period from now. */
    method Initialize()
      modifies this, clock
      ensures Valid() && periodSec == old(periodSec) && gap == periodSec
      ensures trace == Trace([clock.now], [0.0], [clock.now])
    {
      var date := clock.CurrentTimeSec();
      nextDateSec := date + periodSec;
      gap := periodSec;
      trace := Trace([clock.now], [0.0], [clock.now]);
    }

    /** The release keeps the gap promised by the call before, and promises one period to the
        next call. */
    method Spin()
      requires Valid()
      modifies this, clock
      ensures Valid() && periodSec == old(periodSec) && gap == periodSec
      ensures trace == Extend(old(trace), old(clock.now), old(gap), clock.now)
    {
      ghost var previous, arrival := Last(trace.wakes), clock.now;
      clock.SleepUntilSec(nextDateSec);
      ShiftedNearest(nextDateSec, previous, gap);
      var date := clock.CurrentTimeSec();
      nextDateSec := date + periodSec;
      ExtendSpaced(trace, arrival, gap, clock.now);
      if clock.exact { ExtendExact(trace, arrival, gap, clock.now); }
      trace := Extend(trace, arrival, gap, clock.now);
      gap := periodSec;
    }
  }

  lemma ShiftedNearest(dateSec: real, nanos: int, durationSec: real)
    requires dateSec * 1_000_000_000.0 == nanos as real + durationSec * 1_000_000_000.0
    ensures NearestNanos(dateSec) == nanos + NearestNanos(durationSec)
  {
    FloorIs(dateSec * 1_000_000_000.0 + 0.5, nanos + NearestNanos(durationSec));
  }

  // ---------------------------------------------------------------- FrequencyManager

  class FrequencyManager {
    const clock: Clock
    var periodMs: real
    var previousTimeMs: real
    ghost var trace: Trace

    ghost predicate Valid()
      reads this, clock
    {
      && (trace.wakes == [] ==> previousTimeMs < 0.0)
      && (trace.wakes != [] ==>
            && 0 <= Last(trace.wakes) <= clock.now
            && previousTimeMs * 1_000_000.0 == Last(trace.wakes) as real)
      && Spaced(trace)
      && (clock.exact ==> Exact(trace))
    }

    constructor (clock: Clock)
      ensures Valid() && this.clock == clock && periodMs == 0.0 && trace == Trace([], [], [])
    {
      this.clock := clock;
      periodMs := 0.0;
      previousTimeMs := -1.0;
      trace := Trace([], [], []);
    }

    constructor WithFrequency(clock: Clock, frequency: real)
      requires frequency != 0.0
      ensures Valid() && this.clock == clock && periodMs * frequency == 1000.0 && trace == Trace([], [], [])
    {
      this.clock := clock;
      periodMs := (1.0 / frequency) * 1000.0;
      previousTimeMs := -1.0;
      trace := Trace([], [], []);
    }

    method SetFrequency(frequency: real)
      requires Valid() && frequency != 0.0
      modifies this`periodMs
      ensures Valid() && periodMs * frequency == 1000.0
    {
      periodMs := (1.0 / frequency) * 1000.0;
    }

    method SetPeriod(period: real)
      requires Valid()
      modifies this`periodMs
      ensures Valid() && periodMs == period * 1000.0
    {
      periodMs := period * 1000.0;
    }

    /** The release keeps one period from the one before.  The call reports false exactly when
        it arrived more than a period after that one. */
    method Wait() returns (onTime: bool, ghost arrival: nat)
      requires Valid()
      modifies this, clock
      ensures Valid() && periodMs == old(periodMs)
      ensures old(clock.now) <= arrival <= clock.now && (clock.exact ==> arrival == old(clock.now))
      ensures trace.arrivals == old(trace.arrivals) + [arrival]
      ensures trace.gaps == old(trace.gaps) + [periodMs / 1000.0]
      ensures old(trace.wakes) < trace.wakes && |trace.wakes| == |old(trace.wakes)| + 1
      ensures !onTime <==>
        old(trace.wakes) != [] && (arrival - Last(old(trace.wakes))) as real > periodMs * 1_000_000.0
      ensures (!onTime || old(trace.wakes) == []) ==> Last(trace.wakes) == arrival
      ensures (onTime && old(trace.wakes) != []) ==> Last(trace.wakes) == clock.now
    {
      ghost var gap := periodMs / 1000.0;
      var sec := clock.CurrentTimeSec();
      var t := 1000.0 * sec;
      arrival := clock.now;
      if previousTimeMs < 0.0 {
        previousTimeMs := t;
        Record(arrival, gap, arrival);
        return true, arrival;
      }
      var delta := t - previousTimeMs;
      ghost var last := Last(trace.wakes);
      assert delta * 1_000_000.0 == (arrival - last) as real;
      LateMeansAfterTheGap(arrival, last, gap);
      if delta > periodMs {
        previousTimeMs := t;
        Record(arrival, gap, arrival);
        return false, arrival;
      }
      clock.SleepSec(0.001 * (periodMs - delta));
      ShiftedNearest(0.001 * (periodMs - delta), last - arrival, gap);
      sec := clock.CurrentTimeSec();
      previousTimeMs := 1000.0 * sec;
      Record(arrival, gap, clock.now);
      onTime := true;
    }

    ghost method Record(arrival: int, gap: real, wake: int)
      requires Spaced(trace) && (clock.exact ==> Exact(trace))
      requires if trace.wakes == [] then arrival == wake else SpacedCall(Last(trace.wakes), arrival, gap, wake)
      requires clock.exact && trace.wakes != [] ==> ExactCall(Last(trace.wakes), arrival, gap, wake)
      modifies this`trace
      ensures trace == Extend(old(trace), arrival, gap, wake)
      ensures Spaced(trace) && (clock.exact ==> Exact(trace))
    {
      ExtendSpaced(trace, arrival, gap, wake);
      if clock.exact { ExtendExact(trace, arrival, gap, wake); }
      trace := Extend(trace, arrival, gap, wake);
    }
  }

  lemma LateMeansAfterTheGap(arrival: int, last: int, gapSec: real)
    ensures (arrival - last) as real > gapSec * 1_000_000_000.0 ==> arrival >= last + NearestNanos(gapSec)
    ensures (arrival - last) as real <= gapSec * 1_000_000_000.0 ==> arrival <= last + NearestNanos(gapSec)
  {
  }

  // ------------------------------------------------------------------ whole runs

  /** Minimum spacing: under any clock and any mix of on-time and late calls, releases i and j
      are apart by all the gaps between them, less half a nanosecond each. */
  lemma {:induction false} MinimumSpacing(tr: Trace, i: nat, j: nat)
    requires Spaced(tr) && i <= j < |tr.wakes|
    ensures (tr.wakes[j] - tr.wakes[i]) as real
         >= Moments.Sum(tr.gaps[i + 1..j + 1]) * 1_000_000_000.0 - 0.5 * (j - i) as real
    decreases j
  {
    if i == j {
    } else {
      MinimumSpacing(tr, i, j - 1);
      var gaps := tr.gaps[i + 1..j + 1];
      assert gaps[..|gaps| - 1] == tr.gaps[i + 1..j];
    }
  }

  /** What n periods take at least, in nanoseconds. */
  function ShortestTime(n: nat, period: real): real { n as real * (period * 1_000_000_000.0 - 0.5) }

  lemma OneMorePeriod(n: nat, period: real)
    ensures ShortestTime(n + 1, period) == ShortestTime(n, period) + (period * 1_000_000_000.0 - 0.5)
    ensures ShortestTime(0, period) == 0.0
  {
  }

  /** With a fixed period, n calls after release i advance it by n * (period - 0.5 ns). */
  lemma {:induction false} MinimumSpacingOfAPeriod(tr: Trace, i: nat, n: nat, period: real)
    requires Spaced(tr) && i + n < |tr.wakes|
    requires forall k :: i < k <= i + n ==> tr.gaps[k] == period
    ensures (tr.wakes[i + n] - tr.wakes[i]) as real >= ShortestTime(n, period)
    decreases n
  {
    if n == 0 {
      OneMorePeriod(0, period);
    } else {
      MinimumSpacingOfAPeriod(tr, i, n - 1, period);
      OneMorePeriod(n - 1, period);
      OneMoreGap(tr.wakes[i], tr.wakes[i + n - 1], tr.wakes[i + n], period, n - 1);
    }
  }

  lemma OneMoreGap(first: int, previous: int, wake: int, period: real, n: nat)
    requires (previous - first) as real >= ShortestTime(n, period)
    requires (wake - previous) as real >= period * 1_000_000_000.0 - 0.5
    ensures (wake - first) as real >= ShortestTime(n, period) + (period * 1_000_000_000.0 - 0.5)
  {
  }

  /** The two pacers are the same: on the exact clock, traces with the same arrivals and gaps
      have the same releases, whichever class made them. */
  lemma {:induction false} SameReleases(a: Trace, b: Trace, n: nat)
    requires Exact(a) && Exact(b) && n < |a.wakes| && n < |b.wakes|
    requires forall k :: 0 <= k <= n ==> a.arrivals[k] == b.arrivals[k]
    requires forall k :: 1 <= k <= n ==> a.gaps[k] == b.gaps[k]
    ensures a.wakes[n] == b.wakes[n]
  {
    if n == 0 {
    } else {
      SameReleases(a, b, n - 1);
    }
  }

  /** A Spinner counts its construction as a release; its calls alone, from the first spin on,
      are a pacer trace like that of a FrequencyManager, because the first spin still has the
      period zero of the constructor. */
  lemma SpinsFormATrace(tr: Trace)
    requires Spaced(tr) && Exact(tr) && |tr.wakes| >= 2 && tr.gaps[1] == 0.0
    ensures Exact(Trace(tr.arrivals[1..], tr.gaps[1..], tr.wakes[1..]))
  {
    assert tr.wakes[0] <= tr.arrivals[1];
    var spins := Trace(tr.arrivals[1..], tr.gaps[1..], tr.wakes[1..]);
    assert tr.wakes[1] == Max(tr.arrivals[1], tr.wakes[0] + NearestNanos(tr.gaps[1]));
    forall j, k | 0 <= j && k == j + 1 < |spins.wakes|
      ensures spins.wakes[k] == Max(spins.arrivals[k], spins.wakes[j] + NearestNanos(spins.gaps[k]))
    {
      assert tr.wakes[k + 1] == Max(tr.arrivals[k + 1], tr.wakes[j + 1] + NearestNanos(tr.gaps[k + 1]));
    }
  }

  /** So with the same arrivals and gaps, spin n releases a loop when wait n does. */
  lemma SpinnerMatchesManager(spinner: Trace, manager: Trace, n: nat)
    requires Spaced(spinner) && Exact(spinner) && Exact(manager)
    requires n + 1 < |spinner.wakes| && n < |manager.wakes| && spinner.gaps[1] == 0.0
    requires forall k :: 0 <= k <= n ==> spinner.arrivals[1..][k] == manager.arrivals[k]
    requires forall k :: 1 <= k <= n ==> spinner.gaps[1..][k] == manager.gaps[k]
    ensures spinner.wakes[n + 1] == manager.wakes[n]
  {
    SpinsFormATrace(spinner);
    SameReleases(Trace(spinner.arrivals[1..], spinner.gaps[1..], spinner.wakes[1..]), manager, n);
  }

  /** Closed form: with a fixed period of p nanoseconds, release n is the largest of
      arrivals[k] + (n - k) * p over the calls k up to n. */
  lemma {:induction false} ClosedForm(tr: Trace, n: nat, periodSec: real)
    requires Exact(tr) && n < |tr.wakes|
    requires forall k :: 1 <= k <= n ==> tr.gaps[k] == periodSec
    ensures forall k :: 0 <= k <= n ==> tr.wakes[n] >= tr.arrivals[k] + (n - k) * NearestNanos(periodSec)
    ensures exists k :: 0 <= k <= n && tr.wakes[n] == tr.arrivals[k] + (n - k) * NearestNanos(periodSec)
  {
    var p := NearestNanos(periodSec);
    if n == 0 {
      assert tr.wakes[0] == tr.arrivals[0] + (0 - 0) * p;
    } else {
      ClosedForm(tr, n - 1, periodSec);
      assert tr.wakes[n] == Max(tr.arrivals[n], tr.wakes[n - 1] + p);
      forall k | 0 <= k <= n ensures tr.wakes[n] >= tr.arrivals[k] + (n - k) * p {
        if k < n { assert (n - k) * p == (n - 1 - k) * p + p; }
      }
      if tr.wakes[n] == tr.arrivals[n] {
        assert tr.wakes[n] == tr.arrivals[n] + (n - n) * p;
      } else {
        var k :| 0 <= k <= n - 1 && tr.wakes[n - 1] == tr.arrivals[k] + (n - 1 - k) * p;
        assert (n - k) * p == (n - 1 - k) * p + p;
      }
    }
  }
}
