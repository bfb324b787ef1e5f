/** The environment: a clock that only goes forward and a sleep that never ends before its
    target, with the reading and sleeping helpers of Timer on top. */
module RealtimeClock {
  import opened TimespecConversion

  /** The realtime clock, in whole nanoseconds.  It may advance by any amount during a call,
      unless it is `exact`: then reading it costs no time and a sleep ends on its target. */
  class Clock {
    const exact: bool
    var now: nat

    constructor (exact: bool, now: nat)
      ensures this.exact == exact && this.now == now
    {
      this.exact := exact;
      this.now := now;
    }

    method Gettime() returns (spec: Timespec)
      modifies this
      ensures now >= old(now) && (exact ==> now == old(now))
      ensures spec == Timespec(now / GIGA, now % GIGA)
    {
      if !exact {
        var delay :| delay >= 0;
        now := now + delay;
      }
      spec := Timespec(now / GIGA, now % GIGA);
    }

    /** An invalid target is refused (EINVAL): the call returns at once. */
    method NanosleepUntil(target: Timespec)
      modifies this
      ensures now >= old(now)
      ensures Normalized(target) ==> now >= Nanos(target)
      ensures exact ==> now == if Normalized(target) && Nanos(target) > old(now) then Nanos(target) else old(now)
    {
      if Normalized(target) && Nanos(target) > now {
        now := Nanos(target);
      }
      if !exact {
        var delay :| delay >= 0;
        now := now + delay;
      }
    }

    // Timer::get_current_time_sec
    method CurrentTimeSec() returns (sec: real)
      modifies this
      ensures now >= old(now) && (exact ==> now == old(now))
      ensures sec * 1_000_000_000.0 == now as real
    {
      var spec := Gettime();
      sec := ToSec(spec);
      NanosOfSec(spec);
    }

    // Timer::sleep_until_sec
    method SleepUntilSec(dateSec: real)
      modifies this
      ensures now >= old(now)
      ensures now as real >= dateSec * 1_000_000_000.0 - 0.5
      ensures exact ==> now == Max(old(now), NearestNanos(dateSec))
    {
      SleepTarget(dateSec, now);
      NanosleepUntil(SecToTimespec(dateSec));
    }

    // Timer::sleep_sec
    method SleepSec(durationSec: real)
      modifies this
      ensures now >= old(now)
      ensures now as real >= old(now) as real + durationSec * 1_000_000_000.0 - 0.5
      ensures exact ==> now == Max(old(now), old(now) + NearestNanos(durationSec))
    {
      var spec := Gettime();
      var target := AddSec(spec, durationSec);
      var date := durationSec + spec.nsec as real / 1_000_000_000.0 + spec.sec as real;
      NanosOfSec(spec);
      assert date * 1_000_000_000.0 == now as real + durationSec * 1_000_000_000.0;
      SleepTarget(date, now);
      NanosleepUntil(target);
    }
  }

  function Max(a: int, b: int): int { if a >= b then a else b }

  lemma SleepTarget(dateSec: real, now: nat)
    ensures dateSec >= -0.000_000_000_5 ==>
      Normalized(SecToTimespec(dateSec)) && Nanos(SecToTimespec(dateSec)) == NearestNanos(dateSec)
    ensures dateSec < -0.000_000_000_5 ==>
      Nanos(SecToTimespec(dateSec)) <= 0 && NearestNanos(dateSec) < 0 && dateSec * 1_000_000_000.0 - 0.5 < 0.0
    ensures NearestNanos(dateSec) as real >= dateSec * 1_000_000_000.0 - 0.5
  {
    ConvertedNanos(dateSec);
    WhenNormalized(dateSec);
  }
}
