/** POSIX dates: a whole number of seconds and a number of nanoseconds, and the conversions
    between them and seconds (sec_to_timespec, timespec_add_sec).  Doubles are modelled as
    exact reals. */
module TimespecConversion {
  import Moments

  const GIGA: int := 1_000_000_000

  datatype Timespec = Timespec(sec: int, nsec: int)

  function Nanos(spec: Timespec): int { spec.sec * GIGA + spec.nsec }

  predicate Normalized(spec: Timespec) { 0 <= spec.nsec < GIGA }

  function ToSec(spec: Timespec): real { spec.sec as real + spec.nsec as real / 1_000_000_000.0 }

  /** A C++ cast of a double to an integer type drops the fraction: it rounds towards zero. */
  function Truncate(x: real): int { if x >= 0.0 then x.Floor else -(-x).Floor }

  function SecToTimespec(dateSec: real): Timespec {
    var shifted := dateSec + 0.000_000_000_5;
    var sec := Truncate(shifted);
    Timespec(sec, Truncate((shifted - sec as real) * 1_000_000_000.0))
  }

  function AddSec(spec: Timespec, durationSec: real): Timespec {
    SecToTimespec(durationSec + spec.nsec as real / 1_000_000_000.0 + spec.sec as real)
  }

  /** A struct timespec, which the conversions overwrite in place. */
  class TimespecVariable {
    var tvSec: int
    var tvNsec: int

    function Value(): Timespec
      reads this
    {
      Timespec(tvSec, tvNsec)
    }

    method ConvertFrom(dateSec: real)
      modifies this
      ensures Value() == SecToTimespec(dateSec)
    {
      var date := dateSec + 0.000_000_000_5;
      tvSec := Truncate(date);
      tvNsec := Truncate((date - tvSec as real) * 1_000_000_000.0);
    }

    method Add(durationSec: real)
      modifies this
      ensures Value() == AddSec(old(Value()), durationSec)
    {
      var total := durationSec + tvNsec as real / 1_000_000_000.0 + tvSec as real;
      ConvertFrom(total);
    }
  }

  // ------------------------------------------------------------------ what is computed

  lemma FloorIs(x: real, n: int)
    requires n as real <= x < (n + 1) as real
    ensures x.Floor == n
  {
  }

  lemma NonnegativeNanos(shifted: real)
    requires shifted >= 0.0
    ensures
      var sec := shifted.Floor;
      sec * GIGA + ((shifted - sec as real) * 1_000_000_000.0).Floor == (shifted * 1_000_000_000.0).Floor
  {
    var sec := shifted.Floor;
    var nsec := ((shifted - sec as real) * 1_000_000_000.0).Floor;
    assert (sec * GIGA) as real == sec as real * 1_000_000_000.0;
    FloorIs(shifted * 1_000_000_000.0, sec * GIGA + nsec);
  }

  /** For every date, the seconds and the nanoseconds together are the date in nanoseconds,
      shifted by half a nanosecond and rounded towards zero. */
  lemma ConvertedNanos(dateSec: real)
    ensures Nanos(SecToTimespec(dateSec)) == Truncate(dateSec * 1_000_000_000.0 + 0.5)
  {
    var shifted := dateSec + 0.000_000_000_5;
    NonnegativeNanos(if shifted >= 0.0 then shifted else -shifted);
  }

  /** The date in nanoseconds rounded to the nearest integer (halves up). */
  function NearestNanos(dateSec: real): int { (dateSec * 1_000_000_000.0 + 0.5).Floor }

  /** A date from half a nanosecond before the epoch on is rounded to the nearest nanosecond. */
  lemma ConvertedIsNearest(dateSec: real)
    requires dateSec >= -0.000_000_000_5
    ensures Nanos(SecToTimespec(dateSec)) == NearestNanos(dateSec)
  {
    ConvertedNanos(dateSec);
  }

  /** The error is at most half a nanosecond exactly for dates that are not before the epoch
      (by more than half a nanosecond), and for those whose error is exactly one half. */
  lemma WithinHalfANanosecond(dateSec: real)
    ensures var error := Nanos(SecToTimespec(dateSec)) as real - dateSec * 1_000_000_000.0;
      -0.5 <= error <= 0.5 <==>
      dateSec >= -0.000_000_000_5
      || (dateSec * 1_000_000_000.0 + 0.5).Floor as real == dateSec * 1_000_000_000.0 + 0.5
  {
    ConvertedNanos(dateSec);
    var y := dateSec * 1_000_000_000.0 + 0.5;
    if y < 0.0 {
      var n := (-y).Floor;
      if n as real == -y { FloorIs(y, -n); }
      if y.Floor as real == y { FloorIs(-y, -y.Floor); }
    }
  }

  /** The result is a normalized timespec exactly when the shifted date is not negative, or
      falls less than a nanosecond short of a whole second. */
  lemma WhenNormalized(dateSec: real)
    ensures var shifted := dateSec + 0.000_000_000_5;
      Normalized(SecToTimespec(dateSec)) <==>
      shifted >= 0.0 || shifted - Truncate(shifted) as real > -0.000_000_001
  {
  }

  predicate LexLessEqual(a: Timespec, b: Timespec) {
    a.sec < b.sec || (a.sec == b.sec && a.nsec <= b.nsec)
  }

  lemma TruncateMonotone(x: real, y: real)
    requires x <= y
    ensures Truncate(x) <= Truncate(y)
  {
  }

  /** A later date never gives an earlier timespec, before the epoch or after it. */
  lemma ConversionIsMonotone(early: real, late: real)
    requires early <= late
    ensures LexLessEqual(SecToTimespec(early), SecToTimespec(late))
  {
    var a, b := early + 0.000_000_000_5, late + 0.000_000_000_5;
    TruncateMonotone(a, b);
    if Truncate(a) == Truncate(b) {
      var sec := Truncate(a) as real;
      TruncateMonotone((a - sec) * 1_000_000_000.0, (b - sec) * 1_000_000_000.0);
    }
  }

  // --------------------------------------------------------------------- round trips

  lemma NanosDetermine(a: Timespec, b: Timespec)
    requires Normalized(a) && Normalized(b) && Nanos(a) == Nanos(b)
    ensures a == b
  {
  }

  lemma NanosOfSec(spec: Timespec)
    ensures ToSec(spec) * 1_000_000_000.0 == Nanos(spec) as real
  {
    assert (spec.sec * GIGA) as real == spec.sec as real * 1_000_000_000.0;
  }

  /** Converting a normalized timespec to seconds and back gives it again exactly when it is
      not before the epoch. */
  lemma TimespecRoundTrip(spec: Timespec)
    requires Normalized(spec)
    ensures SecToTimespec(ToSec(spec)) == spec <==> spec.sec >= 0
  {
    NanosOfSec(spec);
    ConvertedNanos(ToSec(spec));
    WhenNormalized(ToSec(spec));
    if spec.sec >= 0 {
      NanosDetermine(SecToTimespec(ToSec(spec)), spec);
    }
  }

  /** What a whole number of nanoseconds since the epoch is converted to. */
  function OfNanos(nanos: int): Timespec { SecToTimespec(nanos as real / 1_000_000_000.0) }

  /** Exact from the epoch on; before it, one nanosecond late. */
  lemma NanosOfNanos(nanos: int)
    ensures Nanos(OfNanos(nanos)) == if nanos >= 0 then nanos else nanos + 1
    ensures nanos >= 0 ==> Normalized(OfNanos(nanos))
  {
    var date := nanos as real / 1_000_000_000.0;
    assert date * 1_000_000_000.0 == nanos as real;
    ConvertedNanos(date);
    WhenNormalized(date);
    if nanos < 0 { FloorIs(-(nanos as real + 0.5), -nanos - 1); }
  }

  lemma AddedNanos(spec: Timespec, durationNanos: int)
    ensures AddSec(spec, durationNanos as real / 1_000_000_000.0) == OfNanos(Nanos(spec) + durationNanos)
  {
    NanosOfSec(spec);
    var date := durationNanos as real / 1_000_000_000.0 + spec.nsec as real / 1_000_000_000.0 + spec.sec as real;
    assert date == (Nanos(spec) + durationNanos) as real / 1_000_000_000.0;
  }

  /** Adding a whole number of nanoseconds is exact if and only if the result is not before the
      epoch; before it, the result is one nanosecond late. */
  lemma AddWholeNanos(spec: Timespec, durationNanos: int)
    ensures var sum, exact := AddSec(spec, durationNanos as real / 1_000_000_000.0), Nanos(spec) + durationNanos;
      && (exact >= 0 ==> Normalized(sum) && Nanos(sum) == exact)
      && (exact < 0 ==> Nanos(sum) == exact + 1)
  {
    AddedNanos(spec, durationNanos);
    NanosOfNanos(Nanos(spec) + durationNanos);
  }

  /** Two whole-nanosecond additions can be merged if and only if the first one does not end
      before the epoch, or the second one ends one nanosecond before it. */
  lemma AddIsAdditive(spec: Timespec, a: int, b: int)
    ensures AddSec(AddSec(spec, a as real / 1_000_000_000.0), b as real / 1_000_000_000.0)
         == AddSec(spec, (a + b) as real / 1_000_000_000.0)
       <==> Nanos(spec) + a >= 0 || Nanos(spec) + a + b == -1
  {
    var p := Nanos(spec) + a;
    AddedNanos(spec, a);
    AddedNanos(OfNanos(p), b);
    AddedNanos(spec, a + b);
    NanosOfNanos(p);
    if p < 0 { OneNanosecondLate(p + b); }
  }

  lemma OneNanosecondLate(nanos: int)
    ensures OfNanos(nanos + 1) == OfNanos(nanos) <==> nanos == -1
  {
    NanosOfNanos(nanos);
    NanosOfNanos(nanos + 1);
    if nanos == -1 { JustBeforeTheEpoch(); }
  }

  lemma JustBeforeTheEpoch()
    ensures OfNanos(-1) == OfNanos(0) == Timespec(0, 0)
  {
  }

  function AddAll(spec: Timespec, durations: seq<real>): Timespec {
    if durations == [] then spec
    else AddSec(AddAll(spec, durations[..|durations| - 1]), durations[|durations| - 1])
  }

  lemma AddWithinHalf(spec: Timespec, durationSec: real)
    requires Nanos(spec) >= 0 && durationSec >= 0.0
    ensures Nanos(AddSec(spec, durationSec)) >= 0
    ensures var error := Nanos(AddSec(spec, durationSec)) as real
                         - (Nanos(spec) as real + durationSec * 1_000_000_000.0);
      -0.5 <= error <= 0.5
  {
    NanosOfSec(spec);
    ConvertedIsNearest(durationSec + spec.nsec as real / 1_000_000_000.0 + spec.sec as real);
  }

  /** k additions of nonnegative durations accumulate at most k half nanoseconds of error. */
  lemma {:induction false} AccumulatedError(spec: Timespec, durations: seq<real>)
    requires Nanos(spec) >= 0 && forall k :: 0 <= k < |durations| ==> durations[k] >= 0.0
    ensures Nanos(AddAll(spec, durations)) >= 0
    ensures var error := Nanos(AddAll(spec, durations)) as real
                         - (Nanos(spec) as real + Moments.Sum(durations) * 1_000_000_000.0);
      -0.5 * |durations| as real <= error <= 0.5 * |durations| as real
  {
    if durations == [] {
    } else {
      var rest := durations[..|durations| - 1];
      AccumulatedError(spec, rest);
      AddWithinHalf(AddAll(spec, rest), durations[|durations| - 1]);
    }
  }
}
