/** RealTimeCheck: frequencies between ticks, in a machine whose tick counter wraps at 2^32.
    Doubles are modelled as exact reals; the result of dividing by a zero gap, and the largest
    double that stands for "nothing measured yet", are both Unbounded: no frequency is above
    it. */
module RealtimeChecking {
  const UINT_RANGE: nat := 0x1_0000_0000

  // -------------------------------------------------------------- what the code does

  datatype Frequency = Hz(value: real) | Unbounded

  predicate Below(a: Frequency, b: Frequency) {
    a.Hz? && (b.Hz? ==> a.value < b.value)
  }

  /** So many ticks in so many nanoseconds. */
  function Rate(ticks: nat, nanos: int): Frequency {
    if nanos == 0 then Unbounded else Hz(ticks as real / (0.000_000_001 * nanos as real))
  }

  datatype CheckState = CheckState(
    started: bool,
    startTime: int,
    lastTick: int,
    ticks: nat,
    switchs: nat,
    average: Frequency,
    worse: Frequency,
    current: Frequency,
    switchFrequency: real)

  function Initial(switchFrequency: real): CheckState {
    CheckState(false, 0, 0, 0, 0, Hz(-1.0), Unbounded, Unbounded, switchFrequency)
  }

  /** Unsigned 32-bit increment. */
  function Increment(n: nat): nat { if n + 1 == UINT_RANGE then 0 else n + 1 }

  function TicksAfter(s: CheckState): nat { Increment(s.ticks) }

  /** The counter is about to run out: no tick is measured until it has wrapped. */
  predicate Exhausted(s: CheckState) { TicksAfter(s) >= UINT_RANGE - 2 }

  predicate Measures(s: CheckState) { s.started && !Exhausted(s) }

  function TickAt(s: CheckState, t: int): CheckState {
    var ticked := s.(ticks := TicksAfter(s));
    if Exhausted(s) then ticked.(started := false)
    else if !s.started then ticked.(startTime := t, lastTick := t, started := true)
    else
      var current := Rate(1, t - s.lastTick);
      ticked.(current := current,
              switchs := if Below(current, Hz(s.switchFrequency)) then Increment(s.switchs) else s.switchs,
              worse := if Below(current, s.worse) then current else s.worse,
              average := Rate(ticked.ticks, t - s.startTime),
              lastTick := t)
  }

  /** The state after ticks at the given times. */
  function Run(times: seq<int>, switchFrequency: real): CheckState {
    if times == [] then Initial(switchFrequency)
    else TickAt(Run(times[..|times| - 1], switchFrequency), times[|times| - 1])
  }

  // ------------------------------------------------------------- what it should amount to

  /** Whether tick number n, counted from one, ends a measured gap: not the very first tick, and
      not the last two before the counter wraps nor the one that wraps it to zero. */
  predicate Measured(n: nat) { n >= 2 && 1 <= n % UINT_RANGE < UINT_RANGE - 2 }

  function LastGap(times: seq<int>): int
    requires |times| >= 2
  {
    times[|times| - 1] - times[|times| - 2]
  }

  /** The gaps that end at a measured tick. */
  function Gaps(times: seq<int>): seq<int> {
    if times == [] then []
    else if Measured(|times|) then Gaps(times[..|times| - 1]) + [LastGap(times)]
    else Gaps(times[..|times| - 1])
  }

  /** Those since the latest tick that is not measured. */
  function EpochGaps(times: seq<int>): seq<int> {
    if times == [] then []
    else if Measured(|times|) then EpochGaps(times[..|times| - 1]) + [LastGap(times)]
    else []
  }

  /** The gaps between any two ticks in a row. */
  function AllGaps(times: seq<int>): seq<int> {
    seq(if times == [] then 0 else |times| - 1, k requires 0 <= k < |times| - 1 => times[k + 1] - times[k])
  }

  function SlowGaps(gaps: seq<int>, switchFrequency: real): nat {
    if gaps == [] then 0
    else
      var last := Rate(1, gaps[|gaps| - 1]);
      SlowGaps(gaps[..|gaps| - 1], switchFrequency) + if Below(last, Hz(switchFrequency)) then 1 else 0
  }

  function Sum(gaps: seq<int>): int {
    if gaps == [] then 0 else Sum(gaps[..|gaps| - 1]) + gaps[|gaps| - 1]
  }

  predicate Positive(gaps: seq<int>) {
    forall k :: 0 <= k < |gaps| ==> gaps[k] > 0
  }

  predicate Increasing(times: seq<int>) {
    forall j, k :: 0 <= j < k < |times| ==> times[j] < times[k]
  }

  // ------------------------------------------------------------- the wrapping counter

  lemma IncrementWraps(n: nat)
    ensures Increment(n % UINT_RANGE) == (n + 1) % UINT_RANGE
  {
    var q, r := n / UINT_RANGE, n % UINT_RANGE;
    assert n == q * UINT_RANGE + r;
    if r + 1 == UINT_RANGE {
      assert n + 1 == (q + 1) * UINT_RANGE + 0;
    }
  }

  /** After N ticks the counter is N mod 2^32, and statistics are withheld before the first
      tick and at the last two ticks before each wrap, and at no other time. */
  lemma {:induction false} WrappingTicks(times: seq<int>, f: real)
    ensures Run(times, f).ticks == |times| % UINT_RANGE
    ensures Run(times, f).started <==> |times| >= 1 && |times| % UINT_RANGE < UINT_RANGE - 2
    decreases |times|
  {
    if times == [] {
    } else {
      WrappingTicks(times[..|times| - 1], f);
      IncrementWraps(|times| - 1);
    }
  }

  lemma {:induction false} LastTick(times: seq<int>, f: real)
    ensures Run(times, f).started ==> times != [] && Run(times, f).lastTick == times[|times| - 1]
  {
  }

  lemma NextModulo(n: nat)
    ensures (n + 1) % UINT_RANGE == if n % UINT_RANGE == UINT_RANGE - 1 then 0 else n % UINT_RANGE + 1
  {
    IncrementWraps(n);
  }

  /** The machine measures exactly the gaps that end at a measured tick. */
  lemma {:induction false} MachineMeasures(times: seq<int>, f: real)
    requires times != []
    ensures Measures(Run(times[..|times| - 1], f)) <==> Measured(|times|)
    ensures Measured(|times|) ==> Run(times[..|times| - 1], f).lastTick == times[|times| - 2]
  {
    var before := times[..|times| - 1];
    WrappingTicks(before, f);
    LastTick(before, f);
    IncrementWraps(|before|);
    NextModulo(|before|);
  }

  /** One tick, in terms of the gap it ends. */
  lemma {:induction false} TickEffect(times: seq<int>, f: real)
    requires times != []
    ensures var s, s' := Run(times[..|times| - 1], f), Run(times, f);
      if Measured(|times|) then
        var current := Rate(1, LastGap(times));
        && s'.current == current
        && s'.switchs == (if Below(current, Hz(s.switchFrequency)) then Increment(s.switchs) else s.switchs)
        && s'.worse == (if Below(current, s.worse) then current else s.worse)
        && s'.startTime == s.startTime && s'.started
      else s'.current == s.current && s'.switchs == s.switchs && s'.worse == s.worse && s'.average == s.average
    ensures Run(times, f).switchFrequency == Run(times[..|times| - 1], f).switchFrequency
  {
    MachineMeasures(times, f);
  }

  /** The count of switches is the number of measured gaps below the switch frequency, modulo
      2^32. */
  lemma {:induction false} SwitchsCountSlowGaps(times: seq<int>, f: real)
    ensures Run(times, f).switchs == SlowGaps(Gaps(times), f) % UINT_RANGE
    ensures Run(times, f).switchFrequency == f
    decreases |times|
  {
    if times == [] {
    } else {
      var gaps := Gaps(times[..|times| - 1]);
      SwitchsCountSlowGaps(times[..|times| - 1], f);
      TickEffect(times, f);
      if Measured(|times|) {
        assert (gaps + [LastGap(times)])[..|gaps|] == gaps;
        IncrementWraps(SlowGaps(gaps, f));
      }
    }
  }

  /** What is measured, by tick number: the gap that ends at tick number k + 1. */
  predicate GapAt(times: seq<int>, k: int, gap: int) {
    1 <= k < |times| && times[k] - times[k - 1] == gap
  }

  lemma {:induction false} GapsAreMeasured(times: seq<int>, gap: int)
    ensures gap in Gaps(times) <==> exists k :: GapAt(times, k, gap) && Measured(k + 1)
    decreases |times|
  {
    if times == [] {
    } else {
      var before, last := times[..|times| - 1], |times| - 1;
      GapsAreMeasured(before, gap);
      forall k | k != last ensures GapAt(before, k, gap) <==> GapAt(times, k, gap) {
      }
      if Measured(|times|) {
        assert GapAt(times, last, gap) <==> gap == LastGap(times);
      }
    }
  }

  lemma AllGapsAreGaps(times: seq<int>, gap: int)
    ensures gap in AllGaps(times) <==> exists k :: GapAt(times, k, gap)
  {
    if gap in AllGaps(times) {
      var k :| 0 <= k < |AllGaps(times)| && AllGaps(times)[k] == gap;
      assert GapAt(times, k + 1, gap);
    }
    if k :| GapAt(times, k, gap) {
      assert AllGaps(times)[k - 1] == gap;
    }
  }

  /** How many gaps of n ticks are measured: every tick but three in each round of the counter
      ends one, and the very first tick does not. */
  function MeasuredCount(n: nat): int {
    if n == 0 then 0
    else n / UINT_RANGE * (UINT_RANGE - 3)
         + (if n % UINT_RANGE < UINT_RANGE - 3 then n % UINT_RANGE else UINT_RANGE - 3) - 1
  }

  lemma OneMoreMeasured(n: nat)
    ensures MeasuredCount(n + 1) == MeasuredCount(n) + if Measured(n + 1) then 1 else 0
  {
    var q, r := n / UINT_RANGE, n % UINT_RANGE;
    assert n == q * UINT_RANGE + r;
    if r + 1 == UINT_RANGE {
      assert n + 1 == (q + 1) * UINT_RANGE;
    } else {
      assert n + 1 == q * UINT_RANGE + (r + 1);
    }
  }

  lemma {:induction false} MeasuredGapsCount(times: seq<int>)
    ensures |Gaps(times)| == MeasuredCount(|times|)
    decreases |times|
  {
    if times == [] {
    } else {
      MeasuredGapsCount(times[..|times| - 1]);
      OneMoreMeasured(|times| - 1);
    }
  }

  /** In plain numbers: the check is started by the first tick and counts every tick, until the
      counter reaches 4294967294; statistics are withheld for two ticks, and restart at zero. */
  lemma {:induction false} CounterInNumbers(times: seq<int>, f: real)
    ensures 1 <= |times| < 4_294_967_294 ==> Run(times, f).started && Run(times, f).ticks == |times|
    ensures |times| == 0 || |times| == 4_294_967_294 || |times| == 4_294_967_295 ==> !Run(times, f).started
    ensures |times| == 4_294_967_296 ==> Run(times, f).started && Run(times, f).ticks == 0
  {
    WrappingTicks(times, f);
  }

  /** A frequency is ticks per second, and it is too low only strictly below the bound. */
  lemma RateInNumbers(ticks: nat, nanos: int, f: real)
    requires nanos > 0
    ensures Rate(ticks, nanos).Hz? && Rate(ticks, nanos).value * nanos as real == ticks as real * 1_000_000_000.0
    ensures Below(Rate(1, nanos), Hz(f)) <==> f * nanos as real > 1_000_000_000.0
    ensures !Below(Rate(1, 0), Hz(f))
  {
    RateValue(ticks, nanos);
    BelowExactly(nanos, f);
  }

  lemma RateValue(ticks: nat, nanos: int)
    requires nanos > 0
    ensures Rate(ticks, nanos).Hz? && Rate(ticks, nanos).value * nanos as real == ticks as real * 1_000_000_000.0
  {
    var d := 0.000_000_001 * nanos as real;
    Quotient(ticks as real, d, 0.0);
    InNanos(ticks as real / d, nanos as real);
  }

  lemma BelowExactly(nanos: int, f: real)
    requires nanos > 0
    ensures Below(Rate(1, nanos), Hz(f)) <==> f * nanos as real > 1_000_000_000.0
  {
    var d := 0.000_000_001 * nanos as real;
    BelowQuotient(nanos, d, f);
    Quotient(1.0, d, f);
    InNanos(f, nanos as real);
    AtScale(f * d, f * nanos as real);
  }

  lemma BelowQuotient(nanos: int, d: real, f: real)
    requires nanos > 0 && d == 0.000_000_001 * nanos as real
    ensures Below(Rate(1, nanos), Hz(f)) <==> 1.0 / d < f
  {
  }

  lemma AtScale(y: real, z: real)
    requires z == y * 1_000_000_000.0
    ensures 1.0 < y <==> z > 1_000_000_000.0
  {
  }

  lemma InNanos(x: real, n: real)
    ensures x * n == x * (0.000_000_001 * n) * 1_000_000_000.0
  {
  }

  lemma Quotient(x: real, d: real, f: real)
    requires d > 0.0
    ensures x / d * d == x
    ensures x / d < f <==> x < f * d
  {
    var r := x / d;
    assert r * d == x;
    assert (f - r) * d == f * d - x;
    if f > r { assert (f - r) * d > 0.0; } else { assert (r - f) * d >= 0.0; }
  }

  /** Until a gap was measured the average is -1, and nothing is known of the others. */
  lemma {:induction false} NothingMeasuredYet(times: seq<int>, f: real)
    requires Gaps(times) == []
    ensures var s := Run(times, f);
      s.average == Hz(-1.0) && s.current == Unbounded && s.worse == Unbounded && s.switchs == 0
    decreases |times|
  {
    if times == [] {
    } else {
      NothingMeasuredYet(times[..|times| - 1], f);
      TickEffect(times, f);
    }
  }

  // -------------------------------------------------------------------- worst frequency

  predicate IsWorst(worse: Frequency, gaps: seq<int>) {
    && (forall g :: g in gaps ==> !Below(Rate(1, g), worse))
    && (worse.Hz? ==> exists g :: g in gaps && worse == Rate(1, g))
  }

  lemma WorstOfOneMore(worse: Frequency, gaps: seq<int>, gap: int)
    requires IsWorst(worse, gaps)
    ensures IsWorst(if Below(Rate(1, gap), worse) then Rate(1, gap) else worse, gaps + [gap])
  {
    assert gap in gaps + [gap];
    assert forall g :: g in gaps + [gap] <==> g in gaps || g == gap;
  }

  /** The worst frequency is the least one measured, over all epochs. */
  lemma {:induction false} WorseIsTheWorst(times: seq<int>, f: real)
    ensures IsWorst(Run(times, f).worse, Gaps(times))
    decreases |times|
  {
    if times == [] {
    } else {
      var before := times[..|times| - 1];
      WorseIsTheWorst(before, f);
      TickEffect(times, f);
      if Measured(|times|) { WorstOfOneMore(Run(before, f).worse, Gaps(before), LastGap(times)); }
    }
  }

  /** It is the worst frequency ever experienced between two ticks if and only if no gap that
      ends at an unmeasured tick was slower. */
  lemma {:induction false} WorstEverExperienced(times: seq<int>, f: real)
    ensures IsWorst(Run(times, f).worse, AllGaps(times)) <==>
      forall k, gap :: GapAt(times, k, gap) && !Measured(k + 1) ==> !Below(Rate(1, gap), Run(times, f).worse)
  {
    WorseIsTheWorst(times, f);
    AllOrUnmeasured(times, Run(times, f).worse);
  }

  lemma {:induction false} AllOrUnmeasured(times: seq<int>, worse: Frequency)
    requires IsWorst(worse, Gaps(times))
    ensures IsWorst(worse, AllGaps(times)) <==>
      forall k, gap :: GapAt(times, k, gap) && !Measured(k + 1) ==> !Below(Rate(1, gap), worse)
  {
    forall gap
      ensures gap in Gaps(times) <==> exists k :: GapAt(times, k, gap) && Measured(k + 1)
      ensures gap in AllGaps(times) <==> exists k :: GapAt(times, k, gap)
    {
      GapsAreMeasured(times, gap);
      AllGapsAreGaps(times, gap);
    }
  }

  function CurrentOf(gaps: seq<int>): Frequency {
    if gaps == [] then Unbounded else Rate(1, gaps[|gaps| - 1])
  }

  /** The current frequency is that of the latest measured gap. */
  lemma {:induction false} CurrentIsTheLatest(times: seq<int>, f: real)
    ensures Run(times, f).current == CurrentOf(Gaps(times))
    decreases |times|
  {
    if times == [] {
    } else {
      CurrentIsTheLatest(times[..|times| - 1], f);
      TickEffect(times, f);
    }
  }

  // ------------------------------------------------------------- average against worst

  lemma {:induction false} GapsArePositive(times: seq<int>)
    requires Increasing(times)
    ensures Positive(Gaps(times)) && Positive(EpochGaps(times))
    decreases |times|
  {
    if times == [] {
    } else {
      GapsArePositive(times[..|times| - 1]);
    }
  }

  lemma {:induction false} EpochGapsAreGaps(times: seq<int>)
    ensures forall g :: g in EpochGaps(times) ==> g in Gaps(times)
    decreases |times|
  {
    if times == [] {
    } else {
      EpochGapsAreGaps(times[..|times| - 1]);
    }
  }

  /** The epoch's gaps add up to the time since its start; its ticks number its gaps, and one
      more in the first epoch. */
  lemma {:induction false} EpochTime(times: seq<int>, f: real)
    ensures var s, e := Run(times, f), EpochGaps(times);
      s.started ==>
        && times != [] && s.lastTick == times[|times| - 1] && Sum(e) == s.lastTick - s.startTime
        && s.ticks == |e| + if |times| < UINT_RANGE - 2 then 1 else 0
    decreases |times|
  {
    LastTick(times, f);
    if times == [] {
    } else {
      var before := times[..|times| - 1];
      EpochTime(before, f);
      WrappingTicks(before, f);
      WrappingTicks(times, f);
      MachineMeasures(times, f);
      TickEffect(times, f);
      var e := EpochGaps(before);
      if Measured(|times|) { assert (e + [LastGap(times)])[..|e|] == e; }
    }
  }

  /** What a frequency makes of some nanoseconds. */
  function Cycles(w: real, nanos: int): real { w * (0.000_000_001 * nanos as real) }

  lemma RateOfGap(gap: int, w: real)
    requires gap > 0 && !Below(Rate(1, gap), Hz(w))
    ensures Cycles(w, gap) <= 1.0
  {
    var d := 0.000_000_001 * gap as real;
    assert 1.0 / d * d == 1.0;
    assert (1.0 / d - w) * d >= 0.0;
  }

  lemma CyclesAdd(w: real, a: int, b: int)
    ensures Cycles(w, a + b) == Cycles(w, a) + Cycles(w, b)
  {
    var x, y := 0.000_000_001 * a as real, 0.000_000_001 * b as real;
    assert 0.000_000_001 * (a + b) as real == x + y;
    assert w * (x + y) == w * x + w * y;
  }

  lemma {:induction false} WorstBoundsTheTime(gaps: seq<int>, w: real)
    requires Positive(gaps) && forall k :: 0 <= k < |gaps| ==> !Below(Rate(1, gaps[k]), Hz(w))
    ensures Cycles(w, Sum(gaps)) <= |gaps| as real
    ensures gaps != [] ==> Sum(gaps) > 0
    decreases |gaps|
  {
    if gaps == [] {
    } else {
      var rest, g := gaps[..|gaps| - 1], gaps[|gaps| - 1];
      WorstBoundsTheTime(rest, w);
      RateOfGap(g, w);
      CyclesAdd(w, Sum(rest), g);
    }
  }

  lemma RateBound(ticks: nat, nanos: int, w: real)
    requires nanos > 0 && Cycles(w, nanos) <= ticks as real
    ensures Rate(ticks, nanos).Hz? && Rate(ticks, nanos).value >= w
  {
    var d := 0.000_000_001 * nanos as real;
    var r := ticks as real / d;
    assert r * d == ticks as real;
    if r < w { assert (w - r) * d > 0.0; }
  }

  /** One measured tick: the epoch's rate is at least the worst frequency. */
  lemma {:induction false} EpochRate(gaps: seq<int>, epoch: seq<int>, worse: Frequency, ticks: nat)
    requires Positive(gaps) && Positive(epoch) && IsWorst(worse, gaps)
    requires epoch != [] && (forall g :: g in epoch ==> g in gaps) && ticks >= |epoch|
    ensures worse.Hz? && Rate(ticks, Sum(epoch)).Hz? && worse.value <= Rate(ticks, Sum(epoch)).value
  {
    assert epoch[0] in epoch;
    WorstExists(worse, gaps);
    assert Hz(worse.value) == worse;
    forall k | 0 <= k < |epoch| ensures !Below(Rate(1, epoch[k]), Hz(worse.value)) {
      assert epoch[k] in epoch;
    }
    WorstBoundsTheTime(epoch, worse.value);
    RateBound(ticks, Sum(epoch), worse.value);
  }

  lemma SameRate(m: nat, n: nat, x: int, y: int)
    requires m == n && x == y
    ensures Rate(m, x) == Rate(n, y)
  {
  }

  /** What a measured tick leaves behind, and what EpochTime says of it. */
  lemma {:induction false} MeasuredTick(times: seq<int>, f: real)
    requires Increasing(times) && Measured(|times|)
    ensures var s, e := Run(times, f), EpochGaps(times);
      && e != [] && Positive(e) && Sum(e) == s.lastTick - s.startTime
      && s.average == Rate(s.ticks, Sum(e))
      && s.ticks == |e| + (if |times| < UINT_RANGE - 2 then 1 else 0)
  {
    EpochTime(times, f);
    GapsArePositive(times);
    LatestAverage(times, f);
    var s := Run(times, f);
    SameRate(s.ticks, s.ticks, s.lastTick - s.startTime, Sum(EpochGaps(times)));
  }

  lemma {:induction false} LatestAverage(times: seq<int>, f: real)
    requires Measured(|times|)
    ensures var s := Run(times, f); s.started && s.average == Rate(s.ticks, s.lastTick - s.startTime)
  {
    MachineMeasures(times, f);
    TickAverages(Run(times[..|times| - 1], f), times[|times| - 1], Run(times, f));
  }

  lemma TickAverages(s: CheckState, t: int, s': CheckState)
    requires Measures(s) && s' == TickAt(s, t)
    ensures s'.started && s'.average == Rate(s'.ticks, s'.lastTick - s'.startTime)
  {
  }

  lemma {:induction false} MeasuredTickAverage(times: seq<int>, f: real)
    requires Increasing(times) && Measured(|times|)
    ensures var s := Run(times, f); s.average.Hz? && s.worse.Hz? && s.worse.value <= s.average.value
  {
    MeasuredTick(times, f);
    WorseIsTheWorst(times, f);
    GapsArePositive(times);
    EpochGapsAreGaps(times);
    var s := Run(times, f);
    EpochRate(Gaps(times), EpochGaps(times), s.worse, s.ticks);
  }

  /** Over whole runs, restarts included: with positive gaps between ticks, the average is at
      least the worst frequency from the first measured gap on. */
  lemma {:induction false} AverageIsAtLeastWorst(times: seq<int>, f: real)
    requires Increasing(times) && Gaps(times) != []
    ensures var s := Run(times, f); s.average.Hz? && s.worse.Hz? && s.worse.value <= s.average.value
    decreases |times|
  {
    if Measured(|times|) {
      MeasuredTickAverage(times, f);
    } else {
      AverageIsAtLeastWorst(times[..|times| - 1], f);
      TickEffect(times, f);
    }
  }

  lemma WorstExists(worse: Frequency, gaps: seq<int>)
    requires IsWorst(worse, gaps) && gaps != [] && Positive(gaps)
    ensures worse.Hz?
  {
    assert gaps[0] in gaps;
    assert !Below(Rate(1, gaps[0]), worse);
  }

  // ---------------------------------------------------------------- the first epoch

  /** Sum of the reciprocals of the frequencies of some gaps. */
  function SumOfReciprocals(gaps: seq<int>): real
    requires Positive(gaps)
  {
    if gaps == [] then 0.0
    else
      RateIsPositive(gaps[|gaps| - 1]);
      SumOfReciprocals(gaps[..|gaps| - 1]) + 1.0 / Rate(1, gaps[|gaps| - 1]).value
  }

  lemma RateIsPositive(gap: int)
    requires gap > 0
    ensures Rate(1, gap).Hz? && Rate(1, gap).value > 0.0
    ensures 1.0 / Rate(1, gap).value == 0.000_000_001 * gap as real
  {
    Reciprocal(0.000_000_001 * gap as real);
  }

  lemma Reciprocal(d: real)
    requires d > 0.0
    ensures 1.0 / d > 0.0 && 1.0 / (1.0 / d) == d
  {
    var r := 1.0 / d;
    assert r * d == 1.0;
    assert r > 0.0;
    assert (1.0 / r) * r == 1.0;
    assert (1.0 / r) * (r * d) == ((1.0 / r) * r) * d;
  }

  lemma ReciprocalOfGap(rest: real, sum: int, gap: int)
    requires gap > 0 && rest == 0.000_000_001 * sum as real
    ensures Rate(1, gap).Hz? && Rate(1, gap).value > 0.0
    ensures rest + 1.0 / Rate(1, gap).value == 0.000_000_001 * (sum + gap) as real
  {
    RateIsPositive(gap);
  }

  lemma {:induction false} ReciprocalsAreTheTime(gaps: seq<int>)
    requires Positive(gaps)
    ensures SumOfReciprocals(gaps) == 0.000_000_001 * Sum(gaps) as real
    ensures gaps != [] ==> Sum(gaps) > 0
    decreases |gaps|
  {
    if gaps == [] {
    } else {
      var rest := gaps[..|gaps| - 1];
      ReciprocalsAreTheTime(rest);
      ReciprocalOfGap(SumOfReciprocals(rest), Sum(rest), gaps[|gaps| - 1]);
    }
  }

  /** Before the first wrap there is one epoch, which measures every gap. */
  lemma {:induction false} FirstEpochMeasuresAll(times: seq<int>)
    requires |times| < UINT_RANGE - 2
    ensures EpochGaps(times) == Gaps(times) == AllGaps(times)
    decreases |times|
  {
    if |times| <= 1 {
    } else {
      FirstEpochMeasuresAll(times[..|times| - 1]);
      assert AllGaps(times) == AllGaps(times[..|times| - 1]) + [LastGap(times)];
    }
  }

  /** The harmonic mean of the frequencies of some gaps. */
  function HarmonicMean(gaps: seq<int>): real
    requires Positive(gaps) && gaps != []
  {
    ReciprocalsAreTheTime(gaps);
    |gaps| as real / SumOfReciprocals(gaps)
  }

  function Scaled(h: real, m: nat, n: nat): real
    requires n > 0
  {
    m as real / n as real * h
  }

  lemma {:induction false} RateIsHarmonic(gaps: seq<int>, m: nat)
    requires Positive(gaps) && gaps != []
    ensures Rate(m, Sum(gaps)) == Hz(Scaled(HarmonicMean(gaps), m, |gaps|))
  {
    ReciprocalsAreTheTime(gaps);
    FractionsCancel(m, |gaps|, SumOfReciprocals(gaps));
  }

  /** Whenever the last tick was measured, the average is ticks / n times the harmonic mean of
      the n frequencies measured since the latest start: (n + 1) / n times it in the first
      epoch, where the starting tick counts too, and exactly the harmonic mean in every later
      one, which starts from a counter of zero. */
  lemma {:induction false} AverageIsHarmonic(times: seq<int>, f: real)
    requires Increasing(times) && Measured(|times|)
    ensures var s, e := Run(times, f), EpochGaps(times);
      && Positive(e) && e != []
      && s.ticks == |e| + (if |times| < UINT_RANGE - 2 then 1 else 0)
      && s.average == Hz(Scaled(HarmonicMean(e), s.ticks, |e|))
      && (|times| >= UINT_RANGE - 2 ==> s.average == Hz(HarmonicMean(e)))
  {
    var s, e := Run(times, f), EpochGaps(times);
    MeasuredTick(times, f);
    RateIsHarmonic(e, s.ticks);
    if |times| >= UINT_RANGE - 2 { ScaledByOne(HarmonicMean(e), |e|); }
  }

  lemma ScaledByOne(h: real, n: nat)
    requires n > 0
    ensures Scaled(h, n, n) == h
  {
  }

  /** In particular in the first epoch, after n gaps. */
  lemma {:induction false} FirstEpochAverage(times: seq<int>, f: real)
    requires Increasing(times) && 2 <= |times| < UINT_RANGE - 2
    ensures Positive(Gaps(times)) && |Gaps(times)| == |times| - 1
    ensures Run(times, f).average == Hz(Scaled(HarmonicMean(Gaps(times)), |times|, |times| - 1))
  {
    FirstEpochMeasuresAll(times);
    FirstEpochMeasured(|times|);
    GapsArePositive(times);
    AverageIsHarmonic(times, f);
    SameScaled(HarmonicMean(Gaps(times)), Run(times, f).ticks, |times|, |Gaps(times)|, |times| - 1);
  }

  lemma FirstEpochMeasured(n: nat)
    requires 2 <= n < UINT_RANGE - 2
    ensures Measured(n)
  {
  }

  lemma SameScaled(h: real, m: nat, m': nat, n: nat, n': nat)
    requires m == m' && n == n' > 0
    ensures Scaled(h, m, n) == Scaled(h, m', n')
  {
  }

  lemma FractionsCancel(m: nat, n: nat, d: real)
    requires n > 0 && d > 0.0
    ensures m as real / n as real * (n as real / d) == m as real / d
  {
    var a, b := m as real / n as real, n as real / d;
    assert a * n as real == m as real && b * d == n as real;
    assert a * b * d == m as real;
  }

  predicate SomeSlow(gaps: seq<int>, f: real) { exists g :: g in gaps && Below(Rate(1, g), Hz(f)) }

  lemma {:induction false} SlowGapsExist(gaps: seq<int>, f: real)
    ensures SlowGaps(gaps, f) > 0 <==> SomeSlow(gaps, f)
    decreases |gaps|
  {
    if gaps == [] {
    } else {
      var rest, last := gaps[..|gaps| - 1], gaps[|gaps| - 1];
      SlowGapsExist(rest, f);
      assert forall g :: g in gaps <==> g in rest || g == last;
    }
  }

  predicate RealtimeLost(s: CheckState) { s.started && s.switchs > 0 }

  /** Statistics are available: some tick has started the machine, and the counter is not at one
      of its last two values. */
  predicate Available(times: seq<int>) {
    |times| >= 1 && |times| % UINT_RANGE < UINT_RANGE - 2
  }

  /** was_realtime_lost over whole runs: true exactly when statistics are available and the
      number of slow gaps so far is not a multiple of 2^32. */
  lemma {:induction false} RealtimeLostExactly(times: seq<int>, f: real)
    ensures RealtimeLost(Run(times, f)) <==> Available(times) && SlowGaps(Gaps(times), f) % UINT_RANGE != 0
  {
    WrappingTicks(times, f);
    SwitchsCountSlowGaps(times, f);
  }

  /** So it says whether the frequency between two ticks in a row was ever too low exactly when
      it never was, or statistics are available and the slow gaps among the measured ones are
      no multiple of 2^32. */
  lemma {:induction false} RealtimeLostIsTrue(times: seq<int>, f: real)
    ensures
      (RealtimeLost(Run(times, f)) <==> SomeSlow(AllGaps(times), f)) <==>
      !SomeSlow(AllGaps(times), f) || (Available(times) && SlowGaps(Gaps(times), f) % UINT_RANGE != 0)
  {
    RealtimeLostExactly(times, f);
    ZeroModulo(SlowGaps(Gaps(times), f));
    SlowMeansSomeSlow(times, f);
  }

  lemma {:induction false} SlowMeansSomeSlow(times: seq<int>, f: real)
    ensures SlowGaps(Gaps(times), f) > 0 ==> SomeSlow(AllGaps(times), f)
  {
    SlowGapsExist(Gaps(times), f);
    if SlowGaps(Gaps(times), f) > 0 {
      var g :| g in Gaps(times) && Below(Rate(1, g), Hz(f));
      GapsAreMeasured(times, g);
      AllGapsAreGaps(times, g);
    }
  }

  /** None of the slow gaps counts exactly when all of them end at unmeasured ticks. */
  lemma {:induction false} NoSlowGapCounts(times: seq<int>, f: real)
    ensures SlowGaps(Gaps(times), f) == 0 <==>
      forall k, gap :: GapAt(times, k, gap) && Measured(k + 1) ==> !Below(Rate(1, gap), Hz(f))
  {
    SlowGapsExist(Gaps(times), f);
    forall gap ensures gap in Gaps(times) <==> exists k :: GapAt(times, k, gap) && Measured(k + 1) {
      GapsAreMeasured(times, gap);
    }
  }

  lemma ZeroModulo(n: nat)
    ensures n % UINT_RANGE != 0 ==> n > 0
  {
  }

  lemma {:induction false} SlowMeansWorstIsSlow(worse: Frequency, gaps: seq<int>, f: real)
    requires IsWorst(worse, gaps)
    ensures SlowGaps(gaps, f) > 0 <==> Below(worse, Hz(f))
  {
    SlowGapsExist(gaps, f);
  }

  /** Over whole runs, a gap was slow exactly when the worst frequency is. */
  lemma {:induction false} SlowGapsShowInWorst(times: seq<int>, f: real)
    ensures SlowGaps(Gaps(times), f) > 0 <==> Below(Run(times, f).worse, Hz(f))
  {
    WorseIsTheWorst(times, f);
    SlowMeansWorstIsSlow(Run(times, f).worse, Gaps(times), f);
  }

  /** A loss is forgotten while statistics are withheld: 2^32 - 2 ticks a nanosecond apart, all
      too slow for 2 GHz, and was_realtime_lost is false, although the worst frequency still
      tells. */
  lemma LossIsForgotten()
    ensures var times, f := seq(UINT_RANGE - 2, k => k), 2_000_000_000.0;
      && Increasing(times)
      && SomeSlow(AllGaps(times), f) && Below(Run(times, f).worse, Hz(f))
      && !RealtimeLost(Run(times, f))
  {
    AllTooSlow(seq(UINT_RANGE - 2, k => k), 2_000_000_000.0);
  }

  lemma {:induction false} AllTooSlow(times: seq<int>, f: real)
    requires Increasing(times) && |times| == UINT_RANGE - 2 && f == 2_000_000_000.0
    ensures SomeSlow(AllGaps(times), f) && Below(Run(times, f).worse, Hz(f))
    ensures !RealtimeLost(Run(times, f))
  {
    MeasuredGapsCount(times);
    GapsArePositive(times);
    AllSlowAtTwoGigahertz(Gaps(times));
    SlowMeansSomeSlow(times, f);
    SlowGapsShowInWorst(times, f);
    WithheldAtTheEnd(times, f);
  }

  /** A loss is forgotten when the count of switches wraps: 2^32 + 4 ticks a nanosecond apart
      have 2^32 measured gaps, all too slow for 2 GHz. */
  lemma LossCountWraps()
    ensures var times, f := seq(UINT_RANGE + 4, k => k), 2_000_000_000.0;
      && Increasing(times) && Available(times)
      && SlowGaps(Gaps(times), f) == UINT_RANGE
      && !RealtimeLost(Run(times, f))
  {
    AllSlowForARound(seq(UINT_RANGE + 4, k => k), 2_000_000_000.0);
  }

  lemma {:induction false} AllSlowForARound(times: seq<int>, f: real)
    requires Increasing(times) && |times| == UINT_RANGE + 4 && f == 2_000_000_000.0
    ensures SlowGaps(Gaps(times), f) == UINT_RANGE && !RealtimeLost(Run(times, f))
  {
    MeasuredGapsCount(times);
    GapsArePositive(times);
    AllSlowAtTwoGigahertz(Gaps(times));
    RealtimeLostExactly(times, f);
  }

  lemma {:induction false} AllSlowAtTwoGigahertz(gaps: seq<int>)
    requires Positive(gaps)
    ensures SlowGaps(gaps, 2_000_000_000.0) == |gaps|
    decreases |gaps|
  {
    if gaps == [] {
    } else {
      AllSlowAtTwoGigahertz(gaps[..|gaps| - 1]);
      SlowAtTwoGigahertz(gaps[|gaps| - 1]);
    }
  }

  /** A loss is missed at an unmeasured tick: 2^32 + 1 ticks a nanosecond apart, except that tick
      number 2^32 - 2 comes 11 ns after the one before, too slow for 500 MHz.  Statistics are
      available, and neither was_realtime_lost nor the worst frequency tells. */
  lemma LossIsMissed()
    ensures var times, f := seq(UINT_RANGE + 1, k => if k < UINT_RANGE - 3 then k else k + 10), 500_000_000.0;
      && Increasing(times) && Available(times)
      && SomeSlow(AllGaps(times), f)
      && !RealtimeLost(Run(times, f)) && !Below(Run(times, f).worse, Hz(f))
  {
    var times := seq(UINT_RANGE + 1, k => if k < UINT_RANGE - 3 then k else k + 10);
    assert GapAt(times, UINT_RANGE - 3, 11);
    forall k, gap | GapAt(times, k, gap) && Measured(k + 1) ensures gap == 1 {
      assert k != UINT_RANGE - 3;
    }
    SlowAtOneTick(times, 500_000_000.0, UINT_RANGE - 3);
  }

  lemma {:induction false} SlowAtOneTick(times: seq<int>, f: real, at: int)
    requires f == 500_000_000.0 && GapAt(times, at, 11)
    requires forall k, gap :: GapAt(times, k, gap) && Measured(k + 1) ==> gap == 1
    ensures SomeSlow(AllGaps(times), f)
    ensures !RealtimeLost(Run(times, f)) && !Below(Run(times, f).worse, Hz(f))
  {
    AtHalfAGigahertz();
    AllGapsAreGaps(times, 11);
    NoSlowGapCounts(times, f);
    RealtimeLostExactly(times, f);
    SlowGapsShowInWorst(times, f);
  }

  lemma AtHalfAGigahertz()
    ensures Below(Rate(1, 11), Hz(500_000_000.0)) && !Below(Rate(1, 1), Hz(500_000_000.0))
  {
  }

  lemma {:induction false} WithheldAtTheEnd(times: seq<int>, f: real)
    requires |times| == UINT_RANGE - 2
    ensures !RealtimeLost(Run(times, f))
  {
    WrappingTicks(times, f);
  }

  lemma SlowAtTwoGigahertz(gap: int)
    requires gap > 0
    ensures Below(Rate(1, gap), Hz(2_000_000_000.0))
  {
    var d := 0.000_000_001 * gap as real;
    PositiveFactor(2_000_000_000.0 - 1.0 / d, d);
  }

  lemma PositiveFactor(x: real, d: real)
    requires d > 0.0 && x * d > 0.0
    ensures x > 0.0
  {
  }

  /** In the first epoch: exactly when it is started and the worst frequency is below the
      switch frequency; and the count of switches is the count of slow gaps. */
  lemma {:induction false} FirstEpochRealtimeLost(times: seq<int>, f: real)
    requires |times| < UINT_RANGE - 2
    ensures Run(times, f).switchs == SlowGaps(Gaps(times), f)
    ensures RealtimeLost(Run(times, f)) <==> times != [] && Below(Run(times, f).worse, Hz(f))
  {
    FirstEpochSwitchs(times, f);
    SlowGapsShowInWorst(times, f);
    WrappingTicks(times, f);
  }

  lemma {:induction false} FirstEpochLoss(times: seq<int>, f: real)
    requires |times| < UINT_RANGE - 2
    ensures RealtimeLost(Run(times, f)) <==> SomeSlow(AllGaps(times), f)
  {
    FirstEpochRealtimeLost(times, f);
    FirstEpochMeasuresAll(times);
    SlowGapsShowInWorst(times, f);
    SlowGapsExist(Gaps(times), f);
  }

  lemma {:induction false} FirstEpochSwitchs(times: seq<int>, f: real)
    requires |times| < UINT_RANGE - 2
    ensures Run(times, f).switchs == SlowGaps(Gaps(times), f)
  {
    FirstEpochMeasuresAll(times);
    SwitchsCountSlowGaps(times, f);
    SlowGapsBounded(Gaps(times), f);
    SmallModulo(SlowGaps(Gaps(times), f));
  }

  lemma {:induction false} SlowGapsBounded(gaps: seq<int>, f: real)
    ensures SlowGaps(gaps, f) <= |gaps|
    decreases |gaps|
  {
    if gaps == [] {
    } else {
      SlowGapsBounded(gaps[..|gaps| - 1], f);
    }
  }

  lemma SmallModulo(n: nat)
    requires n < UINT_RANGE
    ensures n % UINT_RANGE == n
  {
  }

  // -------------------------------------------------------------------------- the class

  class RealTimeCheck {
    const targetFrequency: real
    const switchFrequency: real
    var started: bool
    var startTime: int
    var lastTick: int
    var ticks: nat
    var switchs: nat
    var averageFrequency: Frequency
    var worseFrequency: Frequency
    var currentFrequency: Frequency
    ghost var times: seq<int>

    ghost predicate Valid()
      reads this
    {
      CheckState(started, startTime, lastTick, ticks, switchs, averageFrequency, worseFrequency,
                 currentFrequency, switchFrequency) == Run(times, switchFrequency)
    }

    constructor (targetFrequency: real, switchFrequency: real)
      ensures Valid() && times == []
      ensures this.targetFrequency == targetFrequency && this.switchFrequency == switchFrequency
    {
      this.targetFrequency := targetFrequency;
      this.switchFrequency := switchFrequency;
      started := false;
      ticks, switchs := 0, 0;
      worseFrequency, currentFrequency := Unbounded, Unbounded;
      averageFrequency := Hz(-1.0);
      startTime, lastTick := 0, 0;
      times := [];
    }

    /** `t` is what the steady clock reads, in nanoseconds. */
    method Tick(t: int)
      requires Valid()
      modifies this
      ensures Valid() && times == old(times) + [t]
    {
      times := times + [t];
      assert times[..|times| - 1] == old(times);
      ticks := Increment(ticks);
      if ticks >= UINT_RANGE - 2 {
        started := false;
        return;
      }
      if !started {
        startTime, lastTick := t, t;
        started := true;
        return;
      }
      currentFrequency := Rate(1, t - lastTick);
      if Below(currentFrequency, Hz(switchFrequency)) {
        switchs := Increment(switchs);
      }
      if Below(currentFrequency, worseFrequency) {
        worseFrequency := currentFrequency;
      }
      averageFrequency := Rate(ticks, t - startTime);
      lastTick := t;
    }

    method WasRealtimeLost() returns (lost: bool)
      requires Valid()
      ensures lost <==>
        Available(times) && SlowGaps(Gaps(times), switchFrequency) % UINT_RANGE != 0
      ensures |times| == 0 || |times| == 4_294_967_294 || |times| == 4_294_967_295 ==> !lost
      ensures 1 <= |times| < 4_294_967_294 ==> (lost <==> SomeSlow(AllGaps(times), switchFrequency))
    {
      RealtimeLostExactly(times, switchFrequency);
      CounterInNumbers(times, switchFrequency);
      if |times| < 4_294_967_294 { FirstEpochLoss(times, switchFrequency); }
      if !started {
        return false;
      }
      if switchs > 0 {
        return true;
      }
      return false;
    }

    /** -1 while statistics are withheld. */
    method GetAverageFrequency() returns (average: Frequency)
      requires Valid()
      ensures |times| == 0 || |times| % UINT_RANGE >= UINT_RANGE - 2 ==> average == Hz(-1.0)
      ensures |times| > 0 && |times| % UINT_RANGE < UINT_RANGE - 2 ==> average == Run(times, switchFrequency).average
      ensures Gaps(times) == [] ==> average == Hz(-1.0)
    {
      WrappingTicks(times, switchFrequency);
      if Gaps(times) == [] { NothingMeasuredYet(times, switchFrequency); }
      if !started {
        return Hz(-1.0);
      }
      return averageFrequency;
    }

    method GetStatistics()
      returns (available: bool, tickCount: nat, switchCount: nat, target: real, switch: real,
               average: Frequency, current: Frequency, worse: Frequency)
      requires Valid()
      ensures available <==> Available(times)
      ensures 1 <= |times| < 4_294_967_294 ==> available && tickCount == |times|
      ensures |times| == 0 || |times| == 4_294_967_294 || |times| == 4_294_967_295 ==> !available
      ensures available ==>
        && tickCount == |times| % UINT_RANGE
        && switchCount == SlowGaps(Gaps(times), switchFrequency) % UINT_RANGE
        && target == targetFrequency && switch == switchFrequency
        && average == Run(times, switchFrequency).average
        && current == CurrentOf(Gaps(times))
        && IsWorst(worse, Gaps(times))
    {
      WrappingTicks(times, switchFrequency);
      SwitchsCountSlowGaps(times, switchFrequency);
      WorseIsTheWorst(times, switchFrequency);
      CurrentIsTheLatest(times, switchFrequency);
      CounterInNumbers(times, switchFrequency);
      available, tickCount, switchCount := started, 0, 0;
      target, switch := 0.0, 0.0;
      average, current, worse := Unbounded, Unbounded, Unbounded;
      if started {
        tickCount, switchCount := ticks, switchs;
        average, worse, current := averageFrequency, worseFrequency, currentFrequency;
        target, switch := targetFrequency, switchFrequency;
      }
    }
  }
}
