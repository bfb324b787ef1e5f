/** Timer: streaming statistics and a sliding window of the measured intervals.  Doubles are
    modelled as exact reals, NaN as None, and the infinite initial minimum and maximum as
    None. */
module TimerStatistics {
  import opened Moments
  import opened Wrappers

  // -------------------------------------------------------------- what the code does

  /** The fields of a Timer.  `window` is the deque of measurements. */
  datatype TimerState = TimerState(
    ticTime: Option<real>,
    window: seq<real>,
    count: nat,
    capacity: nat,
    min: Option<real>,
    max: Option<real>,
    avg: real,
    second: real)

  const DEFAULT_CAPACITY: nat := 60_000

  function Zeros(n: nat): seq<real> { seq(n, _ => 0.0) }

  function Fresh(): TimerState {
    TimerState(None, Zeros(DEFAULT_CAPACITY), 0, DEFAULT_CAPACITY, None, None, 0.0, 0.0)
  }

  /** std::deque::resize: cuts at the back, or pads with zeros. */
  function Resize(window: seq<real>, n: nat): seq<real> {
    if n <= |window| then window[..n] else window + Zeros(n - |window|)
  }

  function SetMemorySize(s: TimerState, n: nat): TimerState {
    s.(count := 0, capacity := n, window := Resize(s.window, n))
  }

  function Stored(s: TimerState, x: real): seq<real>
    requires |s.window| == s.capacity
  {
    if s.capacity == 0 then s.window
    else if s.count >= |s.window| then s.window[1..] + [x]
    else s.window[s.count := x]
  }

  function LogInterval(s: TimerState, interval: Option<real>): TimerState
    requires |s.window| == s.capacity
  {
    match interval
    case None => s
    case Some(x) =>
      s.(window := Stored(s, x),
         count := s.count + 1,
         min := if s.min.None? || x < s.min.value then Some(x) else s.min,
         max := if s.max.None? || x > s.max.value then Some(x) else s.max,
         avg := NextMean(s.count, s.avg, x),
         second := NextMean(s.count, s.second, Square(x)))
  }

  function Since(tic: Option<real>, now: real): Option<real> {
    match tic
    case None => None
    case Some(t) => Some(now - t)
  }

  function Tic(s: TimerState, now: real): TimerState { s.(ticTime := Some(now)) }

  function Tac(s: TimerState, now: real): TimerState
    requires |s.window| == s.capacity
  {
    LogInterval(s, Since(s.ticTime, now))
  }

  function TacTic(s: TimerState, now: real): TimerState
    requires |s.window| == s.capacity
  {
    Tac(s, now).(ticTime := Some(now))
  }

  /** Only tic and tac_tic set the tic, to the time they read; NaN is not logged. */
  lemma TicFrame(s: TimerState, interval: Option<real>, now: real)
    requires |s.window| == s.capacity
    ensures Tic(s, now).ticTime == Some(now) && Tic(s, now).(ticTime := s.ticTime) == s
    ensures LogInterval(s, interval).ticTime == s.ticTime && LogInterval(s, interval).capacity == s.capacity
    ensures LogInterval(s, None) == s && (interval.Some? ==> LogInterval(s, interval).count == s.count + 1)
    ensures Tac(s, now).ticTime == s.ticTime && TacTic(s, now).ticTime == Some(now)
    ensures s.ticTime == None ==> Tac(s, now) == s
    ensures s.ticTime.Some? ==> Tac(s, now) == LogInterval(s, Some(now - s.ticTime.value))
  {
  }

  // ---------------------------------------------------------- what it should amount to

  /** The calls that change the statistics. */
  datatype Event = Logged(interval: real) | Resized(capacity: nat)

  /** Everything ever logged. */
  function AllIntervals(h: seq<Event>): seq<real> {
    if h == [] then []
    else
      var rest := AllIntervals(h[..|h| - 1]);
      match h[|h| - 1]
      case Logged(x) => rest + [x]
      case Resized(_) => rest
  }

  /** What was logged since the last resize. */
  function Epoch(h: seq<Event>): seq<real> {
    if h == [] then []
    else match h[|h| - 1]
      case Logged(x) => Epoch(h[..|h| - 1]) + [x]
      case Resized(_) => []
  }

  /** The last epoch in which anything was logged: a resize leaves average and second moment
      alone until the next interval. */
  function StatisticsEpoch(h: seq<Event>): seq<real> {
    if h == [] then []
    else match h[|h| - 1]
      case Logged(_) => Epoch(h)
      case Resized(_) => StatisticsEpoch(h[..|h| - 1])
  }

  function Capacity(h: seq<Event>): nat {
    if h == [] then DEFAULT_CAPACITY
    else match h[|h| - 1]
      case Logged(_) => Capacity(h[..|h| - 1])
      case Resized(n) => n
  }

  function Smaller(a: nat, b: nat): nat { if a <= b then a else b }

  function LastOf(xs: seq<real>, n: nat): seq<real>
    requires n <= |xs|
  {
    xs[|xs| - n..]
  }

  predicate IsMin(m: Option<real>, xs: seq<real>) {
    match m
    case None => xs == []
    case Some(x) => x in xs && forall y :: y in xs ==> x <= y
  }

  predicate IsMax(m: Option<real>, xs: seq<real>) {
    match m
    case None => xs == []
    case Some(x) => x in xs && forall y :: y in xs ==> y <= x
  }

  /** The fields agree with the history: the visible part of the window is the end of the
      epoch, average and second moment are those of the statistics epoch, minimum and maximum
      are over everything ever logged. */
  ghost predicate Agrees(s: TimerState, h: seq<Event>) {
    && s.capacity == |s.window| == Capacity(h)
    && s.count == |Epoch(h)|
    && s.window[..Smaller(s.count, s.capacity)] == LastOf(Epoch(h), Smaller(s.count, s.capacity))
    && MomentsOf(s.avg, s.second, StatisticsEpoch(h))
    && IsMin(s.min, AllIntervals(h))
    && IsMax(s.max, AllIntervals(h))
  }

  // ------------------------------------------------------------------- the connection

  lemma FreshAgrees()
    ensures Agrees(Fresh(), [])
  {
  }

  lemma TicKeepsAgreement(s: TimerState, h: seq<Event>, now: real)
    requires Agrees(s, h)
    ensures Agrees(Tic(s, now), h)
  {
  }

  lemma StatisticsIgnoreTheWindow(s: TimerState, x: real)
    requires |s.window| == s.capacity
    ensures LogInterval(s.(window := Stored(s, x)), Some(x)).(window := Stored(s, x)) == LogInterval(s, Some(x))
  {
  }

  lemma {:induction false} ResizedHistory(h: seq<Event>, n: nat)
    ensures var h' := h + [Resized(n)];
      && Epoch(h') == [] && Capacity(h') == n
      && AllIntervals(h') == AllIntervals(h) && StatisticsEpoch(h') == StatisticsEpoch(h)
  {
    assert (h + [Resized(n)])[..|h|] == h;
  }

  lemma {:induction false} LoggedHistory(h: seq<Event>, x: real)
    ensures var h' := h + [Logged(x)];
      && Epoch(h') == StatisticsEpoch(h') == Epoch(h) + [x] && Capacity(h') == Capacity(h)
      && AllIntervals(h') == AllIntervals(h) + [x]
  {
    assert (h + [Logged(x)])[..|h|] == h;
  }

  lemma ResizeAgrees(s: TimerState, h: seq<Event>, n: nat)
    requires Agrees(s, h)
    ensures Agrees(SetMemorySize(s, n), h + [Resized(n)])
  {
    ResizedHistory(h, n);
  }

  /** The deque itself is not cleared: what is kept of it keeps its values, so it is all zeros
      after a resize exactly when those values were zero before. */
  lemma ResizeKeepsContents(s: TimerState, n: nat)
    ensures var s' := SetMemorySize(s, n);
      && |s'.window| == n
      && (forall k :: 0 <= k < Smaller(n, |s.window|) ==> s'.window[k] == s.window[k])
      && (s'.window == Zeros(n) <==> forall k :: 0 <= k < Smaller(n, |s.window|) ==> s.window[k] == 0.0)
  {
    var w := SetMemorySize(s, n).window;
    forall k | 0 <= k < Smaller(n, |s.window|) ensures w[k] == s.window[k] {
    }
    if w == Zeros(n) {
      forall k | 0 <= k < Smaller(n, |s.window|) ensures s.window[k] == 0.0 {
        assert w[k] == 0.0;
      }
    }
  }

  /** A resize leaves everything but the count, the capacity and the deque alone. */
  lemma ResizeFrame(s: TimerState, n: nat)
    ensures var s' := SetMemorySize(s, n);
      && s'.ticTime == s.ticTime && s'.min == s.min && s'.max == s.max && s'.avg == s.avg && s'.second == s.second
      && s'.count == 0 && s'.capacity == n
  {
  }

  /** So a resize does not clear the deque: one logged second is still in it afterwards. */
  lemma ResizeLeavesOldContents(n: nat)
    requires n > 0
    ensures var s := SetMemorySize(LogInterval(Fresh(), Some(1.0)), n);
      |s.window| == n && s.window[0] == 1.0 && s.window != Zeros(n)
  {
    ResizeKeepsContents(LogInterval(Fresh(), Some(1.0)), n);
    assert Zeros(n)[0] == 0.0;
  }

  /** The statistics epoch is the current epoch, if that is not empty. */
  lemma {:induction false} CurrentEpochCounts(h: seq<Event>)
    ensures Epoch(h) != [] ==> StatisticsEpoch(h) == Epoch(h)
  {
  }

  /** Storing by index until the window is full, then sliding: either way the visible part of
      the window is the end of the epoch. */
  lemma WindowAgrees(s: TimerState, epoch: seq<real>, x: real)
    requires |s.window| == s.capacity && s.count == |epoch|
    requires s.window[..Smaller(s.count, s.capacity)] == LastOf(epoch, Smaller(s.count, s.capacity))
    ensures var n := Smaller(s.count + 1, s.capacity);
      |Stored(s, x)| == s.capacity && Stored(s, x)[..n] == LastOf(epoch + [x], n)
  {
    if 0 < s.capacity && s.count < s.capacity {
      StoredByIndex(s.window, epoch, x);
    } else if 0 < s.capacity {
      assert s.window[..s.capacity] == s.window;
      StoredBySliding(s.window, epoch, x);
    }
  }

  lemma StoredByIndex(window: seq<real>, epoch: seq<real>, x: real)
    requires |epoch| < |window| && window[..|epoch|] == epoch
    ensures window[|epoch| := x][..|epoch| + 1] == epoch + [x]
    ensures LastOf(epoch + [x], |epoch| + 1) == epoch + [x]
  {
  }

  lemma StoredBySliding(window: seq<real>, epoch: seq<real>, x: real)
    requires 0 < |window| <= |epoch| && window == LastOf(epoch, |window|)
    ensures window[1..] + [x] == LastOf(epoch + [x], |window|)
    ensures (window[1..] + [x])[..|window|] == window[1..] + [x]
  {
  }

  lemma ExtremesAgree(s: TimerState, all: seq<real>, x: real)
    requires |s.window| == s.capacity && IsMin(s.min, all) && IsMax(s.max, all)
    ensures IsMin(LogInterval(s, Some(x)).min, all + [x])
    ensures IsMax(LogInterval(s, Some(x)).max, all + [x])
  {
    assert x in all + [x];
    assert forall y :: y in all + [x] <==> y in all || y == x;
  }

  lemma {:induction false} AgreesAfterLog(s: TimerState, s': TimerState, h: seq<Event>, x: real)
    requires Agrees(s, h)
    requires s'.capacity == s.capacity && s'.count == s.count + 1 && s'.window == Stored(s, x)
    requires MomentsOf(s'.avg, s'.second, Epoch(h) + [x])
    requires IsMin(s'.min, AllIntervals(h) + [x]) && IsMax(s'.max, AllIntervals(h) + [x])
    ensures Agrees(s', h + [Logged(x)])
  {
    LoggedHistory(h, x);
    WindowAgrees(s, Epoch(h), x);
  }

  lemma {:induction false} LoggedMoments(s: TimerState, epoch: seq<real>, x: real)
    requires |s.window| == s.capacity && s.count == |epoch|
    requires epoch != [] ==> MomentsOf(s.avg, s.second, epoch)
    ensures MomentsOf(LogInterval(s, Some(x)).avg, LogInterval(s, Some(x)).second, epoch + [x])
  {
    MomentsAgree(s.count, s.avg, s.second, epoch, x);
  }

  lemma LogAgrees(s: TimerState, h: seq<Event>, x: real)
    requires Agrees(s, h)
    ensures Agrees(LogInterval(s, Some(x)), h + [Logged(x)])
  {
    CurrentEpochCounts(h);
    LoggedMoments(s, Epoch(h), x);
    ExtremesAgree(s, AllIntervals(h), x);
    AgreesAfterLog(s, LogInterval(s, Some(x)), h, x);
  }

  function Replay(h: seq<Event>): (s: TimerState)
    ensures |s.window| == s.capacity
  {
    if h == [] then Fresh()
    else match h[|h| - 1]
      case Logged(x) => LogInterval(Replay(h[..|h| - 1]), Some(x))
      case Resized(n) => SetMemorySize(Replay(h[..|h| - 1]), n)
  }

  /** After any sequence of logs and resizes the fields agree with the history. */
  lemma {:induction false} EveryRunAgrees(h: seq<Event>)
    ensures Agrees(Replay(h), h)
  {
    if h == [] {
    } else {
      var rest := h[..|h| - 1];
      EveryRunAgrees(rest);
      assert h == rest + [h[|h| - 1]];
      match h[|h| - 1]
      case Logged(x) => LogAgrees(Replay(rest), rest, x);
      case Resized(n) => ResizeAgrees(Replay(rest), rest, n);
    }
  }

  // ------------------------------------------------------------ what the getters mean

  lemma {:induction false} EpochsAreLogged(h: seq<Event>)
    ensures forall x :: x in Epoch(h) ==> x in AllIntervals(h)
    ensures forall x :: x in StatisticsEpoch(h) ==> x in AllIntervals(h)
    ensures StatisticsEpoch(h) == [] <==> AllIntervals(h) == []
  {
    if h == [] {
    } else {
      EpochsAreLogged(h[..|h| - 1]);
    }
  }

  /** Once anything was logged: the average lies between minimum and maximum, although a resize
      restarts the average and not the extremes; the radicand of the standard deviation is the
      mean squared deviation, never negative, and bounded by the extremes. */
  lemma {:induction false} StatisticsAreConsistent(s: TimerState, h: seq<Event>)
    requires Agrees(s, h) && AllIntervals(h) != []
    ensures s.min.Some? && s.max.Some? && s.min.value <= s.avg <= s.max.value
    ensures StatisticsEpoch(h) != []
    ensures var e, radicand := StatisticsEpoch(h), Radicand(s.avg, s.second);
      && IsMean(radicand, |e|, SumOfDeviations(e, s.avg))
      && 0.0 <= radicand <= (s.max.value - s.avg) * (s.avg - s.min.value)
  {
    EpochsAreLogged(h);
    ExtremesBound(s.min, s.max, StatisticsEpoch(h), AllIntervals(h));
    VarianceBounds(s.avg, s.second, StatisticsEpoch(h), s.min.value, s.max.value);
  }

  lemma ExtremesBound(min: Option<real>, max: Option<real>, epoch: seq<real>, all: seq<real>)
    requires IsMin(min, all) && IsMax(max, all) && all != []
    requires forall x :: x in epoch ==> x in all
    ensures min.Some? && max.Some? && Within(epoch, min.value, max.value)
  {
  }

  lemma {:induction false} VarianceOfHistory(s: TimerState, h: seq<Event>)
    requires Agrees(s, h)
    ensures Radicand(s.avg, s.second) >= 0.0
    ensures StatisticsEpoch(h) == [] ==> Radicand(s.avg, s.second) == 0.0
    ensures StatisticsEpoch(h) != [] ==>
      IsMean(Radicand(s.avg, s.second), |StatisticsEpoch(h)|, SumOfDeviations(StatisticsEpoch(h), s.avg))
  {
    EpochsAreLogged(h);
    if AllIntervals(h) == [] {
      assert Radicand(0.0, 0.0) == 0.0;
    } else {
      StatisticsAreConsistent(s, h);
    }
  }
}
