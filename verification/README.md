# A verified model of real_time_tools

This project models the parts of real_time_tools that other code relies on for its timing and
its data exchange, and proves what they guarantee. `dafny verify dfyconfig.toml` checks it.

- `PublishWait.dfy` is the protocol of `ThreadsafeObject` and `SingletypeThreadsafeObject` as a
  labelled transition system: one program counter per thread, one step per mutex operation,
  assignment, loop test or scan round, for any number of threads and slots. Threads blocked in
  `condition_variable::wait` are those at `WaitParked`; a notification or a spurious wakeup
  moves them to `WaitRelock` (ISO/IEC 14882:2017, section 33.5).
  `PublishWaitInvariant.dfy` holds the inductive invariant, `PublishWaitProperties.dfy` the
  safety guarantees, `PublishWaitProgress.dfy` progress of runs that settle,
  `PublishWaitBounded.dfy` bounded waiting among running threads, and `PublishWaitCalls.dfy` what
  each whole call does, stated on the operation it was begun with. The log of published slots, the list of
  writes per slot and what each thread has been told are history variables that no step tests.
- `ThreadsafeObject.dfy` is the code inside the critical sections, over the arrays it updates in
  place; each section is proved to take exactly the protocol steps of its thread.
- `TimespecConversion.dfy`, `RealtimeClock.dfy` and `Pacing.dfy` are the date conversions, the clock and
  sleep helpers, and the two loop pacers. The clock is a nondeterministic class: it never goes
  back, and a sleep never ends before its target. Each pacer records a trace of arrivals, gaps
  and releases, and the whole-run theorems are about such traces.
- `Moments.dfy`, `TimerStatistics.dfy` and `Timers.dfy` are `Timer`: incremental moments, extremes
  and the sliding window against the history of its calls.
- `CheckpointTiming.dfy` is `CheckpointTimer` over an array of timers held by value.
- `RealtimeChecking.dfy` is `RealTimeCheck`, with its 32-bit counters.
- `UsbStreaming.dfy` is the buffer handling of `UsbStream` in stream mode and its printer.

Doubles are exact reals. NaN and the infinite initial extremes are `None`; a frequency over a
zero gap, and the largest double that stands for "nothing measured", are both `Unbounded`. Clock
readings, what a device returns and the steps of other threads are left to nondeterminism; the
time of a tick and the name of a checkpoint are parameters.

Where code and comments disagree, the model follows the code.

- The comment on `set_memory_size` says that it sets all values of the buffer to zero, but the
  code only resizes the deque, so old values stay in it (`ResizeKeepsContents`,
  `ResizeLeavesOldContents`); they are proved never to be visible.
- The comment on `was_realtime_lost` says that it is true if the frequency between two ticks was
  ever too low.  The code never measures a gap that ends at a tick whose number is 2^32 - 2,
  2^32 - 1 or 0 modulo 2^32, it answers false while statistics are withheld, and its count of
  slow gaps wraps.  `RealtimeLostIsTrue` is the exact condition; `LossIsMissed`,
  `LossIsForgotten` and `LossCountWraps` are one run for each of the three causes.
- The comment on `worse_frequency` says that it is the worst ever experienced; the same gaps are
  left out of it, and `WorstEverExperienced` says when that matters.  The comment on
  `get_current_frequency` speaks of the last call to `tick`; the code returns the latest measured
  frequency (`CurrentIsTheLatest`).

## Model

| member | source | states |
|---|---|---|
| `PublishWaitCalls.SetStoresItsArgument` | include/real_time_tools/threadsafe/threadsafe_object.hxx:61-81 | A call begun as set(i, d), once over, has stored exactly d, once, in slot i and nothing elsewhere, the slot showed d when it did, and it has published exactly one entry, i; whatever the other threads do meanwhile |
| `PublishWaitCalls.WaitWatchesItsArgument` | include/real_time_tools/threadsafe/threadsafe_object.hxx:84-117 | At every point of a call begun as wait_for_update(w) it watches w, and its snapshot is of the moment when it first owned the condition mutex, after it was begun |
| `PublishWaitCalls.WaitReturnsForItsArgument` | include/real_time_tools/threadsafe/threadsafe_object.hxx:84-154 | A call begun as wait_for_update(w) returns only when exactly one update of w was published since that moment; without an index it reports that update's slot; it changes nothing in the shared memory |
| `PublishWaitCalls.WaitExitsForItsArgument` | include/real_time_tools/threadsafe/threadsafe_object.hxx:98-103 | It ends the process only when two or more updates of w were published since that moment |
| `PublishWaitCalls.GetReturnsItsSlot` | include/real_time_tools/threadsafe/threadsafe_object.hxx:177-183 | A call begun as get(i), once over, has returned a datum that was stored in slot i, no older than the latest when the call began, and so no older than any count of the slot by then; it changes nothing in the shared memory |
| `PublishWaitCalls.ConstructedIsInitial` | include/real_time_tools/threadsafe/threadsafe_object.hxx:19-36 | The state after the default constructor is an initial state, for any number of slots and threads and any data |
| `PublishWaitCalls.AnyCallCanBegin` | include/real_time_tools/threadsafe/threadsafe_object.hxx:61-154 | In every reachable state of a running process a thread outside all calls may begin any operation on any slot, and a parked thread may wake up spuriously |
| `PublishWaitProperties.NobodySleepsThroughAnUpdate` | include/real_time_tools/threadsafe/threadsafe_object.hxx:190-245 | No lost wakeup: in every reachable state in which the condition mutex is free, a parked thread's remembered count equals the counter it watches; any number of threads and slots, any interleaving, spurious wakeups |
| `PublishWaitProperties.CountersRefineTheLog` | include/real_time_tools/threadsafe/threadsafe_object.hxx:202-208 | Outside the two increments of a setter, each count is the number of that slot's entries in the log of published slots, and the total is the length of the log and the sum of the counts |
| `PublishWaitProperties.SlotCountsAddUp` | include/real_time_tools/threadsafe/threadsafe_object.hxx:205-206 | For any log, the per-slot numbers of entries add up to its length |
| `PublishWaitProperties.HorriblyWrongIsUnreachable` | include/real_time_tools/threadsafe/threadsafe_object.hxx:256-279 | No run reaches either of the two "horribly wrong" exits |
| `PublishWaitProperties.WaitReturnsTheNextEntry` | include/real_time_tools/threadsafe/threadsafe_object.hxx:233-281 | A normal return of wait_for_update() is the log entry at the position of the initial total, a slot index and never -1, and it is the only entry since |
| `PublishWaitProperties.ExactMissDetection` | include/real_time_tools/threadsafe/threadsafe_object.hxx:223-230 | Both forms of wait_for_update: at the check after the loop at least one watched update was published since the snapshot; the process exits if and only if two or more were, and goes on if and only if exactly one was |
| `PublishWaitProperties.SingleUpdateIsReturned` | include/real_time_tools/threadsafe/threadsafe_object.hxx:247-281 | If exactly one update was published, the thread alone reaches the return of that update's slot in one step per slot plus two |
| `PublishWaitProperties.DeliveryInOrderAtMostOnce` | include/real_time_tools/threadsafe/threadsafe_object.hxx:106-154 | One consumer's successive returns stand for strictly increasing log positions, so the indices it got are a subsequence of the log |
| `PublishWaitProperties.WritesAreCountedOrPending` | include/real_time_tools/threadsafe/threadsafe_object.hxx:195-208 | Per slot, writes done are its count plus the setters between their write and their count, and the slot shows the latest write |
| `PublishWaitProperties.GetIsFresh` | include/real_time_tools/threadsafe/threadsafe_object.hxx:179-183 | get(i) after a wait that reported slot i at count c returns the datum of the c-th or a later write to slot i |
| `PublishWaitProperties.MutexesAreNeverNested` | include/real_time_tools/threadsafe/threadsafe_object.hxx:61-81 | No thread owns the condition mutex and a slot's mutex at once |
| `PublishWaitProperties.OnlyQuietWaitersAreStuck` | include/real_time_tools/threadsafe/threadsafe_object.hxx:62-154 | Deadlock freedom: no thread can step if and only if every thread is done or parked with its watched counter unchanged; then all mutexes are free |
| `PublishWaitProgress.EveryStepMakesProgress` | include/real_time_tools/threadsafe/threadsafe_object.hxx:62-154 | Every step other than a new call or a spurious wakeup strictly lowers a measure of the work left, notifications and the wakeups they cause included |
| `PublishWaitProgress.RunsSettle` | include/real_time_tools/threadsafe/threadsafe_object.hxx:62-154 | A run without new calls and spurious wakeups is no longer than the work left in its first state |
| `PublishWaitProgress.EverythingComesToRest` | include/real_time_tools/threadsafe/threadsafe_object.hxx:62-154 | From every reachable state there is such a run, beginning in that state, whose last state has exited or has every thread done or parked with nothing published for it |
| `PublishWaitProgress.UncutRunsComeToRest` | include/real_time_tools/threadsafe/threadsafe_object.hxx:62-154 | Such a run from a reachable state cannot be continued if and only if it has come to rest in that sense, so every one that is not cut short ends there |
| `PublishWaitProgress.WaitsReturnIfPublished` | include/real_time_tools/threadsafe/threadsafe_object.hxx:84-154 | At the end of such a run, unless the process exited: a call that was waiting at its start has returned if and only if something it watches was published since its snapshot, a call that watches every slot having reported the first entry since; otherwise it is parked |
| `PublishWaitProgress.PublishedWaitsReturn` | include/real_time_tools/threadsafe/threadsafe_object.hxx:84-154 | So a call that waits in a state where an update it watches was already published is over at the end of every such run, unless the process exited |
| `PublishWaitBounded.PublishedWaitIsShort` | include/real_time_tools/threadsafe/threadsafe_object.hxx:84-154 | In any run, new calls and spurious wakeups of any threads included: once something a call watches was published and the condition mutex was released, it returns within size + 5 steps of its own, reporting the first entry since if it watches every slot, unless the process exits |
| `PublishWaitInvariant.InvKept` | include/real_time_tools/threadsafe/threadsafe_object.hxx:177-281 | One step of any thread (take or release a mutex, an assignment, a loop test, a scan round, a wakeup) keeps the whole invariant |
| `PublishWaitInvariant.LocksKept` | include/real_time_tools/threadsafe/threadsafe_object.hxx:181-214 | Mutual exclusion: a mutex is owned by exactly the thread whose program counter is inside it |
| `PublishWaitInvariant.CountersKept` | include/real_time_tools/threadsafe/threadsafe_object.hxx:202-208 | The two increments keep the counters equal to the log, the total lagging by one between them |
| `PublishWaitInvariant.WaitsKept` | include/real_time_tools/threadsafe/threadsafe_object.hxx:214-281 | What a waiting thread remembers stays true of the log while other threads publish |
| `PublishWaitInvariant.NoLostWakeupKept` | include/real_time_tools/threadsafe/threadsafe_object.hxx:204-221 | Every step keeps: no parked thread has missed an update unless its setter is about to notify |
| `PublishWaitInvariant.SlotsKept` | include/real_time_tools/threadsafe/threadsafe_object.hxx:195-208 | Every step keeps the balance of writes, counts and pending setters |
| `PublishWaitInvariant.HistoriesKept` | include/real_time_tools/threadsafe/threadsafe_object.hxx:233-281 | Every step keeps the recorded returns of every thread in order and true to the log |
| `PublishWaitInvariant.ReadsKept` | include/real_time_tools/threadsafe/threadsafe_object.hxx:179-183 | Every step keeps: a value copied by get is a write to that slot no older than what its thread saw published |
| `PublishWaitInvariant.ReachableInv` | include/real_time_tools/threadsafe/threadsafe_object.hxx:158-281 | Every reachable state satisfies the invariant, from the default constructor on |
| `ThreadsafeObject.ScanFindsTheOnlyBump` | include/real_time_tools/threadsafe/threadsafe_object.hxx:129-153 | The scanning loop finds slot i exactly when i went up by one and no other slot changed, -1 exactly when nothing changed, and is "horribly wrong" in every other case |
| `ThreadsafeObject.SingletypeThreadsafeObject.constructor` | include/real_time_tools/threadsafe/threadsafe_object.hxx:19-36 | The default constructor shows an initial protocol state: equal data, zero counts, zero total |
| `ThreadsafeObject.SingletypeThreadsafeObject.Store` | include/real_time_tools/threadsafe/threadsafe_object.hxx:69-72 | Critical section of set under the slot's mutex: exactly the one write step of the protocol |
| `ThreadsafeObject.SingletypeThreadsafeObject.Publish` | include/real_time_tools/threadsafe/threadsafe_object.hxx:75-78 | Critical section of set under the condition mutex: exactly the two increment steps of the protocol |
| `ThreadsafeObject.SingletypeThreadsafeObject.Copy` | include/real_time_tools/threadsafe/threadsafe_object.hpp:151-155 | get under the slot's mutex: returns the slot, exactly the copy step of the protocol |
| `ThreadsafeObject.SingletypeThreadsafeObject.TakeCounts` | include/real_time_tools/threadsafe/threadsafe_object.hxx:111-113 | The snapshot of wait_for_update(): a copy of all counts and the total, exactly the snapshot step of the protocol |
| `ThreadsafeObject.SingletypeThreadsafeObject.FindModified` | include/real_time_tools/threadsafe/threadsafe_object.hxx:129-153 | The scanning loop over the arrays: its outcome is the scan's, and in every outcome it takes exactly the scan steps of the protocol, one per slot it looks at |
| `TimespecConversion.TimespecVariable.ConvertFrom` | src/timer.cpp:176-182 | sec_to_timespec overwrites its out-parameter with the conversion the lemmas below characterise |
| `TimespecConversion.TimespecVariable.Add` | src/timer.cpp:167-174 | timespec_add_sec overwrites its argument with the sum the lemmas below characterise |
| `TimespecConversion.ConvertedNanos` | src/timer.cpp:176-182 | For every date, seconds and nanoseconds together are the date in nanoseconds plus one half, rounded towards zero |
| `TimespecConversion.WithinHalfANanosecond` | src/timer.cpp:176-182 | The error is at most half a nanosecond if and only if the date is not more than half a nanosecond before the epoch, or the error is exactly one half |
| `TimespecConversion.WhenNormalized` | src/timer.cpp:176-182 | The nanoseconds are within 0 and 10^9 if and only if the shifted date is nonnegative or within a nanosecond below a whole second |
| `TimespecConversion.ConversionIsMonotone` | src/timer.cpp:176-182 | Later dates never give lexicographically earlier timespecs, for all dates |
| `TimespecConversion.TimespecRoundTrip` | src/timer.cpp:176-182 | A normalized timespec survives the trip through seconds if and only if it is not before the epoch |
| `TimespecConversion.AddWholeNanos` | src/timer.cpp:167-174 | Adding a whole number of nanoseconds is exact and normalized if the result is not before the epoch, and one nanosecond late if it is |
| `TimespecConversion.AddIsAdditive` | src/timer.cpp:167-174 | Two whole-nanosecond additions can be merged into one if and only if the first does not end before the epoch, or the second ends one nanosecond before it |
| `TimespecConversion.AccumulatedError` | src/timer.cpp:167-174 | k additions of nonnegative durations are off by at most k half nanoseconds |
| `RealtimeClock.Clock.CurrentTimeSec` | src/timer.cpp:186-196 | The reading in seconds is the clock's whole nanoseconds |
| `RealtimeClock.Clock.SleepUntilSec` | src/timer.cpp:222-231 | Under any clock it ends no earlier than half a nanosecond before the date; on an exact clock it ends at the nearest nanosecond of the date, or at once if that is past |
| `RealtimeClock.Clock.SleepSec` | src/timer.cpp:210-220 | Under any clock it lasts at least the duration less half a nanosecond; on an exact clock it lasts the duration rounded to nanoseconds |
| `Pacing.Spinner.Spin` | src/spinner.cpp:30-34 | Each spin extends the recorded trace: released no sooner than the gap promised by the call before, exactly at max(arrival, previous release + gap) on an exact clock, and one period is promised to the next |
| `Pacing.Spinner.constructor` | src/spinner.cpp:19-23 | Construction counts as a release with a gap of zero to the first spin |
| `Pacing.Spinner.Initialize` | src/spinner.cpp:25-28 | Starting over: the next release keeps one period from now |
| `Pacing.FrequencyManager.Wait` | src/frequency_manager.cpp:37-54 | Each wait extends the recorded trace in the same way; it reports false if and only if the caller arrived more than a period after the last recorded time |
| `Pacing.MinimumSpacing` | src/frequency_manager.cpp:37-54 | Under any nondecreasing clock and any mix of on-time and late calls, two releases are apart by all the gaps between them less half a nanosecond each |
| `Pacing.MinimumSpacingOfAPeriod` | src/spinner.cpp:30-34 | With a fixed period, n calls advance the recorded time by at least n * (period - 0.5 ns) |
| `Pacing.SameReleases` | src/spinner.cpp:30-34 | On an exact clock, two traces with equal arrivals and gaps have equal releases, whichever class made them |
| `Pacing.SpinnerMatchesManager` | src/frequency_manager.cpp:37-54 | On an exact clock, a Spinner whose period was set after construction and a FrequencyManager release the same loop at the same times |
| `Pacing.ClosedForm` | src/frequency_manager.cpp:37-54 | On an exact clock with a fixed period, release n is the largest of arrival k plus (n - k) periods over k up to n: an upper bound that is attained |
| `Moments.MomentsAgree` | src/timer.cpp:117-123 | One incremental step turns the mean and second moment of a list into those of the list with one more element |
| `Moments.VarianceBounds` | include/real_time_tools/timer.hpp:141-145 | second - avg^2 is the mean squared deviation, nonnegative, and at most (hi - avg)(avg - lo) for any bounds; and lo <= avg <= hi |
| `TimerStatistics.EveryRunAgrees` | src/timer.cpp:90-124 | After any sequence of logs and resizes, window, count, moments, minimum and maximum agree with the history of calls |
| `TimerStatistics.WindowAgrees` | src/timer.cpp:94-108 | Storing by index until full, then sliding, keeps the visible window equal to the end of the epoch |
| `TimerStatistics.ResizeAgrees` | include/real_time_tools/timer.hpp:90-95 | Growing, shrinking or zeroing the memory at any time keeps the agreement: the epoch is empty, old contents invisible, extremes and moments kept |
| `TimerStatistics.ResizeKeepsContents` | include/real_time_tools/timer.hpp:85-95 | The deque itself keeps its old values, and is all zeros after a resize if and only if those were |
| `TimerStatistics.ResizeLeavesOldContents` | include/real_time_tools/timer.hpp:85-95 | A concrete timer whose deque is not all zeros after a resize to any positive size |
| `TimerStatistics.ResizeFrame` | include/real_time_tools/timer.hpp:90-95 | A resize sets the count to zero and the capacity, and leaves the tic, the extremes and the moments alone |
| `TimerStatistics.TicFrame` | src/timer.cpp:62-93 | tic and tac_tic set the tic to the time they read, tac and logging leave it; tac logs the time since the tic, and nothing without one |
| `TimerStatistics.LogAgrees` | src/timer.cpp:90-124 | Logging one interval keeps the agreement of all fields with the history |
| `TimerStatistics.StatisticsAreConsistent` | include/real_time_tools/timer.hpp:114-145 | Once anything was logged, min <= avg <= max although extremes survive a resize, and the radicand of the standard deviation is the mean squared deviation, between 0 and (max - avg)(avg - min) |
| `Timers.Timer.LogTimeInterval` | src/timer.cpp:90-124 | In place: NaN changes nothing, any other interval is appended to the history, and all fields still agree with it |
| `Timers.Timer.SetMemorySize` | include/real_time_tools/timer.hpp:90-95 | In place: starts a new epoch, all fields still agreeing with the history |
| `Timers.Timer.Tac` | src/timer.cpp:68-76 | Returns and logs the time since tic, NaN if there was none |
| `Timers.Timer.TacTic` | src/timer.cpp:78-88 | As tac, and the same reading becomes the new tic |
| `Timers.Timer.GetAvgElapsedSec` | include/real_time_tools/timer.hpp:132-135 | The mean of the last epoch in which anything was logged; zero if nothing ever was |
| `Timers.Timer.GetVarianceElapsed` | include/real_time_tools/timer.hpp:141-145 | The radicand of the standard deviation: the mean squared deviation of that epoch |
| `Timers.Timer.GetMinElapsedSec` | include/real_time_tools/timer.hpp:114-117 | The least interval ever logged, over all resizes |
| `Timers.Timer.GetMaxElapsedSec` | include/real_time_tools/timer.hpp:123-126 | The greatest interval ever logged, over all resizes |
| `Timers.Timer.DumpMeasurements` | src/timer.cpp:132-137 | The loop walks exactly the last min(count, capacity) intervals since the last resize, in order |
| `CheckpointTiming.CheckpointTimer.Start` | include/real_time_tools/checkpoint_timer.hxx:20-28 | In place: the index is 1, timer 0 logged and restarted at the first clock reading, timer 1 started at the second, every other timer untouched |
| `CheckpointTiming.CheckpointTimer.Checkpoint` | include/real_time_tools/checkpoint_timer.hxx:31-56 | In place: accepted if and only if no name or this name was stored for the index; then the name is stored and the index moves on by one, otherwise index and names stay |
| `CheckpointTiming.EveryFittingUseRuns` | include/real_time_tools/checkpoint_timer.hxx:20-56 | Every list of calls that begins with a start and has, on a clock that does not go back, at most N checkpoints after each start is a use in bounds: counted on the list, accepted or not |
| `CheckpointTiming.IndexCountsAccepted` | include/real_time_tools/checkpoint_timer.hxx:25-51 | After any use in bounds the index is one more than the number of checkpoints accepted since the last start |
| `CheckpointTiming.TimeIsAccountedFor` | include/real_time_tools/checkpoint_timer.hxx:20-56 | After any use in bounds, rejected calls included: timer 0 has logged the time from first to last start; all checkpoints together logged the time covered by disjoint spans since the first start plus the repeated time, which a rejected call causes when another checkpoint follows it |
| `CheckpointTiming.TimeIsConserved` | include/real_time_tools/checkpoint_timer.hxx:20-56 | After any use in bounds: the checkpoint intervals are disjoint if and only if no rejected call later than its mark was followed by another checkpoint before the next start, in particular if none was rejected; then all checkpoints together logged at most what timer 0 logged plus the time since the last start |
| `CheckpointTiming.RunCounts` | include/real_time_tools/checkpoint_timer.hxx:20-56 | After any use in bounds: the index is in 1..N+1, timer 0 has one interval per start but the first, timer i one per iteration that got past checkpoint i plus one per call rejected there; fewer iterations get past a later checkpoint; nothing is rejected if and only if every rejection count is zero |
| `CheckpointTiming.NamesStick` | include/real_time_tools/checkpoint_timer.hxx:38-48 | Over any calls, rejected ones included, a stored name never changes |
| `CheckpointTiming.RejectedTimeCountsTwice` | include/real_time_tools/checkpoint_timer.hxx:36-48 | A run from the constructed object: the wrong name, then the right one, and in three seconds the checkpoints have logged four |
| `CheckpointTiming.RejectionCanBeHarmless` | include/real_time_tools/checkpoint_timer.hxx:20-48 | A run from the constructed object: the wrong name, then a new start, and the intervals are still disjoint |
| `RealtimeChecking.WrappingTicks` | src/realtime_check.cpp:51-65 | After N ticks the counter is N mod 2^32, and the check is started if and only if N >= 1 and N mod 2^32 < 2^32 - 2 |
| `RealtimeChecking.CounterInNumbers` | src/realtime_check.cpp:51-57 | For 1 to 4294967293 ticks the check is started and the counter is their number; at 4294967294 and 4294967295 it is not started; at 4294967296 it is again, with a counter of 0 |
| `RealtimeChecking.RateInNumbers` | src/realtime_check.cpp:69-80 | A measured frequency times its gap in nanoseconds is 10^9 per tick, and it counts as too low if and only if it is strictly below the bound |
| `RealtimeChecking.NothingMeasuredYet` | src/realtime_check.cpp:13-27 | Until a gap was measured the average is -1 and no switch is counted |
| `RealtimeChecking.MachineMeasures` | src/realtime_check.cpp:51-75 | Tick number n measures a gap if and only if n >= 2 and 1 <= n mod 2^32 < 2^32 - 2, and then it is the gap since the tick just before |
| `RealtimeChecking.GapsAreMeasured` | src/realtime_check.cpp:51-75 | The measured gaps are those that end at such a tick number, for any tick times |
| `RealtimeChecking.MeasuredGapsCount` | src/realtime_check.cpp:51-75 | The number of measured gaps after N ticks in closed form: 2^32 - 3 per round of the counter, less one for the very first tick |
| `RealtimeChecking.AverageIsAtLeastWorst` | src/realtime_check.cpp:69-98 | Over whole runs with positive gaps, restarts included, average >= worst frequency once a gap was measured |
| `RealtimeChecking.AverageIsHarmonic` | src/realtime_check.cpp:89-94 | After every measured tick, in any epoch: the average is ticks / n times the harmonic mean of the n frequencies measured since the latest start, where ticks is n + 1 in the first epoch and n in every later one |
| `RealtimeChecking.FirstEpochAverage` | src/realtime_check.cpp:93-94 | In the first epoch, after n gaps, the average is (n + 1)/n times the harmonic mean of the measured frequencies |
| `RealtimeChecking.EpochTime` | src/realtime_check.cpp:59-65 | The gaps measured since the latest start add up to the time since it, and the tick counter is their number, plus one before the first wrap only |
| `RealtimeChecking.WorseIsTheWorst` | src/realtime_check.cpp:82-85 | The worst frequency is the least one of all measured gaps, over all epochs |
| `RealtimeChecking.WorstEverExperienced` | include/real_time_tools/realtime_check.hpp:97-98 | It is the worst between any two ticks in a row if and only if no gap that ends at an unmeasured tick was slower |
| `RealtimeChecking.SwitchsCountSlowGaps` | src/realtime_check.cpp:77-80 | The switch counter is the number of measured gaps below the switch frequency, modulo 2^32 |
| `RealtimeChecking.CurrentIsTheLatest` | src/realtime_check.cpp:69-75 | The current frequency is that of the latest measured gap over all epochs |
| `RealtimeChecking.RealtimeLostExactly` | src/realtime_check.cpp:29-42 | was_realtime_lost holds after N ticks if and only if N >= 1, N mod 2^32 < 2^32 - 2 and the number of slow gaps is not a multiple of 2^32 |
| `RealtimeChecking.RealtimeLostIsTrue` | include/real_time_tools/realtime_check.hpp:42-44 | It tells whether the frequency between any two ticks in a row was ever too low if and only if it never was, or statistics are available and the number of slow gaps among the measured ones is not a multiple of 2^32 |
| `RealtimeChecking.NoSlowGapCounts` | src/realtime_check.cpp:53-80 | That number is zero if and only if every slow gap ends at an unmeasured tick |
| `RealtimeChecking.SlowGapsShowInWorst` | src/realtime_check.cpp:77-85 | Over whole runs, some measured gap was below the switch frequency if and only if the worst frequency is |
| `RealtimeChecking.LossIsForgotten` | src/realtime_check.cpp:29-57 | A run that ends while statistics are withheld: gaps were slow, the worst frequency tells, was_realtime_lost is false |
| `RealtimeChecking.LossCountWraps` | src/realtime_check.cpp:77-80 | A run with 2^32 slow measured gaps: statistics are available, was_realtime_lost is false |
| `RealtimeChecking.LossIsMissed` | src/realtime_check.cpp:53-57 | A run whose one slow gap ends at an unmeasured tick: statistics are available, was_realtime_lost is false, and the worst frequency does not tell either |
| `RealtimeChecking.FirstEpochRealtimeLost` | src/realtime_check.cpp:29-42 | In the first epoch it holds if and only if the check is started and the worst frequency is below the switch frequency; the switch counter is then the number of slow gaps |
| `RealtimeChecking.RealTimeCheck.Tick` | src/realtime_check.cpp:44-99 | In place: the fields after the call are those of the run with one more tick |
| `RealtimeChecking.RealTimeCheck.WasRealtimeLost` | src/realtime_check.cpp:29-42 | The result in terms of the ticks so far; for 1 to 4294967293 ticks it is true if and only if some gap between two ticks was too low in frequency |
| `RealtimeChecking.RealTimeCheck.GetAverageFrequency` | src/realtime_check.cpp:132-142 | -1 exactly in the states where statistics are withheld, the average otherwise |
| `RealtimeChecking.RealTimeCheck.GetStatistics` | src/realtime_check.cpp:106-130 | Available if and only if N >= 1 and N mod 2^32 < 2^32 - 2, in particular for 1 to 4294967293 ticks, with N as the tick count; then all seven outputs are those of the configuration and the history |
| `UsbStreaming.UsbStream.ReadDeviceRaw` | src/usb_stream.cpp:392-468 | Stream mode, byte by byte: the message keeps its first start_location bytes, then holds what the device sent in this read, then zeros, whatever the read returned and whether or not the internal buffer was resized |
| `UsbStreaming.UsbStream.ReadDevice` | src/usb_stream.cpp:351-390 | True if and only if the whole message was read at once, and then the message is the next bytes of the device |
| `UsbStreaming.ReadRepeatedly` | src/usb_stream.cpp:392-468 | Repeated calls of read_device_raw, each with start_location advanced by the positive return before: for every pattern of short and failed reads and of buffer resizes, msg[..start] is exactly what the device sent |
| `UsbStreaming.ShortReadsReassemble` | src/usb_stream.cpp:392-468 | The same for the message that such reads produce, as a function of their sizes |
| `UsbStreaming.MsgDebugString` | src/usb_stream.cpp:546-563 | The loop prints a bracket, then per byte of the shown part two upper-case hexadecimal digits whose values make up the byte, the high one first, and a space, then a bracket; the shown part is the whole message for a negative bound, and its first min(bound, size) bytes otherwise |
| `UsbStreaming.DebugStringLength` | src/usb_stream.cpp:554-562 | The printout of n bytes has 3n + 3 characters |
| `UsbStreaming.DebugStringIsInjective` | src/usb_stream.cpp:554-562 | Two messages print alike if and only if they are equal |

## Left out

- Rounding of doubles: the identities are those of exact arithmetic and do not hold bit for bit.
- Wrap-around of the 64-bit counts of `ThreadsafeObject` and `Timer`: they are natural numbers.
- The names constructor of `SingletypeThreadsafeObject` and its name overloads: line 42 of
  threadsafe_object.hxx builds a temporary object instead of delegating, so the shared pointers
  stay null.
- Updates published between two calls of one consumer: `wait_for_update` does not detect them,
  so no claim is made that a loop sees every update.
- The one-nanosecond sleep at the start of `set`: it has no effect on safety.
- Fairness of the scheduler and of the mutexes: runs without new calls and spurious wakeups are
  proved to settle, and with them a served wait needs a bounded number of its own steps; that its
  thread is given those steps is not claimed.
- Interrupted sleeps (EINTR) and clocks that are set back.
- `FrequencyManager::predict_sleeping_time` and `Spinner::predict_sleeping_time`: the first
  returns the elapsed time, not what its header describes.
- SetFrequency: in both pacers, like `WithFrequency`, it excludes the frequency zero, for which
  the source stores an infinite period.
- The square root in `get_std_dev_elapsed_sec`: its radicand is modelled.
- File output of `dump_measurements` and every `print_statistics`: the loop's values are modelled.
- Infinite intervals passed to `log_time_interval`.
- A disabled `CheckpointTimer`, `checkpoint` before the first `start`, and more checkpoints in
  one iteration than it has, which index its arrays out of bounds.
- The mutex of `RealTimeCheck`: each of its methods is one critical section. The narrowing of its
  counters to `int` in `get_statistics`.
- `UsbStream` poll mode, port configuration, opening, closing, flushing and writing.
- Threads, process affinity, mutex wrappers, Xenomai and macOS branches, directories, date
  strings, Python bindings and demos.
