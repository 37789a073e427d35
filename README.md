# timers — a verified model of NanoTimer and Timer

This project models the two stopwatch classes of the `timers` library. Both
have the states UNINITIALISED, RUNNING, PAUSED and STOPPED, and both keep a log
of segments.

- **NanoTimer** is the main class.
  - Each segment (`TimerSplit`) holds an optional name and a list of
    (action, timestamp) events.
  - The first event opens the segment: START, SPLIT or STOP. The events after
    it are PAUSE/RESUME pairs.
  - Once the timer is stopped, the elapsed time, the cumulative split times
    and the per-segment split periods are derived from the log. Each is
    memoised until `reset`.
- **Timer** is the earlier variant.
  - Its log is a list of bare timestamp lists, with a separate flat list of
    actions, one per timestamp.
  - `split` is refused while paused.
  - `reset` only changes the state, and nothing is memoised.

## Modules

- `Outcomes` (`outcomes.dfy`): the exceptions the Java code throws, as return
  values. `IllegalState` stands for `IllegalStateException`;
  `IllegalArgument(index, bound)` for `IllegalArgumentException`.
- `NanoLabels`, `TimerLabels` (`labels.dfy`): the action and state
  enumerations and their display labels.
- `TimeUnits` (`time_units.dfy`): `TimeUnit.convert` from nanoseconds. It
  divides by the unit's size and truncates toward zero, like Java's `/` on
  longs.
- `Ledger` (`ledger.dfy`): the timestamp log of both timers, as
  `seq<seq<int>>`. It holds:
  - the shape predicates;
  - the metric definitions (elapsed time, split times, split periods, pauses);
  - the identities relating them;
  - the lemmas showing that each kind of append keeps the log's invariants.
- `NanoLog` (`nano_log.dfy`): NanoTimer's log of `TimerSplit` records.
  - Its timestamp view `Stamps` maps it into `Ledger`.
  - It holds NanoTimer's shape invariant: segment boundaries, PAUSE/RESUME
    alternation, odd event counts once stopped.
- `NanoTimerModel` (`nano_timer.dfy`): class `NanoTimer`.
  - The fields are `splits`, `timerState` and the three caches.
  - The methods update them in place. The metric methods run the source's
    accumulator loops, and each is proved equal to the `Ledger` function it
    computes.
- `TimerModel` (`timer.dfy`): class `Timer`.
  - The fields are `splits`, `timerActions` and `timerState`.
  - Its invariant `Consistent` ties the number of actions to the number of
    recorded timestamps.
- `Scenarios` (`scenarios.dfy`): the seven action sequences of the test suite.
  - The test asserts only the states each action leaves the timer in.
  - The model runs each sequence under an ideal clock that reads exactly 0,
    50, 100, … ms, one 50 ms step per action.
  - Each scenario is proved to give the states the test checks. Under that
    ideal clock, it is also proved to give the metrics listed in
    microseconds. The test prints its metrics but does not check them.
  - A few error paths and one comparison with Timer complete it.

The system clock is modelled as a parameter `now` of every mutator. The
monotonic clock's guarantee is the precondition `ClockNotBefore(now)`: `now`
is not before any recorded timestamp.

## Model

Source paths are under `timers/src/main/java/com/langtoun/timers/`, except
`AppTest.java`, which is under `timers/src/test/java/com/langtoun/timers/`.

| member | source | states |
|---|---|---|
| NanoLabels.NanoActionLabel | timers/src/main/java/com/langtoun/timers/NanoTimerAction.java:6-27 | Each action's label is its constant's name in lower case: a non-empty word of the letters a–z. |
| NanoLabels.NanoStateLabel | timers/src/main/java/com/langtoun/timers/NanoTimerState.java:6-26 | Each state's label is its constant's name in lower case: a non-empty word of the letters a–z. |
| NanoLabels.NanoActionLabelsDistinct | timers/src/main/java/com/langtoun/timers/NanoTimerAction.java:6-27 | Two actions have the same display label exactly when they are the same action, so a label names its action. |
| NanoLabels.NanoStateLabelsDistinct | timers/src/main/java/com/langtoun/timers/NanoTimerState.java:6-26 | Two states have the same display label exactly when they are the same state. |
| TimerLabels.ActionLabel | timers/src/main/java/com/langtoun/timers/TimerAction.java:3-19 | Timer's action labels are the same lower-case words as NanoTimer's. |
| TimerLabels.StateLabel | timers/src/main/java/com/langtoun/timers/Timer.java:189 | `timerState.name().toLowerCase()`, which lower-cases in the JVM's default locale. Assuming a locale that maps these ASCII names to ASCII, the label is a non-empty word of the letters a–z. |
| TimeUnits.Factor | timers/src/main/java/com/langtoun/timers/NanoTimer.java:237 | Every unit holds at least one nanosecond, so conversion is a division by a positive size. |
| TimeUnits.UnitName | timers/src/main/java/com/langtoun/timers/NanoTimer.java:331 | `timeUnit.name().toLowerCase(Locale.ENGLISH)`, as also used at line 427: a non-empty, plural (ending in s) word of the letters a–z. |
| TimeUnits.Convert | timers/src/main/java/com/langtoun/timers/NanoTimer.java:237 | The result is the whole number of units in the duration, truncated toward zero. For v ≥ 0 it is the r with r·f ≤ v < (r+1)·f. For v ≤ 0 it is the r with (r−1)·f < v ≤ r·f. Nanoseconds are returned unchanged. |
| TimeUnits.ConvertAll | timers/src/main/java/com/langtoun/timers/NanoTimer.java:279-290 | One converted value per input value, at the same position. |
| TimeUnits.ConvertIsOdd | timers/src/main/java/com/langtoun/timers/NanoTimer.java:237 | Converting −v gives minus the conversion of v. This is truncation, not Euclidean division. |
| TimeUnits.ConvertMonotone | timers/src/main/java/com/langtoun/timers/NanoTimer.java:237 | Conversion never reverses the order of two durations. |
| TimeUnits.ConvertEach | timers/src/main/java/com/langtoun/timers/NanoTimer.java:279-286 | The array loop of `splitTimes(timeUnit)` and `splitPeriods(timeUnit)` returns exactly the element-wise conversion of its input. |
| Ledger.PairSum | timers/src/main/java/com/langtoun/timers/NanoTimer.java:471-477 | The sum of the first k pause intervals of a segment: stamp 2j minus stamp 2j−1 for j = 1..k. Its bounds are Ledger.PairSumBounds. |
| Ledger.PauseTime | timers/src/main/java/com/langtoun/timers/Timer.java:109-115 | A segment's pause time is the sum of all its pause intervals, the value of the `calcPauses` pair loop of both timers (also NanoTimer.java:471-477). Its bounds are Ledger.PauseTimeBounds. |
| Ledger.PausesBefore | timers/src/main/java/com/langtoun/timers/NanoTimer.java:463-469 | The pause times of the first k segments, added in order. |
| Ledger.AllPauses | timers/src/main/java/com/langtoun/timers/NanoTimer.java:463-469 | `calcAllPauses`: the pause times of every segment but the last (the STOP segment). |
| Ledger.Elapsed | timers/src/main/java/com/langtoun/timers/NanoTimer.java:218 | The elapsed time is the stop boundary minus the start boundary, less all pauses; Timer.java:119 computes the same. Its sign is in Ledger.MetricsNonNegative. |
| Ledger.SplitTime | timers/src/main/java/com/langtoun/timers/NanoTimer.java:260 | Split time i is boundary i+1 minus the start boundary, less the pauses of segments 0..i. |
| Ledger.SplitPeriod | timers/src/main/java/com/langtoun/timers/NanoTimer.java:352 | Period i is boundary i+1 minus boundary i, less segment i's pauses. |
| Ledger.SplitTimes | timers/src/main/java/com/langtoun/timers/NanoTimer.java:252-261 | A stopped log of n segments gives n−1 split times. Split time i is boundary i+1 minus the start, minus the pauses of segments 0..i. |
| Ledger.SplitPeriods | timers/src/main/java/com/langtoun/timers/NanoTimer.java:347-353 | A stopped log of n segments gives n−1 periods. Period i is boundary i+1 minus boundary i, minus segment i's pauses. |
| Ledger.LastSplitTimeIsElapsed | timers/src/main/java/com/langtoun/timers/NanoTimer.java:218-260 | The last split time equals the elapsed time. |
| Ledger.SplitTimeIsPrefixSum | timers/src/main/java/com/langtoun/timers/NanoTimer.java:255-261 | Split time i is the sum of periods 0..i. |
| Ledger.PeriodsSumToElapsed | timers/src/main/java/com/langtoun/timers/NanoTimer.java:347-353 | The split periods sum to the elapsed time. |
| Ledger.SplitTimeStep | timers/src/main/java/com/langtoun/timers/NanoTimer.java:258-260 | Each split time is the previous one plus that segment's period, which is the running accumulator of the loop. |
| Ledger.PairSumBounds | timers/src/main/java/com/langtoun/timers/NanoTimer.java:471-477 | On a sorted segment, the first k pause pairs sum to a value between 0 and the time from the boundary to the 2k-th stamp. |
| Ledger.PauseTimeBounds | timers/src/main/java/com/langtoun/timers/NanoTimer.java:471-477 | A sorted, odd-length segment's pause time lies between 0 and the segment's span. |
| Ledger.PeriodNonNegative | timers/src/main/java/com/langtoun/timers/NanoTimer.java:350-353 | With monotone timestamps, no split period is negative. |
| Ledger.SplitTimesNonNegative | timers/src/main/java/com/langtoun/timers/NanoTimer.java:255-261 | With monotone timestamps, split times are non-negative and never decrease. |
| Ledger.MetricsNonNegative | timers/src/main/java/com/langtoun/timers/NanoTimer.java:215-224 | With monotone timestamps, the elapsed time, every split time and every period are non-negative. |
| Ledger.SortedBelowLast | timers/src/main/java/com/langtoun/timers/NanoTimer.java:136-161 | Within a segment whose stamps never decrease, no stamp is later than the segment's last one. |
| Ledger.LatestIsMaximum | timers/src/main/java/com/langtoun/timers/NanoTimer.java:136-161 | On a monotone log without empty segments, no recorded timestamp is later than the latest one. |
| Ledger.ClockAfterAll | timers/src/main/java/com/langtoun/timers/NanoTimer.java:137 | A clock reading no earlier than the latest timestamp of such a log is no earlier than any of its timestamps. |
| Ledger.AppendToLast | timers/src/main/java/com/langtoun/timers/Timer.java:57-60 | Adding a timestamp to the current segment changes only that segment, and only by that timestamp at its end. |
| Ledger.AppendToLastMonotone | timers/src/main/java/com/langtoun/timers/Timer.java:55-77 | A clock reading no earlier than the latest timestamp keeps the log monotone when added to the current segment, and becomes the latest timestamp. |
| Ledger.AppendSegmentMonotone | timers/src/main/java/com/langtoun/timers/Timer.java:43-53 | The same holds for a reading that opens a new segment. |
| Ledger.AppendToLastFlipsOpen | timers/src/main/java/com/langtoun/timers/Timer.java:55-77 | A pause or resume stamp turns a running log into a paused one, or back. Every earlier segment stays made of whole pause pairs. |
| Ledger.AppendSegmentOpen | timers/src/main/java/com/langtoun/timers/Timer.java:79-95 | A new segment on a running log gives a running log that is also closed: every segment is pairable, with at least two segments. |
| Ledger.Count | timers/src/main/java/com/langtoun/timers/Timer.java:191-193 | The number of timestamps in a log, which the `toString` iterator pairs with the action list. With no empty segment it is at least the number of segments. |
| Ledger.CountAppendToLast | timers/src/main/java/com/langtoun/timers/Timer.java:55-77 | Adding a timestamp to the current segment raises the timestamp count by one. |
| Ledger.CountAppendSegment | timers/src/main/java/com/langtoun/timers/Timer.java:43-53 | Opening a one-stamp segment raises the timestamp count by one. |
| NanoLog.TimerSplit.GetName | timers/src/main/java/com/langtoun/timers/NanoTimer.java:499-504 | A segment's name is the given one. If none was given, it is the label of the action that opened the segment. |
| NanoLog.StampsBoundaries | timers/src/main/java/com/langtoun/timers/NanoTimer.java:256-260 | The timestamp view has one list per segment, of the same length, starting with the segment's boundary timestamp. |
| NanoLog.StampsEvents | timers/src/main/java/com/langtoun/timers/NanoTimer.java:256-260 | Every timestamp of the ledger is the timestamp of the matching event of the matching segment. |
| NanoLog.AppendEvent | timers/src/main/java/com/langtoun/timers/NanoTimer.java:139-140 | Recording an event changes only the last segment, by exactly that event at its end. |
| NanoLog.StampsAppendEvent | timers/src/main/java/com/langtoun/timers/NanoTimer.java:152-161 | Recording an event adds its timestamp to the current segment of the timestamp view. |
| NanoLog.StampsAppendSegment | timers/src/main/java/com/langtoun/timers/NanoTimer.java:113-116 | Opening a segment adds a one-stamp segment to the timestamp view. |
| NanoLog.StoppedSegmentsPairable | timers/src/main/java/com/langtoun/timers/NanoTimer.java:170-186 | A stopped log has at least two segments. Each has an odd number of events, so the pair loop of `calcPauses` stays in bounds. After the boundary, events alternate PAUSE, RESUME. |
| NanoLog.LogShape | timers/src/main/java/com/langtoun/timers/NanoTimer.java:75-186 | The shape each state leaves the log in. Once started, the log has at least one segment and none is empty. The first segment opens with START. The last segment opens with STOP exactly when the state is STOPPED. |
| NanoLog.EventKeepsSegments | timers/src/main/java/com/langtoun/timers/NanoTimer.java:136-161 | Recording the action the segment's parity calls for keeps every segment well formed. That is a PAUSE after an odd count and a RESUME after an even one. |
| NanoLog.EventFlipsOpen | timers/src/main/java/com/langtoun/timers/NanoTimer.java:136-161 | Recording an event on a running log gives a paused one, and the other way round. |
| NanoLog.PauseKeepsShape | timers/src/main/java/com/langtoun/timers/NanoTimer.java:138-141 | Recording a PAUSE on a log with the RUNNING shape gives the PAUSED shape. |
| NanoLog.ResumeKeepsShape | timers/src/main/java/com/langtoun/timers/NanoTimer.java:154-157 | Recording a RESUME on a log with the PAUSED shape gives the RUNNING shape. |
| NanoLog.OpenKeepsShape | timers/src/main/java/com/langtoun/timers/NanoTimer.java:177-181 | A SPLIT segment keeps the RUNNING shape. A STOP segment gives the STOPPED shape. |
| NanoLog.EventKeepsMonotone | timers/src/main/java/com/langtoun/timers/NanoTimer.java:137-140 | An event stamped no earlier than the latest timestamp keeps the log monotone and becomes the latest timestamp. |
| NanoLog.OpenKeepsMonotone | timers/src/main/java/com/langtoun/timers/NanoTimer.java:107-116 | A segment opened no earlier than the latest timestamp keeps the log monotone. |
| NanoLog.StartShape | timers/src/main/java/com/langtoun/timers/NanoTimer.java:78-82 | The one-segment log that start creates has the RUNNING shape, and its timestamp view is [[t]]. |
| NanoTimerModel.NanoTimer.Valid | timers/src/main/java/com/langtoun/timers/NanoTimer.java:26-34 | The invariant: the log has its state's shape, its timestamps never decrease, and a filled cache holds the metric the stopped log determines. So a started timer has no empty segment, and a filled cache means the timer is STOPPED. |
| NanoTimerModel.NanoTimer.ClockNotBefore | timers/src/main/java/com/langtoun/timers/NanoTimer.java:137 | The clock reading is no earlier than the latest recorded timestamp. On a monotone log with no empty segment, it is then no earlier than every recorded event. |
| NanoTimerModel.NanoTimer.constructor | timers/src/main/java/com/langtoun/timers/NanoTimer.java:35-62 | A new timer has the given name, the UNINITIALISED state, no segments and empty caches. |
| NanoTimerModel.NanoTimer.Start | timers/src/main/java/com/langtoun/timers/NanoTimer.java:75-87 | From UNINITIALISED the log becomes exactly one segment holding (START, now), and the state RUNNING. From any other state it fails with IllegalState and changes nothing. The caches are untouched. |
| NanoTimerModel.NanoTimer.CloseOpenPause | timers/src/main/java/com/langtoun/timers/NanoTimer.java:108-111 | From PAUSED, it records (RESUME, now) in the last segment and sets RUNNING. |
| NanoTimerModel.NanoTimer.OpenSegment | timers/src/main/java/com/langtoun/timers/NanoTimer.java:113-116 | From RUNNING, it appends a segment holding (SPLIT or STOP, now). The state becomes RUNNING after SPLIT and STOPPED after STOP. |
| NanoTimerModel.NanoTimer.Split | timers/src/main/java/com/langtoun/timers/NanoTimer.java:106-120 | From PAUSED, it closes the pause with (RESUME, now) first. From PAUSED or RUNNING, it then appends a new segment [(SPLIT, now)] and ends RUNNING. From UNINITIALISED or STOPPED it fails and changes nothing. |
| NanoTimerModel.NanoTimer.Pause | timers/src/main/java/com/langtoun/timers/NanoTimer.java:136-145 | From RUNNING, it records exactly one (PAUSE, now) in the last segment and sets PAUSED. From PAUSED it is a no-op. Otherwise it fails and changes nothing. |
| NanoTimerModel.NanoTimer.Resume | timers/src/main/java/com/langtoun/timers/NanoTimer.java:152-161 | From PAUSED, it records exactly one (RESUME, now) in the last segment and sets RUNNING. From RUNNING it is a no-op. Otherwise it fails and changes nothing. |
| NanoTimerModel.NanoTimer.Stop | timers/src/main/java/com/langtoun/timers/NanoTimer.java:170-186 | From PAUSED, it closes the pause with (RESUME, now) first. From PAUSED or RUNNING, it then appends [(STOP, now)] and ends STOPPED, with at least two segments, each of odd length. Otherwise it fails and changes nothing. |
| NanoTimerModel.NanoTimer.Reset | timers/src/main/java/com/langtoun/timers/NanoTimer.java:201-206 | It never fails. The state becomes UNINITIALISED and all three caches are cleared. The log is kept. |
| NanoTimerModel.NanoTimer.CalcPauses | timers/src/main/java/com/langtoun/timers/NanoTimer.java:471-477 | The pair loop over an odd-length segment returns the segment's total pause time. |
| NanoTimerModel.NanoTimer.CalcAllPauses | timers/src/main/java/com/langtoun/timers/NanoTimer.java:463-469 | On a started timer, it returns the pauses of every segment but the last. |
| NanoTimerModel.NanoTimer.SumPauses | timers/src/main/java/com/langtoun/timers/NanoTimer.java:464-468 | The accumulator loop over all segments but the last returns their total pause time. |
| NanoTimerModel.NanoTimer.ComputeSplitTimes | timers/src/main/java/com/langtoun/timers/NanoTimer.java:255-261 | The loop with its running `totalPauses` returns exactly the split times of the stopped log. |
| NanoTimerModel.NanoTimer.ComputeSplitPeriods | timers/src/main/java/com/langtoun/timers/NanoTimer.java:350-353 | The loop returns exactly the split periods of the stopped log. |
| NanoTimerModel.NanoTimer.ElapsedTime | timers/src/main/java/com/langtoun/timers/NanoTimer.java:215-224 | Only when STOPPED does it return the elapsed time of the log; it is non-negative and memoised. Otherwise it fails with IllegalState and the cache is untouched. |
| NanoTimerModel.NanoTimer.ElapsedTimeIn | timers/src/main/java/com/langtoun/timers/NanoTimer.java:235-241 | When STOPPED, it returns the elapsed time converted to the unit. Otherwise it fails with IllegalState. |
| NanoTimerModel.NanoTimer.SplitTimes | timers/src/main/java/com/langtoun/timers/NanoTimer.java:252-267 | When STOPPED, it returns the memoised split times: one per segment after the first, non-negative, the last equal to the elapsed time. Otherwise it fails with IllegalState. |
| NanoTimerModel.NanoTimer.SplitTimesIn | timers/src/main/java/com/langtoun/timers/NanoTimer.java:279-290 | When STOPPED, it returns the split times converted element-wise. Otherwise it fails with IllegalState. |
| NanoTimerModel.NanoTimer.SplitTime | timers/src/main/java/com/langtoun/timers/NanoTimer.java:303-312 | The state check comes first. Then an index outside [0, n−1) fails with IllegalArgument(index, n−1). Otherwise it returns split time `index` converted to the unit. |
| NanoTimerModel.NanoTimer.SplitTimeWithName | timers/src/main/java/com/langtoun/timers/NanoTimer.java:326-335 | It has the same checks as SplitTime. It returns segment `index`'s name, the converted split time and the unit's lower-case name. |
| NanoTimerModel.NanoTimer.SplitPeriods | timers/src/main/java/com/langtoun/timers/NanoTimer.java:347-359 | When STOPPED, it returns the memoised periods: one per segment after the first, non-negative, summing to the elapsed time. Their prefix sums are the split times. Otherwise it fails with IllegalState. |
| NanoTimerModel.NanoTimer.SplitPeriodsIn | timers/src/main/java/com/langtoun/timers/NanoTimer.java:373-384 | When STOPPED, it returns the periods converted element-wise. Otherwise it fails with IllegalState. |
| NanoTimerModel.NanoTimer.SplitPeriod | timers/src/main/java/com/langtoun/timers/NanoTimer.java:398-407 | The state check comes first. Then an index outside [0, n−1) fails with IllegalArgument(index, n−1). Otherwise it returns period `index` converted to the unit. |
| NanoTimerModel.NanoTimer.SplitPeriodWithName | timers/src/main/java/com/langtoun/timers/NanoTimer.java:422-431 | It has the same checks as SplitPeriod. It returns segment `index`'s name, the converted period and the unit's lower-case name. |
| NanoTimerModel.NanoTimer.Describe | timers/src/main/java/com/langtoun/timers/NanoTimer.java:445-447 | When not STOPPED, the description is "timer " followed by the state's label. |
| TimerModel.Consistent | timers/src/main/java/com/langtoun/timers/Timer.java:28-95 | Timer's invariant: the log has its state's shape, never decreases, keeps whole pause pairs before the last segment, and has one action per timestamp. So a started timer has at least one segment, none empty, and no fewer actions than segments. |
| TimerModel.StampKeepsConsistent | timers/src/main/java/com/langtoun/timers/Timer.java:55-77 | Each of the following appends one timestamp and one action, so the action count still equals the timestamp count: a pause stamp on a running log, and a resume stamp on a paused one. The shape flips and the log stays monotone. |
| TimerModel.SegmentKeepsConsistent | timers/src/main/java/com/langtoun/timers/Timer.java:43-53 | A split or stop segment on a running log keeps the action count equal to the timestamp count. The result is running after a split and stopped after a stop. |
| TimerModel.Timer.Valid | timers/src/main/java/com/langtoun/timers/Timer.java:15-18 | The fields satisfy TimerModel.Consistent. A started timer has at least one segment and at least as many actions as segments. |
| TimerModel.Timer.ClockNotBefore | timers/src/main/java/com/langtoun/timers/Timer.java:56 | The clock reading is no earlier than the latest recorded timestamp. On a monotone log with no empty segment, it is then no earlier than every recorded timestamp. |
| TimerModel.Timer.constructor | timers/src/main/java/com/langtoun/timers/Timer.java:18-26 | A new timer is UNINITIALISED with empty logs. |
| TimerModel.Timer.Start | timers/src/main/java/com/langtoun/timers/Timer.java:28-41 | From UNINITIALISED, both logs are replaced by [[now]] and [START], and the state becomes RUNNING. Otherwise it fails and changes nothing. |
| TimerModel.Timer.Split | timers/src/main/java/com/langtoun/timers/Timer.java:43-53 | Only from RUNNING does it append the segment [now] and a SPLIT action. PAUSED, UNINITIALISED and STOPPED fail and change nothing. |
| TimerModel.Timer.OpenSegment | timers/src/main/java/com/langtoun/timers/Timer.java:86-91 | From RUNNING, it appends the segment [now] and the action. It ends STOPPED after STOP and RUNNING after SPLIT. |
| TimerModel.Timer.AppendStamp | timers/src/main/java/com/langtoun/timers/Timer.java:57-61 | From RUNNING or PAUSED, it adds `now` to the last segment and one action, and flips between RUNNING and PAUSED. |
| TimerModel.Timer.Pause | timers/src/main/java/com/langtoun/timers/Timer.java:55-65 | From RUNNING, it adds one timestamp and a PAUSE action and sets PAUSED. From PAUSED it is a no-op. Otherwise it fails and changes nothing. |
| TimerModel.Timer.Resume | timers/src/main/java/com/langtoun/timers/Timer.java:67-77 | From PAUSED, it adds one timestamp and a RESUME action and sets RUNNING. From RUNNING it is a no-op. Otherwise it fails and changes nothing. |
| TimerModel.Timer.Stop | timers/src/main/java/com/langtoun/timers/Timer.java:79-95 | From PAUSED, it adds the stop time to the current segment and RESUME, then the stop segment and STOP. From RUNNING, it adds only the stop segment and STOP. Both end STOPPED. Otherwise it fails and changes nothing. |
| TimerModel.Timer.ResumeThenStop | timers/src/main/java/com/langtoun/timers/Timer.java:81-91 | From PAUSED, the stop time closes the pause and opens the stop segment, and the actions gain RESUME, STOP. |
| TimerModel.Timer.Reset | timers/src/main/java/com/langtoun/timers/Timer.java:97-99 | It sets UNINITIALISED and leaves both logs untouched. |
| TimerModel.Timer.CalcPauses | timers/src/main/java/com/langtoun/timers/Timer.java:109-115 | It fails exactly on an even, non-empty list, where the loop reads one past the end. Otherwise it returns the list's pause time. |
| TimerModel.Timer.CalcAllPauses | timers/src/main/java/com/langtoun/timers/Timer.java:101-107 | It returns the pauses of every segment but the last. |
| TimerModel.Timer.ElapsedTime | timers/src/main/java/com/langtoun/timers/Timer.java:117-123 | When STOPPED, it returns the log's elapsed time, non-negative and recomputed on each call. Otherwise it fails with IllegalState. |
| TimerModel.Timer.ElapsedTimeIn | timers/src/main/java/com/langtoun/timers/Timer.java:125-131 | When STOPPED, it returns the converted elapsed time. Otherwise it fails with IllegalState. |
| TimerModel.Timer.SplitTimes | timers/src/main/java/com/langtoun/timers/Timer.java:133-146 | When STOPPED, it returns one split time per segment after the first, non-negative, the last equal to the elapsed time. Otherwise it fails with IllegalState. |
| TimerModel.Timer.SplitTimesIn | timers/src/main/java/com/langtoun/timers/Timer.java:148-159 | When STOPPED, it returns the split times converted element-wise. Otherwise it fails with IllegalState. |
| TimerModel.Timer.SplitPeriods | timers/src/main/java/com/langtoun/timers/Timer.java:161-171 | When STOPPED, it returns one non-negative period per segment after the first, summing to the elapsed time. Otherwise it fails with IllegalState. |
| TimerModel.Timer.SplitPeriodsIn | timers/src/main/java/com/langtoun/timers/Timer.java:173-184 | When STOPPED, it returns the periods converted element-wise. Otherwise it fails with IllegalState. |
| TimerModel.Timer.Describe | timers/src/main/java/com/langtoun/timers/Timer.java:187-189 | When not STOPPED, the description is "timer " followed by the state's label (TimerLabels.StateLabel, under the same locale assumption). |
| Scenarios.Measure | timers/src/test/java/com/langtoun/timers/AppTest.java:162-177 | On a stopped timer, the three reports in microseconds are the converted metrics of its log. |
| Scenarios.Started | timers/src/test/java/com/langtoun/timers/AppTest.java:162-164 | A reset timer started at time 0 is RUNNING with the ledger [[0]]. |
| Scenarios.SplitStep | timers/src/main/java/com/langtoun/timers/NanoTimer.java:113-116 | On the ledger, a split opens the segment [now]. |
| Scenarios.PauseStep | timers/src/main/java/com/langtoun/timers/NanoTimer.java:138-141 | On the ledger, a pause adds `now` to the current segment and ends PAUSED. |
| Scenarios.ResumeStep | timers/src/main/java/com/langtoun/timers/NanoTimer.java:154-157 | On the ledger, a resume adds `now` to the current segment and ends RUNNING. |
| Scenarios.StopStep | timers/src/main/java/com/langtoun/timers/NanoTimer.java:170-186 | On the ledger, a stop opens the segment [now]. When paused, it first adds `now` to the current segment. It ends STOPPED. |
| Scenarios.StopAndMeasure | timers/src/test/java/com/langtoun/timers/AppTest.java:162-177 | Stopping and measuring reports the metrics of the resulting ledger, with STOPPED as the last state. |
| Scenarios.PausedOnceLedger | timers/src/test/java/com/langtoun/timers/AppTest.java:61-88 | A 50 ms pause within one segment is subtracted from the elapsed time, the split time and the period. |
| Scenarios.SplitPausedOnceLedger | timers/src/test/java/com/langtoun/timers/AppTest.java:93-124 | A 50 ms pause in the second segment is subtracted from that segment only. |
| Scenarios.TwoSplitsLedger | timers/src/test/java/com/langtoun/timers/AppTest.java:129-153 | Pauses of 100 ms in split1 and 50 ms in split2 give split times 50, 200 and 300 ms, and periods 50, 150 and 100 ms. |
| Scenarios.StartStopMetrics | timers/src/test/java/com/langtoun/timers/AppTest.java:33-41 | Under the ideal 50 ms clock, the ledger of scenario 1 gives elapsed 50000 µs, split times [50000] and periods [50000]. |
| Scenarios.StartSplitStopMetrics | timers/src/test/java/com/langtoun/timers/AppTest.java:46-56 | Under the ideal 50 ms clock, the ledger of scenario 2 gives elapsed 100000 µs, split times [50000, 100000] and periods [50000, 50000]. |
| Scenarios.StartPauseResumeStopMetrics | timers/src/test/java/com/langtoun/timers/AppTest.java:61-73 | Under the ideal 50 ms clock, the ledger of scenario 3 gives elapsed 100000 µs, split times [100000] and periods [100000]. |
| Scenarios.StartPauseStopMetrics | timers/src/test/java/com/langtoun/timers/AppTest.java:78-88 | Under the ideal 50 ms clock, the ledger of scenario 4 gives elapsed 50000 µs, split times [50000] and periods [50000]. |
| Scenarios.StartSplitPauseResumeStopMetrics | timers/src/test/java/com/langtoun/timers/AppTest.java:93-107 | Under the ideal 50 ms clock, the ledger of scenario 5 gives elapsed 150000 µs, split times [50000, 150000] and periods [50000, 100000]. |
| Scenarios.StartSplitPauseStopMetrics | timers/src/test/java/com/langtoun/timers/AppTest.java:112-124 | Under the ideal 50 ms clock, the ledger of scenario 6 gives elapsed 100000 µs, split times [50000, 100000] and periods [50000, 50000]. |
| Scenarios.TwoSplitsWithPausesMetrics | timers/src/test/java/com/langtoun/timers/AppTest.java:129-153 | Under the ideal 50 ms clock, the ledger of scenario 7 gives elapsed 300000 µs, split times [50000, 200000, 300000] and periods [50000, 150000, 100000]. |
| Scenarios.StartStop | timers/src/test/java/com/langtoun/timers/AppTest.java:33-41 | The states are RUNNING, STOPPED. Under the ideal 50 ms clock, the report is elapsed 50000 µs, split times [50000] and periods [50000]. |
| Scenarios.StartSplitStop | timers/src/test/java/com/langtoun/timers/AppTest.java:46-56 | The states are RUNNING, RUNNING, STOPPED. Under the ideal 50 ms clock, the report is elapsed 100000 µs, split times [50000, 100000] and periods [50000, 50000]. |
| Scenarios.PausedAt50 | timers/src/test/java/com/langtoun/timers/AppTest.java:64-67 | Start, then pause at 50 ms, gives PAUSED with the ledger [[0, 50 ms]]. |
| Scenarios.StartPauseResumeStop | timers/src/test/java/com/langtoun/timers/AppTest.java:61-73 | The states are RUNNING, PAUSED, RUNNING, STOPPED. Under the ideal 50 ms clock, the 50 ms pause is excluded, giving 100000 µs everywhere. |
| Scenarios.StartPauseStop | timers/src/test/java/com/langtoun/timers/AppTest.java:78-88 | The states are RUNNING, PAUSED, STOPPED. The stop closes the pause. Under the ideal 50 ms clock, that gives 50000 µs everywhere. |
| Scenarios.SplitThenPause | timers/src/test/java/com/langtoun/timers/AppTest.java:96-101 | Start, split at 50 ms, then pause at 100 ms, gives PAUSED with the ledger [[0], [50, 100 ms]]. |
| Scenarios.StartSplitPauseResumeStop | timers/src/test/java/com/langtoun/timers/AppTest.java:93-107 | The states are as asserted. Under the ideal 50 ms clock, the report is elapsed 150000 µs, split times [50000, 150000] and periods [50000, 100000]. |
| Scenarios.StartSplitPauseStop | timers/src/test/java/com/langtoun/timers/AppTest.java:112-124 | The states are as asserted. Under the ideal 50 ms clock, the report is elapsed 100000 µs, split times [50000, 100000] and periods [50000, 50000]. |
| Scenarios.FirstSplitPausedTwice | timers/src/test/java/com/langtoun/timers/AppTest.java:132-143 | split1 is paused and resumed twice, giving RUNNING with a five-stamp second segment. |
| Scenarios.TwoSplitsWithPauses | timers/src/test/java/com/langtoun/timers/AppTest.java:129-153 | The ten states are as asserted. Under the ideal 50 ms clock, the report is elapsed 300000 µs, split times [50000, 200000, 300000] and periods [50000, 150000, 100000]. |
| Scenarios.StartTwice | timers/src/main/java/com/langtoun/timers/NanoTimer.java:75-87 | A second start without a reset fails with IllegalState and leaves the timer RUNNING. |
| Scenarios.StopUnstarted | timers/src/main/java/com/langtoun/timers/NanoTimer.java:182-184 | Stopping a timer that was never started fails with IllegalState. |
| Scenarios.PauseTwice | timers/src/main/java/com/langtoun/timers/NanoTimer.java:136-145 | A second pause succeeds and records nothing. |
| Scenarios.MetricsAfterReset | timers/src/main/java/com/langtoun/timers/NanoTimer.java:201-224 | Once reset, a stopped timer's elapsed time fails again with IllegalState. |
| Scenarios.ElapsedTwice | timers/src/main/java/com/langtoun/timers/NanoTimer.java:215-220 | On any stopped timer, a second elapsedTime() returns the value of the first. |
| Scenarios.IndexPastEnd | timers/src/main/java/com/langtoun/timers/NanoTimer.java:303-307 | splitTime(2) on a stopped three-segment log fails with IllegalArgument(2, 2). |
| Scenarios.TimerSplitWhilePaused | timers/src/main/java/com/langtoun/timers/Timer.java:43-53 | Timer refuses split while PAUSED and stays PAUSED, where NanoTimer accepts it. |
| Scenarios.TimerPausedAt50 | timers/src/main/java/com/langtoun/timers/Timer.java:55-65 | Timer started at 0 and paused at 50 ms holds [[0, 50 ms]] and the actions [START, PAUSE]. |
| Scenarios.TimerStartPauseStop | timers/src/main/java/com/langtoun/timers/Timer.java:79-95 | Timer start–pause–stop records a RESUME before the STOP. Under the ideal 50 ms clock, it reports 50 ms elapsed. |

## Left out

- The system clock is not modelled. `System.nanoTime()` becomes the parameter `now`. Its monotonicity is the precondition `ClockNotBefore(now)`.
- Java `long` arithmetic is not modelled: timestamps and durations are unbounded integers, and overflow is assumed not to happen.
- `TimeUnit.convert` belongs to the JDK. It is modelled as truncating division by the unit's size in nanoseconds. Every conversion here goes from NANOSECONDS to an equal or coarser unit, where `convert` is exactly that division and never saturates.
- TimerLabels.StateLabel / TimerModel.Timer.Describe: Timer.java:189 lower-cases with `toLowerCase()` in the JVM's default locale, unlike NanoTimer, which passes `Locale.ENGLISH`. The model assumes a default locale in which lower-casing these ASCII constant names gives ASCII. In a dotless-i locale such as Turkish or Azerbaijani, the source prints ı (U+0131) for I, for example "timer runnıng" and "timer unınıtıalısed".
- The STOPPED branch of both `toString` methods is left out. It is formatting, except that NanoTimer's calls `elapsedTime(timeUnit)` (NanoTimer.java:449), which fills the `elapsedTime` cache. That side effect is unobservable: `NanoTimer.Valid` ties a filled cache to `Ledger.Elapsed` of the log, the value `ElapsedTime` would compute anyway. The same goes for the text of the exception messages and of `String.format`. `Describe` returns `None` for STOPPED, and the errors carry only their kind and the index/bound values.
- `NanoTimers`, `Timers` and `App` are not part of this model. The first two are per-thread registries of timers; `App` is a demo.
- Callers could alter the arrays that `splitTimes()` and `splitPeriods()` return, since they alias NanoTimer's caches. The model returns the cached values instead.
- In place appends to a `TimerSplit`'s action list, or to Timer's last timestamp list, are modelled as replacing the last element of a `seq` field. No other reference to those lists exists outside the timers.
- The scenarios idealise the test's clock. The test sleeps at least 50 ms before each action and reads `System.nanoTime()`, so the metrics it prints are at least, and only close to, the values the model gives for an exact 50 ms step. It asserts only the timer states.
- NanoTimerModel.NanoTimer.Reset keeps the segment log, as the code does (NanoTimer.java:201-206). A reset that also discarded it would be a full re-arm. The next `start` replaces the log anyway, and every accessor that reads it fails until then, so no observable behaviour differs.
- TimerModel.Timer.CalcAllPauses: before the first `start`, Java's lists are `null`, so `calcAllPauses()` throws a NullPointerException. The model starts from empty lists and returns 0 there.
- Timer's `TimerState` enum is not part of the sources. It is modelled with the same four constants and labels as `NanoTimerState`.
- The count invariant of `Timer` (one action per timestamp) is proved as part of `Valid()`. The iterator walk of `toString` that relies on it is not modelled.
