/** NanoTimer: a single-owner stopwatch with states UNINITIALISED, RUNNING,
    PAUSED and STOPPED, a log of segments, and memoised metrics derived from
    the log once stopped.

    The clock read at the top of every mutator is the parameter `now`; the
    monotonic clock guarantees it is no earlier than any recorded timestamp
    (`ClockNotBefore`). Exceptions are returned as `Fail`/`Err` values. */
module NanoTimerModel {
  import opened Outcomes
  import opened NanoLabels
  import opened TimeUnits
  import opened Ledger
  import opened NanoLog

  /** The parts that splitTimeWithName and splitPeriodWithName format as
      "name[value unit]". */
  datatype NamedValue = NamedValue(name: string, value: int, unitName: string)

  class NanoTimer {
    const name: string
    var splits: seq<TimerSplit>
    var timerState: NanoTimerState
    // memoised metrics; None stands for Java's null
    var elapsedTime: Option<int>
    var splitTimes: Option<seq<int>>
    var splitPeriods: Option<seq<int>>

    /** The object invariant: the log has the shape its state calls for, its
        timestamps never decrease, and a cache, when filled, holds exactly the
        value the stopped log determines. */
    ghost predicate Valid()
      reads this
      ensures Valid() && timerState != Uninitialised ==>
                |splits| >= 1 && forall i :: 0 <= i < |splits| ==> |splits[i].actions| >= 1
      ensures Valid() && (elapsedTime.Some? || splitTimes.Some? || splitPeriods.Some?) ==> timerState == Stopped
    {
      && LogShape(splits, timerState)
      && Monotone(Stamps(splits))
      && (elapsedTime.Some? ==>
            timerState == Stopped && Closed(Stamps(splits)) && elapsedTime.value == Elapsed(Stamps(splits)))
      && (splitTimes.Some? ==>
            timerState == Stopped && Closed(Stamps(splits)) && splitTimes.value == Ledger.SplitTimes(Stamps(splits)))
      && (splitPeriods.Some? ==>
            timerState == Stopped && Closed(Stamps(splits)) && splitPeriods.value == Ledger.SplitPeriods(Stamps(splits)))
    }

    /** `now` is no earlier than the most recent recorded timestamp. */
    ghost predicate ClockNotBefore(now: int)
      reads this
      ensures ClockNotBefore(now) && Monotone(Stamps(splits)) &&
              (forall i :: 0 <= i < |splits| ==> |splits[i].actions| > 0) ==>
                forall i, j :: 0 <= i < |splits| && 0 <= j < |splits[i].actions| ==>
                  splits[i].actions[j].timestamp <= now
    {
      StampsEvents(splits);
      ClockAfterAll(Stamps(splits), now);
      |splits| > 0 && |splits[|splits| - 1].actions| > 0 ==> Latest(Stamps(splits)) <= now
    }

    /** newTimer(name); newTimer() is this constructor with the empty name. */
    constructor (name: string)
      ensures Valid()
      ensures this.name == name && timerState == Uninitialised && splits == []
      ensures elapsedTime == None && splitTimes == None && splitPeriods == None
    {
      this.name := name;
      splits := [];
      timerState := Uninitialised;
      elapsedTime, splitTimes, splitPeriods := None, None, None;
    }

    /** start(splitName): only from UNINITIALISED; replaces the log with one
        segment holding (START, now). */
    method Start(splitName: Option<string>, now: int) returns (o: Outcome)
      requires Valid()
      modifies this
      ensures Valid()
      ensures old(timerState) == Uninitialised ==>
                o == Pass && timerState == Running && splits == [Opened(splitName, NanoTimerAction.Start, now)]
      ensures old(timerState) != Uninitialised ==>
                o == Fail(IllegalState) && timerState == old(timerState) && splits == old(splits)
      ensures elapsedTime == old(elapsedTime) && splitTimes == old(splitTimes) && splitPeriods == old(splitPeriods)
    {
      if timerState == Uninitialised {
        StartShape(splitName, now);
        splits := [Opened(splitName, NanoTimerAction.Start, now)];
        timerState := Running;
        o := Pass;
      } else {
        o := Fail(IllegalState);
      }
    }

    /** Closes the pending pause of a paused timer with (RESUME, now). */
    method CloseOpenPause(now: int)
      requires Valid() && ClockNotBefore(now) && timerState == Paused
      modifies this`splits, this`timerState
      ensures Valid() && ClockNotBefore(now)
      ensures timerState == Running && splits == AppendEvent(old(splits), NanoTimerAction.Resume, now)
    {
      ResumeKeepsShape(splits, now);
      EventKeepsMonotone(splits, NanoTimerAction.Resume, now);
      splits := AppendEvent(splits, NanoTimerAction.Resume, now);
      timerState := Running;
    }

    /** Appends a new segment opened by `a` at `now` to a running timer. */
    method OpenSegment(splitName: Option<string>, a: NanoTimerAction, now: int)
      requires Valid() && ClockNotBefore(now) && timerState == Running
      requires a == NanoTimerAction.Split || a == NanoTimerAction.Stop
      modifies this`splits, this`timerState
      ensures Valid()
      ensures timerState == (if a == NanoTimerAction.Stop then Stopped else Running)
      ensures splits == old(splits) + [Opened(splitName, a, now)]
    {
      OpenKeepsShape(splits, splitName, a, now);
      OpenKeepsMonotone(splits, splitName, a, now);
      splits := splits + [Opened(splitName, a, now)];
      if a == NanoTimerAction.Stop {
        timerState := Stopped;
      }
    }

    /** split(splitName): from PAUSED first closes the pause, then (from
        RUNNING) opens a segment with (SPLIT, now); from UNINITIALISED or
        STOPPED it fails and changes nothing. */
    method Split(splitName: Option<string>, now: int) returns (o: Outcome)
      requires Valid() && ClockNotBefore(now)
      modifies this
      ensures Valid()
      ensures old(timerState) == Paused ==>
                o == Pass && timerState == Running &&
                splits == AppendEvent(old(splits), NanoTimerAction.Resume, now) + [Opened(splitName, NanoTimerAction.Split, now)]
      ensures old(timerState) == Running ==>
                o == Pass && timerState == Running && splits == old(splits) + [Opened(splitName, NanoTimerAction.Split, now)]
      ensures old(timerState) == Uninitialised || old(timerState) == Stopped ==>
                o == Fail(IllegalState) && timerState == old(timerState) && splits == old(splits)
      ensures elapsedTime == old(elapsedTime) && splitTimes == old(splitTimes) && splitPeriods == old(splitPeriods)
    {
      if timerState == Paused {
        CloseOpenPause(now);
      }
      if timerState == Running {
        OpenSegment(splitName, NanoTimerAction.Split, now);
        o := Pass;
      } else {
        o := Fail(IllegalState);
      }
    }

    /** pause(): from RUNNING appends (PAUSE, now) to the current segment;
        from PAUSED does nothing; otherwise fails and changes nothing. */
    method Pause(now: int) returns (o: Outcome)
      requires Valid() && ClockNotBefore(now)
      modifies this
      ensures Valid()
      ensures old(timerState) == Running ==>
                o == Pass && timerState == Paused && splits == AppendEvent(old(splits), NanoTimerAction.Pause, now)
      ensures old(timerState) == Paused ==>
                o == Pass && timerState == Paused && splits == old(splits)
      ensures old(timerState) == Uninitialised || old(timerState) == Stopped ==>
                o == Fail(IllegalState) && timerState == old(timerState) && splits == old(splits)
      ensures elapsedTime == old(elapsedTime) && splitTimes == old(splitTimes) && splitPeriods == old(splitPeriods)
    {
      if timerState == Running {
        PauseKeepsShape(splits, now);
        EventKeepsMonotone(splits, NanoTimerAction.Pause, now);
        splits := AppendEvent(splits, NanoTimerAction.Pause, now);
        timerState := Paused;
        o := Pass;
      } else if timerState != Paused {
        o := Fail(IllegalState);
      } else {
        o := Pass;
      }
    }

    /** resume(): from PAUSED appends (RESUME, now) to the current segment;
        from RUNNING does nothing; otherwise fails and changes nothing. */
    method Resume(now: int) returns (o: Outcome)
      requires Valid() && ClockNotBefore(now)
      modifies this
      ensures Valid()
      ensures old(timerState) == Paused ==>
                o == Pass && timerState == Running && splits == AppendEvent(old(splits), NanoTimerAction.Resume, now)
      ensures old(timerState) == Running ==>
                o == Pass && timerState == Running && splits == old(splits)
      ensures old(timerState) == Uninitialised || old(timerState) == Stopped ==>
                o == Fail(IllegalState) && timerState == old(timerState) && splits == old(splits)
      ensures elapsedTime == old(elapsedTime) && splitTimes == old(splitTimes) && splitPeriods == old(splitPeriods)
    {
      if timerState == Paused {
        CloseOpenPause(now);
        o := Pass;
      } else if timerState != Running {
        o := Fail(IllegalState);
      } else {
        o := Pass;
      }
    }

    /** stop(splitName): from PAUSED first closes the pause with (RESUME, now),
        then (from RUNNING) appends a segment with (STOP, now) and stops; the
        stopped log has at least two segments, each of odd length. From
        UNINITIALISED or STOPPED it fails and changes nothing. */
    method Stop(splitName: Option<string>, now: int) returns (o: Outcome)
      requires Valid() && ClockNotBefore(now)
      modifies this
      ensures Valid()
      ensures old(timerState) == Paused ==>
                o == Pass && timerState == Stopped &&
                splits == AppendEvent(old(splits), NanoTimerAction.Resume, now) + [Opened(splitName, NanoTimerAction.Stop, now)]
      ensures old(timerState) == Running ==>
                o == Pass && timerState == Stopped && splits == old(splits) + [Opened(splitName, NanoTimerAction.Stop, now)]
      ensures old(timerState) == Uninitialised || old(timerState) == Stopped ==>
                o == Fail(IllegalState) && timerState == old(timerState) && splits == old(splits)
      ensures o == Pass ==>
                |splits| >= 2 && forall i :: 0 <= i < |splits| ==> |splits[i].actions| % 2 == 1
      ensures elapsedTime == old(elapsedTime) && splitTimes == old(splitTimes) && splitPeriods == old(splitPeriods)
    {
      if timerState == Paused {
        CloseOpenPause(now);
      }
      if timerState == Running {
        OpenSegment(splitName, NanoTimerAction.Stop, now);
        o := Pass;
        forall i | 0 <= i < |splits| ensures |splits[i].actions| % 2 == 1 {
          StoppedSegmentsPairable(splits, i);
        }
      } else {
        o := Fail(IllegalState);
      }
    }

    /** reset(): always succeeds; back to UNINITIALISED with every cache
        cleared. The log itself is kept until the next start replaces it. */
    method Reset()
      requires Valid()
      modifies this
      ensures Valid()
      ensures timerState == Uninitialised && splits == old(splits)
      ensures elapsedTime == None && splitTimes == None && splitPeriods == None
    {
      timerState := Uninitialised;
      elapsedTime := None;
      splitTimes := None;
      splitPeriods := None;
    }

    /** calcPauses: sums resume - pause over the PAUSE/RESUME pairs of a
        segment that holds a boundary and complete pairs. */
    static method CalcPauses(split: TimerSplit) returns (pauseTime: int)
      requires |split.actions| % 2 == 1
      ensures pauseTime == PauseTime(Times(split.actions))
    {
      ghost var ts := Times(split.actions);
      ghost var k := 0;
      pauseTime := 0;
      var i := 1;
      while i < |split.actions|
        invariant i == 2 * k + 1 && i <= |split.actions|
        invariant pauseTime == PairSum(ts, k)
      {
        pauseTime := pauseTime + (split.actions[i + 1].timestamp - split.actions[i].timestamp);
        i := i + 2;
        k := k + 1;
      }
    }

    /** calcAllPauses: the pause time of every segment but the last. Once
        started, every segment but the last holds complete pause/resume pairs. */
    method CalcAllPauses() returns (totalPauses: int)
      requires Valid() && timerState != Uninitialised
      ensures totalPauses == AllPauses(Stamps(splits))
    {
      StampsBoundaries(splits);
      totalPauses := SumPauses(splits);
    }

    /** The loop of calcAllPauses(). */
    static method SumPauses(splits: seq<TimerSplit>) returns (totalPauses: int)
      requires forall i :: 0 <= i < |splits| - 1 ==> |splits[i].actions| % 2 == 1
      ensures PairableExceptLast(Stamps(splits)) && totalPauses == AllPauses(Stamps(splits))
    {
      ghost var log := Stamps(splits);
      StampsBoundaries(splits);
      assert PairableExceptLast(log);
      totalPauses := 0;
      var i := 0;
      while i < |splits| - 1
        invariant 0 <= i <= |splits| - 1 || (splits == [] && i == 0)
        invariant totalPauses == PausesBefore(log, i)
      {
        assert log[i] == Times(splits[i].actions);
        var p := CalcPauses(splits[i]);
        assert PausesBefore(log, i + 1) == PausesBefore(log, i) + PauseTime(log[i]);
        totalPauses := totalPauses + p;
        i := i + 1;
      }
    }

    /** The loop of splitTimes(): a running total of the pauses of the
        segments passed so far, subtracted from each boundary's distance to
        the start. */
    static method ComputeSplitTimes(splits: seq<TimerSplit>) returns (times: seq<int>)
      requires Closed(Stamps(splits))
      ensures times == Ledger.SplitTimes(Stamps(splits))
    {
      ghost var log := Stamps(splits);
      StampsBoundaries(splits);
      var a := new int[|splits| - 1];
      var startTime := splits[0].actions[0].timestamp;
      var totalPauses := 0;
      var i := 1;
      while i < |splits|
        invariant 1 <= i <= |splits|
        invariant totalPauses == PausesBefore(log, i - 1)
        invariant forall j :: 0 <= j < i - 1 ==> a[j] == Ledger.SplitTime(log, j)
      {
        assert log[i - 1] == Times(splits[i - 1].actions);
        var p := CalcPauses(splits[i - 1]);
        totalPauses := totalPauses + p;
        assert totalPauses == PausesBefore(log, i);
        a[i - 1] := splits[i].actions[0].timestamp - startTime - totalPauses;
        i := i + 1;
      }
      times := a[..];
    }

    /** The loop of splitPeriods(): each boundary's distance to the next,
        less the pauses of its own segment. */
    static method ComputeSplitPeriods(splits: seq<TimerSplit>) returns (periods: seq<int>)
      requires Closed(Stamps(splits))
      ensures periods == Ledger.SplitPeriods(Stamps(splits))
    {
      ghost var log := Stamps(splits);
      StampsBoundaries(splits);
      var a := new int[|splits| - 1];
      var i := 1;
      while i < |splits|
        invariant 1 <= i <= |splits|
        invariant forall j :: 0 <= j < i - 1 ==> a[j] == Ledger.SplitPeriod(log, j)
      {
        assert log[i - 1] == Times(splits[i - 1].actions);
        var p := CalcPauses(splits[i - 1]);
        a[i - 1] := splits[i].actions[0].timestamp - splits[i - 1].actions[0].timestamp - p;
        i := i + 1;
      }
      periods := a[..];
    }

    /** elapsedTime(): only when STOPPED; computed once, then served from the
        cache. With a monotone clock it is never negative. */
    method ElapsedTime() returns (r: Result<int>)
      requires Valid()
      modifies this`elapsedTime
      ensures Valid()
      ensures timerState == Stopped ==>
                Closed(Stamps(splits)) && r == Ok(Elapsed(Stamps(splits))) &&
                elapsedTime == Some(r.value) && r.value >= 0
      ensures timerState != Stopped ==> r == Err(IllegalState) && elapsedTime == old(elapsedTime)
    {
      if timerState == Stopped {
        if elapsedTime.None? {
          var allPauses := CalcAllPauses();
          elapsedTime := Some(splits[|splits| - 1].actions[0].timestamp - splits[0].actions[0].timestamp - allPauses);
        }
        MetricsNonNegative(Stamps(splits));
        r := Ok(elapsedTime.value);
      } else {
        r := Err(IllegalState);
      }
    }

    /** elapsedTime(timeUnit): the elapsed time converted to `unit`. */
    method ElapsedTimeIn(unit: TimeUnit) returns (r: Result<int>)
      requires Valid()
      modifies this`elapsedTime
      ensures Valid()
      ensures timerState == Stopped ==>
                Closed(Stamps(splits)) && r == Ok(Convert(Elapsed(Stamps(splits)), unit)) &&
                elapsedTime == Some(Elapsed(Stamps(splits)))
      ensures timerState != Stopped ==> r == Err(IllegalState) && elapsedTime == old(elapsedTime)
    {
      if timerState == Stopped {
        var e := ElapsedTime();
        r := Ok(Convert(e.value, unit));
      } else {
        r := Err(IllegalState);
      }
    }

    /** splitTimes(): only when STOPPED; one cumulative time per boundary after
        the start, net of pauses, computed once with a running total of pauses.
        The last one is the elapsed time and none is negative. */
    method SplitTimes() returns (r: Result<seq<int>>)
      requires Valid()
      modifies this`splitTimes
      ensures Valid()
      ensures timerState == Stopped ==>
                Closed(Stamps(splits)) && r == Ok(Ledger.SplitTimes(Stamps(splits))) &&
                splitTimes == Some(r.value) &&
                |r.value| == |splits| - 1 && r.value[|splits| - 2] == Elapsed(Stamps(splits)) &&
                forall i :: 0 <= i < |r.value| ==> r.value[i] >= 0
      ensures timerState != Stopped ==> r == Err(IllegalState) && splitTimes == old(splitTimes)
    {
      if timerState == Stopped {
        ghost var log := Stamps(splits);
        if splitTimes.None? {
          var times := ComputeSplitTimes(splits);
          splitTimes := Some(times);
        }
        LastSplitTimeIsElapsed(log);
        MetricsNonNegative(log);
        r := Ok(splitTimes.value);
      } else {
        r := Err(IllegalState);
      }
    }

    /** splitTimes(timeUnit): every split time converted to `unit`. */
    method SplitTimesIn(unit: TimeUnit) returns (r: Result<seq<int>>)
      requires Valid()
      modifies this`splitTimes
      ensures Valid()
      ensures timerState == Stopped ==>
                Closed(Stamps(splits)) &&
                r == Ok(ConvertAll(Ledger.SplitTimes(Stamps(splits)), unit)) &&
                splitTimes == Some(Ledger.SplitTimes(Stamps(splits)))
      ensures timerState != Stopped ==> r == Err(IllegalState) && splitTimes == old(splitTimes)
    {
      if timerState == Stopped {
        var times := SplitTimes();
        var converted := TimeUnits.ConvertEach(times.value, unit);
        r := Ok(converted);
      } else {
        r := Err(IllegalState);
      }
    }

    /** splitTime(index, timeUnit): split time `index`, converted; the state
        is checked first, then 0 <= index < |splits| - 1. */
    method SplitTime(index: int, unit: TimeUnit) returns (r: Result<int>)
      requires Valid()
      modifies this`splitTimes
      ensures Valid()
      ensures timerState != Stopped ==> r == Err(IllegalState) && splitTimes == old(splitTimes)
      ensures timerState == Stopped && (index < 0 || index >= |splits| - 1) ==>
                r == Err(IllegalArgument(index, |splits| - 1)) && splitTimes == old(splitTimes)
      ensures timerState == Stopped && 0 <= index < |splits| - 1 ==>
                Closed(Stamps(splits)) &&
                r == Ok(Convert(Ledger.SplitTimes(Stamps(splits))[index], unit)) &&
                splitTimes == Some(Ledger.SplitTimes(Stamps(splits)))
    {
      if timerState == Stopped {
        if index < 0 || index >= |splits| - 1 {
          r := Err(IllegalArgument(index, |splits| - 1));
        } else {
          var times := SplitTimes();
          r := Ok(Convert(times.value[index], unit));
        }
      } else {
        r := Err(IllegalState);
      }
    }

    /** splitTimeWithName(index, timeUnit): as SplitTime, labelled with the
        name of segment `index` and the unit's name. */
    method SplitTimeWithName(index: int, unit: TimeUnit) returns (r: Result<NamedValue>)
      requires Valid()
      modifies this`splitTimes
      ensures Valid()
      ensures timerState != Stopped ==> r == Err(IllegalState) && splitTimes == old(splitTimes)
      ensures timerState == Stopped && (index < 0 || index >= |splits| - 1) ==>
                r == Err(IllegalArgument(index, |splits| - 1)) && splitTimes == old(splitTimes)
      ensures timerState == Stopped && 0 <= index < |splits| - 1 ==>
                Closed(Stamps(splits)) && |splits[index].actions| > 0 &&
                r == Ok(NamedValue(splits[index].GetName(),
                                   Convert(Ledger.SplitTimes(Stamps(splits))[index], unit),
                                   UnitName(unit))) &&
                splitTimes == Some(Ledger.SplitTimes(Stamps(splits)))
    {
      if timerState == Stopped {
        if index < 0 || index >= |splits| - 1 {
          r := Err(IllegalArgument(index, |splits| - 1));
        } else {
          var times := SplitTimes();
          r := Ok(NamedValue(splits[index].GetName(), Convert(times.value[index], unit), UnitName(unit)));
        }
      } else {
        r := Err(IllegalState);
      }
    }

    /** splitPeriods(): only when STOPPED; the net duration of each segment
        but the last, computed once. They add up to the elapsed time, the
        first i + 1 of them to split time i, and none is negative. */
    method SplitPeriods() returns (r: Result<seq<int>>)
      requires Valid()
      modifies this`splitPeriods
      ensures Valid()
      ensures timerState == Stopped ==>
                Closed(Stamps(splits)) && r == Ok(Ledger.SplitPeriods(Stamps(splits))) &&
                splitPeriods == Some(r.value) &&
                |r.value| == |splits| - 1 && Sum(r.value) == Elapsed(Stamps(splits)) &&
                (forall i :: 0 <= i < |r.value| ==>
                   Sum(r.value[..i + 1]) == Ledger.SplitTimes(Stamps(splits))[i] && r.value[i] >= 0)
      ensures timerState != Stopped ==> r == Err(IllegalState) && splitPeriods == old(splitPeriods)
    {
      if timerState == Stopped {
        ghost var log := Stamps(splits);
        if splitPeriods.None? {
          var periods := ComputeSplitPeriods(splits);
          splitPeriods := Some(periods);
        }
        PeriodsSumToElapsed(log);
        MetricsNonNegative(log);
        forall i | 0 <= i < |splits| - 1
          ensures Sum(Ledger.SplitPeriods(log)[..i + 1]) == Ledger.SplitTimes(log)[i]
        {
          SplitTimeIsPrefixSum(log, i);
        }
        r := Ok(splitPeriods.value);
      } else {
        r := Err(IllegalState);
      }
    }

    /** splitPeriods(timeUnit): every split period converted to `unit`. */
    method SplitPeriodsIn(unit: TimeUnit) returns (r: Result<seq<int>>)
      requires Valid()
      modifies this`splitPeriods
      ensures Valid()
      ensures timerState == Stopped ==>
                Closed(Stamps(splits)) &&
                r == Ok(ConvertAll(Ledger.SplitPeriods(Stamps(splits)), unit)) &&
                splitPeriods == Some(Ledger.SplitPeriods(Stamps(splits)))
      ensures timerState != Stopped ==> r == Err(IllegalState) && splitPeriods == old(splitPeriods)
    {
      if timerState == Stopped {
        var periods := SplitPeriods();
        var converted := TimeUnits.ConvertEach(periods.value, unit);
        r := Ok(converted);
      } else {
        r := Err(IllegalState);
      }
    }

    /** splitPeriod(index, timeUnit): split period `index`, converted; the
        state is checked first, then 0 <= index < |splits| - 1. */
    method SplitPeriod(index: int, unit: TimeUnit) returns (r: Result<int>)
      requires Valid()
      modifies this`splitPeriods
      ensures Valid()
      ensures timerState != Stopped ==> r == Err(IllegalState) && splitPeriods == old(splitPeriods)
      ensures timerState == Stopped && (index < 0 || index >= |splits| - 1) ==>
                r == Err(IllegalArgument(index, |splits| - 1)) && splitPeriods == old(splitPeriods)
      ensures timerState == Stopped && 0 <= index < |splits| - 1 ==>
                Closed(Stamps(splits)) &&
                r == Ok(Convert(Ledger.SplitPeriods(Stamps(splits))[index], unit)) &&
                splitPeriods == Some(Ledger.SplitPeriods(Stamps(splits)))
    {
      if timerState == Stopped {
        if index < 0 || index >= |splits| - 1 {
          r := Err(IllegalArgument(index, |splits| - 1));
        } else {
          var periods := SplitPeriods();
          r := Ok(Convert(periods.value[index], unit));
        }
      } else {
        r := Err(IllegalState);
      }
    }

    /** splitPeriodWithName(index, timeUnit): as SplitPeriod, labelled with the
        name of segment `index` and the unit's name. */
    method SplitPeriodWithName(index: int, unit: TimeUnit) returns (r: Result<NamedValue>)
      requires Valid()
      modifies this`splitPeriods
      ensures Valid()
      ensures timerState != Stopped ==> r == Err(IllegalState) && splitPeriods == old(splitPeriods)
      ensures timerState == Stopped && (index < 0 || index >= |splits| - 1) ==>
                r == Err(IllegalArgument(index, |splits| - 1)) && splitPeriods == old(splitPeriods)
      ensures timerState == Stopped && 0 <= index < |splits| - 1 ==>
                Closed(Stamps(splits)) && |splits[index].actions| > 0 &&
                r == Ok(NamedValue(splits[index].GetName(),
                                   Convert(Ledger.SplitPeriods(Stamps(splits))[index], unit),
                                   UnitName(unit))) &&
                splitPeriods == Some(Ledger.SplitPeriods(Stamps(splits)))
    {
      if timerState == Stopped {
        if index < 0 || index >= |splits| - 1 {
          r := Err(IllegalArgument(index, |splits| - 1));
        } else {
          var periods := SplitPeriods();
          r := Ok(NamedValue(splits[index].GetName(), Convert(periods.value[index], unit), UnitName(unit)));
        }
      } else {
        r := Err(IllegalState);
      }
    }

    /** toString() while not stopped: "timer " followed by the state's label.
        None stands for the stopped-state report, which is not modelled. */
    function Describe(): (r: Option<string>)
      reads this
      ensures r.Some? <==> timerState != Stopped
      ensures r.Some? ==> r.value == "timer " + NanoStateLabel(timerState)
    {
      if timerState != Stopped then Some("timer " + NanoStateLabel(timerState)) else None
    }
  }
}
