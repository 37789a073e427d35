/** Timer: the earlier variant of NanoTimer. Its log is a list of timestamp
    lists (one per segment) with a separate flat list of the actions, one per
    timestamp; nothing is memoised, split is refused while paused, and reset
    only changes the state.

    The clock is the parameter `now`, no earlier than any recorded timestamp
    (`ClockNotBefore`); exceptions are returned as `Fail`/`Err` values. */
module TimerModel {
  import opened Outcomes
  import opened TimerLabels
  import opened TimeUnits
  import opened Ledger

  /** The shape of the timestamp log in each state, as for NanoTimer. */
  predicate Shape(splits: Log, state: TimerState)
  {
    match state
    case Uninitialised => true
    case Running => Open(splits, false)
    case Paused => Open(splits, true)
    case Stopped => Closed(splits) && |splits[|splits| - 1]| == 1
  }

  /** The object invariant of a Timer with log `splits`, `n` recorded
      actions and state `state`: the log has the shape of its state, its
      timestamps never decrease, every segment but the last holds complete
      pause/resume pairs (also after a reset), and there is exactly one
      action per recorded timestamp. */
  predicate Consistent(splits: Log, n: nat, state: TimerState)
    ensures Consistent(splits, n, state) && state != Uninitialised ==>
              1 <= |splits| <= n && forall i :: 0 <= i < |splits| ==> |splits[i]| >= 1
  {
    && Shape(splits, state)
    && Monotone(splits)
    && PairableExceptLast(splits)
    && n == Count(splits)
  }

  /** pause from RUNNING and resume from PAUSED keep the invariant, with the
      state flipped and the new timestamp the latest. */
  lemma StampKeepsConsistent(splits: Log, n: nat, paused: bool, t: int)
    requires Consistent(splits, n, if paused then Paused else Running) && Latest(splits) <= t
    ensures Consistent(AppendToLast(splits, t), n + 1, if paused then Running else Paused)
    ensures Latest(AppendToLast(splits, t)) == t
  {
    CountAppendToLast(splits, t);
    AppendToLastMonotone(splits, t);
    AppendToLastFlipsOpen(splits, t, paused);
  }

  /** split and stop from RUNNING keep the invariant. */
  lemma SegmentKeepsConsistent(splits: Log, n: nat, stop: bool, t: int)
    requires Consistent(splits, n, Running) && Latest(splits) <= t
    ensures Consistent(splits + [[t]], n + 1, if stop then Stopped else Running)
  {
    CountAppendSegment(splits, t);
    AppendSegmentMonotone(splits, t);
    AppendSegmentOpen(splits, t);
  }

  class Timer {
    var splits: Log
    var timerActions: seq<TimerAction>
    var timerState: TimerState

    ghost predicate Valid()
      reads this
      ensures Valid() && timerState != Uninitialised ==> 1 <= |splits| <= |timerActions|
    {
      Consistent(splits, |timerActions|, timerState)
    }

    /** `now` is no earlier than the most recent recorded timestamp. */
    ghost predicate ClockNotBefore(now: int)
      reads this
      ensures ClockNotBefore(now) && Monotone(splits) && (forall i :: 0 <= i < |splits| ==> |splits[i]| > 0) ==>
                forall i, j :: 0 <= i < |splits| && 0 <= j < |splits[i]| ==> splits[i][j] <= now
    {
      ClockAfterAll(splits, now);
      |splits| > 0 && |splits[|splits| - 1]| > 0 ==> Latest(splits) <= now
    }

    /** newTimer(); before the first start both lists are empty (null in Java). */
    constructor ()
      ensures Valid()
      ensures timerState == Uninitialised && splits == [] && timerActions == []
    {
      splits := [];
      timerActions := [];
      timerState := Uninitialised;
    }

    /** start(): only from UNINITIALISED; replaces the log with [[now]] and
        the action list with [START]. */
    method Start(now: int) returns (o: Outcome)
      requires Valid()
      modifies this
      ensures Valid()
      ensures old(timerState) == Uninitialised ==>
                o == Pass && timerState == Running && splits == [[now]] && timerActions == [TimerAction.Start]
      ensures old(timerState) != Uninitialised ==>
                o == Fail(IllegalState) && timerState == old(timerState) &&
                splits == old(splits) && timerActions == old(timerActions)
    {
      if timerState == Uninitialised {
        splits := [[now]];
        timerActions := [TimerAction.Start];
        timerState := Running;
        assert Count(splits) == 1 by { assert splits[..0] == []; }
        o := Pass;
      } else {
        o := Fail(IllegalState);
      }
    }

    /** split(): only from RUNNING (PAUSED is refused too); opens a segment
        [now] and records SPLIT. */
    method Split(now: int) returns (o: Outcome)
      requires Valid() && ClockNotBefore(now)
      modifies this
      ensures Valid()
      ensures old(timerState) == Running ==>
                o == Pass && timerState == Running &&
                splits == old(splits) + [[now]] && timerActions == old(timerActions) + [TimerAction.Split]
      ensures old(timerState) != Running ==>
                o == Fail(IllegalState) && timerState == old(timerState) &&
                splits == old(splits) && timerActions == old(timerActions)
    {
      if timerState == Running {
        OpenSegment(now, TimerAction.Split);
        o := Pass;
      } else {
        o := Fail(IllegalState);
      }
    }

    /** Appends the segment [now] and records `a` (SPLIT or STOP). */
    method OpenSegment(now: int, a: TimerAction)
      requires Valid() && ClockNotBefore(now) && timerState == Running
      requires a == TimerAction.Split || a == TimerAction.Stop
      modifies this
      ensures Valid()
      ensures timerState == (if a == TimerAction.Stop then Stopped else Running)
      ensures splits == old(splits) + [[now]] && timerActions == old(timerActions) + [a]
    {
      SegmentKeepsConsistent(splits, |timerActions|, a == TimerAction.Stop, now);
      splits := splits + [[now]];
      timerActions := timerActions + [a];
      if a == TimerAction.Stop {
        timerState := Stopped;
      }
    }

    /** Appends `now` to the current segment, records `a` (PAUSE or RESUME)
        and flips the state between RUNNING and PAUSED. */
    method AppendStamp(now: int, a: TimerAction)
      requires Valid() && ClockNotBefore(now) && (timerState == Running || timerState == Paused)
      modifies this
      ensures Valid() && ClockNotBefore(now)
      ensures timerState == (if old(timerState) == Paused then Running else Paused)
      ensures |old(splits)| > 0 && splits == AppendToLast(old(splits), now)
      ensures timerActions == old(timerActions) + [a]
    {
      var paused := timerState == Paused;
      StampKeepsConsistent(splits, |timerActions|, paused, now);
      splits := AppendToLast(splits, now);
      timerActions := timerActions + [a];
      timerState := if paused then Running else Paused;
    }

    /** pause(): from RUNNING appends now to the current segment and records
        PAUSE; from PAUSED does nothing; otherwise fails. */
    method Pause(now: int) returns (o: Outcome)
      requires Valid() && ClockNotBefore(now)
      modifies this
      ensures Valid()
      ensures old(timerState) == Running ==>
                o == Pass && timerState == Paused &&
                splits == AppendToLast(old(splits), now) && timerActions == old(timerActions) + [TimerAction.Pause]
      ensures old(timerState) == Paused ==>
                o == Pass && timerState == Paused && splits == old(splits) && timerActions == old(timerActions)
      ensures old(timerState) == Uninitialised || old(timerState) == Stopped ==>
                o == Fail(IllegalState) && timerState == old(timerState) &&
                splits == old(splits) && timerActions == old(timerActions)
    {
      if timerState == Running {
        AppendStamp(now, TimerAction.Pause);
        o := Pass;
      } else if timerState != Paused {
        o := Fail(IllegalState);
      } else {
        o := Pass;
      }
    }

    /** resume(): from PAUSED appends now to the current segment and records
        RESUME; from RUNNING does nothing; otherwise fails. */
    method Resume(now: int) returns (o: Outcome)
      requires Valid() && ClockNotBefore(now)
      modifies this
      ensures Valid()
      ensures old(timerState) == Paused ==>
                o == Pass && timerState == Running &&
                splits == AppendToLast(old(splits), now) && timerActions == old(timerActions) + [TimerAction.Resume]
      ensures old(timerState) == Running ==>
                o == Pass && timerState == Running && splits == old(splits) && timerActions == old(timerActions)
      ensures old(timerState) == Uninitialised || old(timerState) == Stopped ==>
                o == Fail(IllegalState) && timerState == old(timerState) &&
                splits == old(splits) && timerActions == old(timerActions)
    {
      if timerState == Paused {
        AppendStamp(now, TimerAction.Resume);
        o := Pass;
      } else if timerState != Running {
        o := Fail(IllegalState);
      } else {
        o := Pass;
      }
    }

    /** stop(): from PAUSED first appends now to the current segment and
        records RESUME; from RUNNING or PAUSED then opens the segment [now],
        records STOP and stops. From UNINITIALISED or STOPPED it fails. */
    method Stop(now: int) returns (o: Outcome)
      requires Valid() && ClockNotBefore(now)
      modifies this
      ensures Valid()
      ensures old(timerState) == Paused ==>
                o == Pass && timerState == Stopped &&
                splits == AppendToLast(old(splits), now) + [[now]] &&
                timerActions == old(timerActions) + [TimerAction.Resume, TimerAction.Stop]
      ensures old(timerState) == Running ==>
                o == Pass && timerState == Stopped &&
                splits == old(splits) + [[now]] && timerActions == old(timerActions) + [TimerAction.Stop]
      ensures old(timerState) == Uninitialised || old(timerState) == Stopped ==>
                o == Fail(IllegalState) && timerState == old(timerState) &&
                splits == old(splits) && timerActions == old(timerActions)
    {
      if timerState == Paused {
        ResumeThenStop(now);
        o := Pass;
      } else if timerState == Running {
        OpenSegment(now, TimerAction.Stop);
        o := Pass;
      } else {
        o := Fail(IllegalState);
      }
    }

    /** The PAUSED path of stop(): RESUME at now, then the STOP segment. */
    method ResumeThenStop(now: int)
      requires Valid() && ClockNotBefore(now) && timerState == Paused
      modifies this
      ensures Valid() && timerState == Stopped
      ensures splits == AppendToLast(old(splits), now) + [[now]]
      ensures timerActions == old(timerActions) + [TimerAction.Resume, TimerAction.Stop]
    {
      ghost var before := timerActions;
      AppendStamp(now, TimerAction.Resume);
      OpenSegment(now, TimerAction.Stop);
      assert timerActions == before + [TimerAction.Resume] + [TimerAction.Stop];
    }

    /** reset(): only the state changes; both logs are kept. */
    method Reset()
      requires Valid()
      modifies this
      ensures Valid()
      ensures timerState == Uninitialised && splits == old(splits) && timerActions == old(timerActions)
    {
      timerState := Uninitialised;
    }

    /** calcPauses(actions): sums actions[i + 1] - actions[i] for i = 1, 3, ...
        A list of even, non-zero length makes the last read fall past its end
        (IndexOutOfBoundsException), reported here as None. */
    static method CalcPauses(actions: seq<int>) returns (r: Option<int>)
      ensures r.None? <==> |actions| % 2 == 0 && |actions| > 0
      ensures r.Some? ==> Pairable(actions) && r.value == PauseTime(actions)
    {
      ghost var k := 0;
      var pauseTime := 0;
      var i := 1;
      while i < |actions|
        invariant i == 2 * k + 1
        invariant 2 * k < |actions| || k == 0
        invariant pauseTime == PairSum(actions, k)
      {
        if i + 1 >= |actions| {
          return None;
        }
        pauseTime := pauseTime + (actions[i + 1] - actions[i]);
        i := i + 2;
        k := k + 1;
      }
      r := Some(pauseTime);
    }

    /** calcAllPauses(): the pause time of every segment but the last; in
        every state the pair loop stays in bounds. */
    method CalcAllPauses() returns (totalPauses: int)
      requires Valid()
      ensures totalPauses == AllPauses(splits)
    {
      totalPauses := 0;
      var i := 0;
      while i < |splits| - 1
        invariant 0 <= i <= |splits| - 1 || (splits == [] && i == 0)
        invariant totalPauses == PausesBefore(splits, i)
      {
        var p := CalcPauses(splits[i]);
        totalPauses := totalPauses + p.value;
        i := i + 1;
      }
    }

    /** elapsedTime(): only when STOPPED; stop boundary minus start boundary
        minus the pauses, recomputed on every call; never negative. */
    method ElapsedTime() returns (r: Result<int>)
      requires Valid()
      ensures timerState == Stopped ==> Closed(splits) && r == Ok(Elapsed(splits)) && r.value >= 0
      ensures timerState != Stopped ==> r == Err(IllegalState)
    {
      if timerState == Stopped {
        var allPauses := CalcAllPauses();
        MetricsNonNegative(splits);
        r := Ok(splits[|splits| - 1][0] - splits[0][0] - allPauses);
      } else {
        r := Err(IllegalState);
      }
    }

    /** elapsedTime(timeUnit): the elapsed time converted to `unit`. */
    method ElapsedTimeIn(unit: TimeUnit) returns (r: Result<int>)
      requires Valid()
      ensures timerState == Stopped ==> Closed(splits) && r == Ok(Convert(Elapsed(splits), unit))
      ensures timerState != Stopped ==> r == Err(IllegalState)
    {
      if timerState == Stopped {
        var e := ElapsedTime();
        r := Ok(Convert(e.value, unit));
      } else {
        r := Err(IllegalState);
      }
    }

    /** splitTimes(): only when STOPPED; one cumulative time per boundary
        after the start, net of the pauses so far. The last one is the
        elapsed time and none is negative. */
    method SplitTimes() returns (r: Result<seq<int>>)
      requires Valid()
      ensures timerState == Stopped ==>
                Closed(splits) && r == Ok(Ledger.SplitTimes(splits)) &&
                |r.value| == |splits| - 1 && r.value[|splits| - 2] == Elapsed(splits) &&
                forall i :: 0 <= i < |r.value| ==> r.value[i] >= 0
      ensures timerState != Stopped ==> r == Err(IllegalState)
    {
      if timerState == Stopped {
        var times := new int[|splits| - 1];
        var startTime := splits[0][0];
        var totalPauses := 0;
        var i := 1;
        while i < |splits|
          invariant 1 <= i <= |splits|
          invariant totalPauses == PausesBefore(splits, i - 1)
          invariant forall j :: 0 <= j < i - 1 ==> times[j] == Ledger.SplitTime(splits, j)
        {
          var p := CalcPauses(splits[i - 1]);
          totalPauses := totalPauses + p.value;
          times[i - 1] := splits[i][0] - startTime - totalPauses;
          i := i + 1;
        }
        assert times[..] == Ledger.SplitTimes(splits);
        LastSplitTimeIsElapsed(splits);
        MetricsNonNegative(splits);
        r := Ok(times[..]);
      } else {
        r := Err(IllegalState);
      }
    }

    /** splitTimes(timeUnit): every split time converted to `unit`. */
    method SplitTimesIn(unit: TimeUnit) returns (r: Result<seq<int>>)
      requires Valid()
      ensures timerState == Stopped ==> Closed(splits) && r == Ok(ConvertAll(Ledger.SplitTimes(splits), unit))
      ensures timerState != Stopped ==> r == Err(IllegalState)
    {
      if timerState == Stopped {
        var times := SplitTimes();
        var converted := TimeUnits.ConvertEach(times.value, unit);
        r := Ok(converted);
      } else {
        r := Err(IllegalState);
      }
    }

    /** splitPeriods(): only when STOPPED; the net duration of each segment but
        the last. They add up to the elapsed time and none is negative. */
    method SplitPeriods() returns (r: Result<seq<int>>)
      requires Valid()
      ensures timerState == Stopped ==>
                Closed(splits) && r == Ok(Ledger.SplitPeriods(splits)) &&
                |r.value| == |splits| - 1 && Sum(r.value) == Elapsed(splits) &&
                forall i :: 0 <= i < |r.value| ==> r.value[i] >= 0
      ensures timerState != Stopped ==> r == Err(IllegalState)
    {
      if timerState == Stopped {
        var periods := new int[|splits| - 1];
        var i := 1;
        while i < |splits|
          invariant 1 <= i <= |splits|
          invariant forall j :: 0 <= j < i - 1 ==> periods[j] == Ledger.SplitPeriod(splits, j)
        {
          var p := CalcPauses(splits[i - 1]);
          periods[i - 1] := splits[i][0] - splits[i - 1][0] - p.value;
          i := i + 1;
        }
        assert periods[..] == Ledger.SplitPeriods(splits);
        PeriodsSumToElapsed(splits);
        MetricsNonNegative(splits);
        r := Ok(periods[..]);
      } else {
        r := Err(IllegalState);
      }
    }

    /** splitPeriods(timeUnit): every split period converted to `unit`. */
    method SplitPeriodsIn(unit: TimeUnit) returns (r: Result<seq<int>>)
      requires Valid()
      ensures timerState == Stopped ==> Closed(splits) && r == Ok(ConvertAll(Ledger.SplitPeriods(splits), unit))
      ensures timerState != Stopped ==> r == Err(IllegalState)
    {
      if timerState == Stopped {
        var periods := SplitPeriods();
        var converted := TimeUnits.ConvertEach(periods.value, unit);
        r := Ok(converted);
      } else {
        r := Err(IllegalState);
      }
    }

    /** toString() while not stopped: "timer " followed by the state's name in
        lower case. None stands for the stopped-state report, which is not
        modelled. */
    function Describe(): (r: Option<string>)
      reads this
      ensures r.Some? <==> timerState != Stopped
      ensures r.Some? ==> r.value == "timer " + StateLabel(timerState)
    {
      if timerState != Stopped then Some("timer " + StateLabel(timerState)) else None
    }
  }
}
