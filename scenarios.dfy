/** Concrete runs of both timers. Each clock reading is the sum of the
    delays the repository's scenarios wait between actions (50 ms each,
    50_000_000 ns); the reports are in microseconds, as the scenarios
    print them. */
module Scenarios {
  import opened Outcomes
  import opened NanoLabels
  import opened TimeUnits
  import opened Ledger
  import opened NanoLog
  import opened NanoTimerModel
  import TimerLabels
  import TimerModel

  /** What a scenario observes: the state after each action, then the
      elapsed time, split times and split periods in microseconds. */
  datatype Report = Report(states: seq<NanoTimerState>, elapsed: Result<int>, times: Result<seq<int>>, periods: Result<seq<int>>)

  /** The report the metric accessors give for a stopped ledger. */
  function Expected(states: seq<NanoTimerState>, log: Log): Report
    requires Closed(log)
  {
    Report(states,
           Ok(Convert(Elapsed(log), Microseconds)),
           Ok(ConvertAll(SplitTimes(log), Microseconds)),
           Ok(ConvertAll(SplitPeriods(log), Microseconds)))
  }

  /** The three metric reports of a stopped timer, in microseconds. */
  method Measure(t: NanoTimer, states: seq<NanoTimerState>) returns (report: Report)
    requires t.Valid() && t.timerState == Stopped
    modifies t
    ensures t.Valid() && t.splits == old(t.splits) && t.timerState == Stopped
    ensures Closed(Stamps(t.splits)) && report == Expected(states, Stamps(t.splits))
  {
    var e := t.ElapsedTimeIn(Microseconds);
    var ts := t.SplitTimesIn(Microseconds);
    var ps := t.SplitPeriodsIn(Microseconds);
    report := Report(states, e, ts, ps);
  }

  /** A fresh, reset timer started at time 0. */
  method Started(name: string) returns (t: NanoTimer, states: seq<NanoTimerState>)
    ensures fresh(t) && t.Valid() && t.timerState == Running && t.ClockNotBefore(0)
    ensures Stamps(t.splits) == [] + [[0]] && |t.splits| == 1
    ensures states == [Running]
  {
    t := new NanoTimer(name);
    t.Reset();
    var o := t.Start(None, 0);
    StartShape(None, 0);
    states := [t.timerState];
  }

  // ---------------------------------------------------------------------
  // The stopped ledgers of the seven scenarios and their metrics. Each
  // ledger and state list is written the way the actions build it, one
  // concatenation per action (`[] + [[0]] + [[50_000_000] + [100_000_000]]`),
  // because that is the exact form the step methods' postconditions hand on.
  // Each lemma below evaluates that form once, step by step; folding the
  // literal lists inside every scenario method instead makes the verifier
  // re-derive the same sequence equalities many times over.

  /** One segment paused at 50 ms and resumed at 100 ms, stopped at `stop`. */
  lemma PausedOnceLedger(log: Log, stop: int)
    requires log == [[0, 50_000_000, 100_000_000], [stop]]
    ensures Closed(log) && Elapsed(log) == stop - 50_000_000
    ensures SplitTimes(log) == [stop - 50_000_000] && SplitPeriods(log) == [stop - 50_000_000]
  {
    assert PairSum(log[0], 1) == 50_000_000;
    assert PausesBefore(log, 1) == 50_000_000;
  }

  /** A first segment of 50 ms, then one paused at 100 ms and resumed at
      150 ms, stopped at `stop`. */
  lemma SplitPausedOnceLedger(log: Log, stop: int)
    requires log == [[0], [50_000_000, 100_000_000, 150_000_000], [stop]]
    ensures Closed(log)
    ensures SplitTimes(log) == [50_000_000, stop - 50_000_000]
    ensures SplitPeriods(log) == [50_000_000, stop - 100_000_000]
  {
    assert PairSum(log[1], 1) == 50_000_000;
    assert PausesBefore(log, 1) == 0;
    assert PausesBefore(log, 2) == 50_000_000;
  }

  lemma StartStopMetrics()
    ensures Closed([] + [[0]] + [[50_000_000]]) && Elapsed([] + [[0]] + [[50_000_000]]) == 50_000_000
    ensures Expected([Running] + [Stopped], [] + [[0]] + [[50_000_000]])
         == Report([Running, Stopped], Ok(50_000), Ok([50_000]), Ok([50_000]))
  {
    var log := [[0], [50_000_000]];
    assert [] + [[0]] + [[50_000_000]] == log;
    assert [Running] + [Stopped] == [Running, Stopped];
    assert PausesBefore(log, 1) == 0;
    assert SplitTimes(log) == [50_000_000];
    assert SplitPeriods(log) == [50_000_000];
    assert ConvertAll([50_000_000], Microseconds) == [50_000];
  }

  lemma StartSplitStopMetrics()
    ensures Closed([] + [[0]] + [[50_000_000]] + [[100_000_000]])
    ensures Expected([Running] + [Running] + [Stopped], [] + [[0]] + [[50_000_000]] + [[100_000_000]])
         == Report([Running, Running, Stopped], Ok(100_000), Ok([50_000, 100_000]), Ok([50_000, 50_000]))
  {
    var log := [[0], [50_000_000], [100_000_000]];
    assert [] + [[0]] + [[50_000_000]] + [[100_000_000]] == log;
    assert [Running] + [Running] + [Stopped] == [Running, Running, Stopped];
    assert PausesBefore(log, 1) == 0;
    assert PausesBefore(log, 2) == 0;
    assert SplitTimes(log) == [50_000_000, 100_000_000];
    assert SplitPeriods(log) == [50_000_000, 50_000_000];
    assert ConvertAll([50_000_000, 100_000_000], Microseconds) == [50_000, 100_000];
    assert ConvertAll([50_000_000, 50_000_000], Microseconds) == [50_000, 50_000];
  }

  lemma StartPauseResumeStopMetrics()
    ensures Closed([] + [[0] + [50_000_000] + [100_000_000]] + [[150_000_000]])
    ensures Expected([Running] + [Paused] + [Running] + [Stopped], [] + [[0] + [50_000_000] + [100_000_000]] + [[150_000_000]])
         == Report([Running, Paused, Running, Stopped], Ok(100_000), Ok([100_000]), Ok([100_000]))
  {
    var log := [[0, 50_000_000, 100_000_000], [150_000_000]];
    assert [0] + [50_000_000] == [0, 50_000_000];
    assert [0, 50_000_000] + [100_000_000] == [0, 50_000_000, 100_000_000];
    assert [] + [[0] + [50_000_000] + [100_000_000]] + [[150_000_000]] == log;
    assert [Running] + [Paused] + [Running] + [Stopped] == [Running, Paused, Running, Stopped];
    PausedOnceLedger(log, 150_000_000);
    assert ConvertAll([100_000_000], Microseconds) == [100_000];
  }

  lemma StartPauseStopMetrics()
    ensures Closed([] + [[0] + [50_000_000] + [100_000_000]] + [[100_000_000]])
    ensures Expected([Running] + [Paused] + [Stopped], [] + [[0] + [50_000_000] + [100_000_000]] + [[100_000_000]])
         == Report([Running, Paused, Stopped], Ok(50_000), Ok([50_000]), Ok([50_000]))
  {
    var log := [[0, 50_000_000, 100_000_000], [100_000_000]];
    assert [0] + [50_000_000] == [0, 50_000_000];
    assert [0, 50_000_000] + [100_000_000] == [0, 50_000_000, 100_000_000];
    assert [] + [[0] + [50_000_000] + [100_000_000]] + [[100_000_000]] == log;
    assert [Running] + [Paused] + [Stopped] == [Running, Paused, Stopped];
    PausedOnceLedger(log, 100_000_000);
    assert ConvertAll([50_000_000], Microseconds) == [50_000];
  }

  lemma StartSplitPauseResumeStopMetrics()
    ensures Closed([] + [[0]] + [[50_000_000] + [100_000_000] + [150_000_000]] + [[200_000_000]])
    ensures Expected([Running] + [Running] + [Paused] + [Running] + [Stopped],
                     [] + [[0]] + [[50_000_000] + [100_000_000] + [150_000_000]] + [[200_000_000]])
         == Report([Running, Running, Paused, Running, Stopped], Ok(150_000), Ok([50_000, 150_000]), Ok([50_000, 100_000]))
  {
    var log := [[0], [50_000_000, 100_000_000, 150_000_000], [200_000_000]];
    assert [50_000_000] + [100_000_000] == [50_000_000, 100_000_000];
    assert [50_000_000, 100_000_000] + [150_000_000] == [50_000_000, 100_000_000, 150_000_000];
    assert [] + [[0]] + [[50_000_000] + [100_000_000] + [150_000_000]] + [[200_000_000]] == log;
    assert [Running] + [Running] + [Paused] + [Running] + [Stopped] == [Running, Running, Paused, Running, Stopped];
    SplitPausedOnceLedger(log, 200_000_000);
    assert ConvertAll([50_000_000, 150_000_000], Microseconds) == [50_000, 150_000];
    assert ConvertAll([50_000_000, 100_000_000], Microseconds) == [50_000, 100_000];
  }

  lemma StartSplitPauseStopMetrics()
    ensures Closed([] + [[0]] + [[50_000_000] + [100_000_000] + [150_000_000]] + [[150_000_000]])
    ensures Expected([Running] + [Running] + [Paused] + [Stopped],
                     [] + [[0]] + [[50_000_000] + [100_000_000] + [150_000_000]] + [[150_000_000]])
         == Report([Running, Running, Paused, Stopped], Ok(100_000), Ok([50_000, 100_000]), Ok([50_000, 50_000]))
  {
    var log := [[0], [50_000_000, 100_000_000, 150_000_000], [150_000_000]];
    assert [50_000_000] + [100_000_000] == [50_000_000, 100_000_000];
    assert [50_000_000, 100_000_000] + [150_000_000] == [50_000_000, 100_000_000, 150_000_000];
    assert [] + [[0]] + [[50_000_000] + [100_000_000] + [150_000_000]] + [[150_000_000]] == log;
    assert [Running] + [Running] + [Paused] + [Stopped] == [Running, Running, Paused, Stopped];
    SplitPausedOnceLedger(log, 150_000_000);
    assert ConvertAll([50_000_000, 100_000_000], Microseconds) == [50_000, 100_000];
    assert ConvertAll([50_000_000, 50_000_000], Microseconds) == [50_000, 50_000];
  }

  /** The ledger of scenario 7: split1 paused twice for 50 ms, split2 once. */
  lemma TwoSplitsLedger(log: Log)
    requires log == [[0], [50_000_000, 100_000_000, 150_000_000, 200_000_000, 250_000_000],
                     [300_000_000, 350_000_000, 400_000_000], [450_000_000]]
    ensures Closed(log)
    ensures SplitTimes(log) == [50_000_000, 200_000_000, 300_000_000]
    ensures SplitPeriods(log) == [50_000_000, 150_000_000, 100_000_000]
  {
    assert PairSum(log[1], 1) == 50_000_000;
    assert PairSum(log[1], 2) == 100_000_000;
    assert PairSum(log[2], 1) == 50_000_000;
    assert PausesBefore(log, 1) == 0;
    assert PausesBefore(log, 2) == 100_000_000;
    assert PausesBefore(log, 3) == 150_000_000;
  }

  lemma TwoSplitsWithPausesMetrics()
    ensures Closed([] + [[0]] + [[50_000_000] + [100_000_000] + [150_000_000] + [200_000_000] + [250_000_000]]
                   + [[300_000_000] + [350_000_000] + [400_000_000]] + [[450_000_000]])
    ensures Expected([Running] + [Running] + [Paused] + [Running] + [Paused] + [Running] + [Running] + [Paused] + [Running] + [Stopped],
                     [] + [[0]] + [[50_000_000] + [100_000_000] + [150_000_000] + [200_000_000] + [250_000_000]]
                     + [[300_000_000] + [350_000_000] + [400_000_000]] + [[450_000_000]])
         == Report([Running, Running, Paused, Running, Paused, Running, Running, Paused, Running, Stopped],
                   Ok(300_000), Ok([50_000, 200_000, 300_000]), Ok([50_000, 150_000, 100_000]))
  {
    var log := [[0], [50_000_000, 100_000_000, 150_000_000, 200_000_000, 250_000_000],
                [300_000_000, 350_000_000, 400_000_000], [450_000_000]];
    assert [50_000_000] + [100_000_000] == [50_000_000, 100_000_000];
    assert [50_000_000, 100_000_000] + [150_000_000] == [50_000_000, 100_000_000, 150_000_000];
    assert [50_000_000, 100_000_000, 150_000_000] + [200_000_000] == [50_000_000, 100_000_000, 150_000_000, 200_000_000];
    assert [50_000_000, 100_000_000, 150_000_000, 200_000_000] + [250_000_000] == [50_000_000, 100_000_000, 150_000_000, 200_000_000, 250_000_000];
    assert [300_000_000] + [350_000_000] == [300_000_000, 350_000_000];
    assert [300_000_000, 350_000_000] + [400_000_000] == [300_000_000, 350_000_000, 400_000_000];
    assert [] + [[0]] + [[50_000_000] + [100_000_000] + [150_000_000] + [200_000_000] + [250_000_000]]
           + [[300_000_000] + [350_000_000] + [400_000_000]] + [[450_000_000]] == log;
    assert [Running] + [Running] + [Paused] + [Running] + [Paused] + [Running] + [Running] + [Paused] + [Running] + [Stopped]
        == [Running, Running, Paused, Running, Paused, Running, Running, Paused, Running, Stopped];
    TwoSplitsLedger(log);
    assert ConvertAll([50_000_000, 200_000_000, 300_000_000], Microseconds) == [50_000, 200_000, 300_000];
    assert ConvertAll([50_000_000, 150_000_000, 100_000_000], Microseconds) == [50_000, 150_000, 100_000];
  }

  // ---------------------------------------------------------------------
  // One action at a time, seen through the timestamp ledger: `done` holds
  // the closed segments, `current` the timestamps of the current one

  method SplitStep(t: NanoTimer, name: Option<string>, ghost done: Log, ghost current: seq<int>, now: int)
    requires t.Valid() && t.timerState == Running
    requires Stamps(t.splits) == done + [current] && |current| > 0 && current[|current| - 1] <= now
    modifies t
    ensures t.Valid() && t.timerState == Running
    ensures Stamps(t.splits) == done + [current] + [[now]]
  {
    ghost var s := t.splits;
    var o := t.Split(name, now);
    StampsAppendSegment(s, name, NanoTimerAction.Split, now);
  }

  method PauseStep(t: NanoTimer, ghost done: Log, ghost current: seq<int>, now: int)
    requires t.Valid() && t.timerState == Running
    requires Stamps(t.splits) == done + [current] && |current| > 0 && current[|current| - 1] <= now
    modifies t
    ensures t.Valid() && t.timerState == Paused
    ensures Stamps(t.splits) == done + [current + [now]]
  {
    ghost var s := t.splits;
    var o := t.Pause(now);
    StampsAppendEvent(s, NanoTimerAction.Pause, now);
    assert AppendToLast(done + [current], now)[..|done|] == done;
  }

  method ResumeStep(t: NanoTimer, ghost done: Log, ghost current: seq<int>, now: int)
    requires t.Valid() && t.timerState == Paused
    requires Stamps(t.splits) == done + [current] && |current| > 0 && current[|current| - 1] <= now
    modifies t
    ensures t.Valid() && t.timerState == Running
    ensures Stamps(t.splits) == done + [current + [now]]
  {
    ghost var s := t.splits;
    var o := t.Resume(now);
    StampsAppendEvent(s, NanoTimerAction.Resume, now);
    assert AppendToLast(done + [current], now)[..|done|] == done;
  }

  method StopStep(t: NanoTimer, ghost done: Log, ghost current: seq<int>, now: int)
    requires t.Valid() && (t.timerState == Running || t.timerState == Paused)
    requires Stamps(t.splits) == done + [current] && |current| > 0 && current[|current| - 1] <= now
    modifies t
    ensures t.Valid() && t.timerState == Stopped
    ensures old(t.timerState) == Running ==> Stamps(t.splits) == done + [current] + [[now]]
    ensures old(t.timerState) == Paused ==> Stamps(t.splits) == done + [current + [now]] + [[now]]
  {
    ghost var s := t.splits;
    var o := t.Stop(None, now);
    if old(t.timerState) == Paused {
      StampsAppendEvent(s, NanoTimerAction.Resume, now);
      assert AppendToLast(done + [current], now)[..|done|] == done;
      StampsAppendSegment(AppendEvent(s, NanoTimerAction.Resume, now), None, NanoTimerAction.Stop, now);
    } else {
      StampsAppendSegment(s, None, NanoTimerAction.Stop, now);
    }
  }

  /** Stop, then the three metric reports with the states seen so far
      and the final STOPPED. */
  method StopAndMeasure(t: NanoTimer, ghost done: Log, ghost current: seq<int>, now: int, states: seq<NanoTimerState>)
    returns (report: Report)
    requires t.Valid() && (t.timerState == Running || t.timerState == Paused)
    requires Stamps(t.splits) == done + [current] && |current| > 0 && current[|current| - 1] <= now
    modifies t
    ensures old(t.timerState) == Running ==>
              Closed(done + [current] + [[now]]) &&
              report == Expected(states + [Stopped], done + [current] + [[now]])
    ensures old(t.timerState) == Paused ==>
              Closed(done + [current + [now]] + [[now]]) &&
              report == Expected(states + [Stopped], done + [current + [now]] + [[now]])
  {
    StopStep(t, done, current, now);
    report := Measure(t, states + [t.timerState]);
  }

  // ---------------------------------------------------------------------
  // The scenarios

  /** Scenario 1: start - stop. */
  method StartStop() returns (report: Report)
    ensures report == Report([Running, Stopped], Ok(50_000), Ok([50_000]), Ok([50_000]))
  {
    var t, states := Started("scenario 1: start - stop");
    report := StopAndMeasure(t, [], [0], 50_000_000, states);
    StartStopMetrics();
  }

  /** Scenario 2: start - split(split1) - stop. */
  method StartSplitStop() returns (report: Report)
    ensures report == Report([Running, Running, Stopped], Ok(100_000), Ok([50_000, 100_000]), Ok([50_000, 50_000]))
  {
    var t, states := Started("scenario 2: start - split(split1) - stop");
    SplitStep(t, Some("split1"), [], [0], 50_000_000);
    states := states + [t.timerState];
    report := StopAndMeasure(t, [] + [[0]], [50_000_000], 100_000_000, states);
    StartSplitStopMetrics();
  }

  /** Start, then pause after 50 ms. */
  method PausedAt50(name: string) returns (t: NanoTimer, states: seq<NanoTimerState>)
    ensures fresh(t) && t.Valid() && t.timerState == Paused
    ensures Stamps(t.splits) == [] + [[0] + [50_000_000]]
    ensures states == [Running] + [Paused]
  {
    t, states := Started(name);
    PauseStep(t, [], [0], 50_000_000);
    states := states + [t.timerState];
  }

  /** Scenario 3: start - pause - resume - stop. */
  method StartPauseResumeStop() returns (report: Report)
    ensures report == Report([Running, Paused, Running, Stopped], Ok(100_000), Ok([100_000]), Ok([100_000]))
  {
    var t, states := PausedAt50("scenario 3: start - pause - resume - stop");
    ResumeStep(t, [], [0] + [50_000_000], 100_000_000);
    states := states + [t.timerState];
    report := StopAndMeasure(t, [], [0] + [50_000_000] + [100_000_000], 150_000_000, states);
    StartPauseResumeStopMetrics();
  }

  /** Scenario 4: start - pause - stop; stop closes the pause first. */
  method StartPauseStop() returns (report: Report)
    ensures report == Report([Running, Paused, Stopped], Ok(50_000), Ok([50_000]), Ok([50_000]))
  {
    var t, states := PausedAt50("scenario 4: start - pause - stop");
    report := StopAndMeasure(t, [], [0] + [50_000_000], 100_000_000, states);
    StartPauseStopMetrics();
  }

  /** The common opening of scenarios 5 to 7: start, split(split1) after
      50 ms, pause after another 50 ms. */
  method SplitThenPause(name: string) returns (t: NanoTimer, states: seq<NanoTimerState>)
    ensures fresh(t) && t.Valid() && t.timerState == Paused
    ensures Stamps(t.splits) == [] + [[0]] + [[50_000_000] + [100_000_000]]
    ensures states == [Running] + [Running] + [Paused]
  {
    t, states := Started(name);
    SplitStep(t, Some("split1"), [], [0], 50_000_000);
    states := states + [t.timerState];
    PauseStep(t, [] + [[0]], [50_000_000], 100_000_000);
    states := states + [t.timerState];
  }

  /** Scenario 5: start - split(split1) - pause - resume - stop. */
  method StartSplitPauseResumeStop() returns (report: Report)
    ensures report == Report([Running, Running, Paused, Running, Stopped], Ok(150_000), Ok([50_000, 150_000]), Ok([50_000, 100_000]))
  {
    var t, states := SplitThenPause("scenario 5: start - split(split1) - pause - resume - stop");
    ResumeStep(t, [] + [[0]], [50_000_000] + [100_000_000], 150_000_000);
    states := states + [t.timerState];
    report := StopAndMeasure(t, [] + [[0]], [50_000_000] + [100_000_000] + [150_000_000], 200_000_000, states);
    StartSplitPauseResumeStopMetrics();
  }

  /** Scenario 6: start - split(split1) - pause - stop. */
  method StartSplitPauseStop() returns (report: Report)
    ensures report == Report([Running, Running, Paused, Stopped], Ok(100_000), Ok([50_000, 100_000]), Ok([50_000, 50_000]))
  {
    var t, states := SplitThenPause("scenario 6: start - split(split1) - pause - stop");
    report := StopAndMeasure(t, [] + [[0]], [50_000_000] + [100_000_000], 150_000_000, states);
    StartSplitPauseStopMetrics();
  }

  /** Scenario 7 up to the second split: resume after 150 ms, pause at 200
      ms, resume at 250 ms, all inside segment split1. */
  method FirstSplitPausedTwice(name: string) returns (t: NanoTimer, states: seq<NanoTimerState>)
    ensures fresh(t) && t.Valid() && t.timerState == Running
    ensures Stamps(t.splits) == [] + [[0]] + [[50_000_000] + [100_000_000] + [150_000_000] + [200_000_000] + [250_000_000]]
    ensures states == [Running] + [Running] + [Paused] + [Running] + [Paused] + [Running]
  {
    t, states := SplitThenPause(name);
    ResumeStep(t, [] + [[0]], [50_000_000] + [100_000_000], 150_000_000);
    states := states + [t.timerState];
    PauseStep(t, [] + [[0]], [50_000_000] + [100_000_000] + [150_000_000], 200_000_000);
    states := states + [t.timerState];
    ResumeStep(t, [] + [[0]], [50_000_000] + [100_000_000] + [150_000_000] + [200_000_000], 250_000_000);
    states := states + [t.timerState];
  }

  /** Scenario 7: start - split(split1) - pause - resume - pause - resume -
      split(split2) - pause - resume - stop. */
  method TwoSplitsWithPauses() returns (report: Report)
    ensures report == Report([Running, Running, Paused, Running, Paused, Running, Running, Paused, Running, Stopped],
                             Ok(300_000), Ok([50_000, 200_000, 300_000]), Ok([50_000, 150_000, 100_000]))
  {
    var t, states := FirstSplitPausedTwice("scenario 7");
    ghost var done := [] + [[0]] + [[50_000_000] + [100_000_000] + [150_000_000] + [200_000_000] + [250_000_000]];
    SplitStep(t, Some("split2"), [] + [[0]], [50_000_000] + [100_000_000] + [150_000_000] + [200_000_000] + [250_000_000], 300_000_000);
    states := states + [t.timerState];
    PauseStep(t, done, [300_000_000], 350_000_000);
    states := states + [t.timerState];
    ResumeStep(t, done, [300_000_000] + [350_000_000], 400_000_000);
    states := states + [t.timerState];
    report := StopAndMeasure(t, done, [300_000_000] + [350_000_000] + [400_000_000], 450_000_000, states);
    TwoSplitsWithPausesMetrics();
  }

  // ---------------------------------------------------------------------
  // Error paths and repeated calls

  /** start twice without a reset: the second call fails and changes nothing. */
  method StartTwice() returns (first: Outcome, second: Outcome, state: NanoTimerState)
    ensures first == Pass && second == Fail(IllegalState) && state == Running
  {
    var t := new NanoTimer("");
    first := t.Start(None, 0);
    second := t.Start(None, 50_000_000);
    state := t.timerState;
  }

  /** stop on a timer that was never started fails. */
  method StopUnstarted() returns (o: Outcome, state: NanoTimerState)
    ensures o == Fail(IllegalState) && state == Uninitialised
  {
    var t := new NanoTimer("");
    o := t.Stop(None, 0);
    state := t.timerState;
  }

  /** A second pause is a no-op: it succeeds and records nothing. */
  method PauseTwice() returns (o: Outcome, state: NanoTimerState, events: nat)
    ensures o == Pass && state == Paused && events == 2
  {
    var t := new NanoTimer("");
    var started := t.Start(None, 0);
    var paused := t.Pause(50_000_000);
    o := t.Pause(100_000_000);
    state := t.timerState;
    events := |t.splits[0].actions|;
  }

  /** After reset a stopped timer's metrics fail again. */
  method MetricsAfterReset() returns (before: Result<int>, after: Result<int>)
    ensures before == Ok(50_000_000) && after == Err(IllegalState)
  {
    var t, states := Started("");
    StopStep(t, [], [0], 50_000_000);
    before := t.ElapsedTime();
    StartStopMetrics();
    t.Reset();
    after := t.ElapsedTime();
  }

  /** On any stopped timer, a second elapsedTime() returns what the first did. */
  method ElapsedTwice(t: NanoTimer) returns (first: Result<int>, second: Result<int>)
    requires t.Valid() && t.timerState == Stopped
    modifies t
    ensures first.Ok? && first == second
  {
    first := t.ElapsedTime();
    second := t.ElapsedTime();
  }

  /** splitTime(2) on a log with two split values fails with bound 2. */
  method IndexPastEnd() returns (r: Result<int>)
    ensures r == Err(IllegalArgument(2, 2))
  {
    var t, states := Started("");
    SplitStep(t, None, [], [0], 50_000_000);
    StopStep(t, [] + [[0]], [50_000_000], 100_000_000);
    r := t.SplitTime(2, Nanoseconds);
  }

  // ---------------------------------------------------------------------
  // The older Timer

  /** Timer refuses split while paused, where NanoTimer closes the pause. */
  method TimerSplitWhilePaused() returns (o: Outcome, state: TimerLabels.TimerState, nano: Outcome)
    ensures o == Fail(IllegalState) && state == TimerLabels.Paused && nano == Pass
  {
    var t := TimerPausedAt50();
    o := t.Split(100_000_000);
    state := t.timerState;
    var n, states := PausedAt50("");
    nano := n.Split(None, 100_000_000);
  }

  /** A Timer started at 0 and paused at 50 ms. */
  method TimerPausedAt50() returns (t: TimerModel.Timer)
    ensures fresh(t) && t.Valid() && t.timerState == TimerLabels.Paused
    ensures t.splits == [[0, 50_000_000]]
    ensures t.timerActions == [TimerLabels.TimerAction.Start, TimerLabels.TimerAction.Pause]
  {
    t := new TimerModel.Timer();
    var started := t.Start(0);
    var paused := t.Pause(50_000_000);
    assert t.splits[0] == [0, 50_000_000];
  }

  /** Timer: start - pause - stop gives 50 ms and records RESUME before STOP. */
  method TimerStartPauseStop() returns (elapsed: Result<int>, actions: seq<TimerLabels.TimerAction>)
    ensures elapsed == Ok(50_000_000)
    ensures actions == [TimerLabels.TimerAction.Start, TimerLabels.TimerAction.Pause,
                        TimerLabels.TimerAction.Resume, TimerLabels.TimerAction.Stop]
  {
    var t := TimerPausedAt50();
    var stopped := t.Stop(100_000_000);
    assert AppendToLast([[0, 50_000_000]], 100_000_000)[0] == [0, 50_000_000, 100_000_000];
    assert t.splits == [[0, 50_000_000, 100_000_000], [100_000_000]];
    PausedOnceLedger(t.splits, 100_000_000);
    elapsed := t.ElapsedTime();
    actions := t.timerActions;
  }
}
