/** The segment log of a NanoTimer: a list of TimerSplit records, each an
    optional name and a list of (action, timestamp) events. */
module NanoLog {
  import opened Outcomes
  import opened NanoLabels
  import opened Ledger

  /** One recorded event (NanoTimer.SplitAction). */
  datatype SplitAction = SplitAction(timerAction: NanoTimerAction, timestamp: int)

  /** One segment (NanoTimer.TimerSplit): the name given by the caller of
      start, split or stop, and the events recorded while it was current. */
  datatype TimerSplit = TimerSplit(name: Option<string>, actions: seq<SplitAction>)
  {
    /** The name given to the segment, or the label of the action that opened it. */
    function GetName(): (r: string)
      requires |actions| > 0
      ensures name.Some? ==> r == name.value
      ensures name.None? ==> r == NanoActionLabel(actions[0].timerAction)
    {
      if name.Some? then name.value else NanoActionLabel(actions[0].timerAction)
    }
  }

  /** A segment freshly opened by boundary action `a` at time `t`. */
  function Opened(name: Option<string>, a: NanoTimerAction, t: int): TimerSplit
  {
    TimerSplit(name, [SplitAction(a, t)])
  }

  /** The timestamps of a segment's events, in order. */
  function Times(actions: seq<SplitAction>): (r: seq<int>)
    ensures |r| == |actions|
  {
    seq(|actions|, j requires 0 <= j < |actions| => actions[j].timestamp)
  }

  /** The timestamp ledger of a segment log. */
  function Stamps(splits: seq<TimerSplit>): (r: Log)
    ensures |r| == |splits|
  {
    seq(|splits|, i requires 0 <= i < |splits| => Times(splits[i].actions))
  }

  /** Segment i of the ledger has one timestamp per event of segment i,
      and its first one is the timestamp of the segment's boundary event. */
  lemma StampsBoundaries(splits: seq<TimerSplit>)
    ensures forall i :: 0 <= i < |splits| ==>
              |Stamps(splits)[i]| == |splits[i].actions| &&
              (|splits[i].actions| > 0 ==> Stamps(splits)[i][0] == splits[i].actions[0].timestamp)
  {
  }

  /** Every timestamp of the ledger is the timestamp of the matching event. */
  lemma StampsEvents(splits: seq<TimerSplit>)
    ensures forall i :: 0 <= i < |splits| ==> |Stamps(splits)[i]| == |splits[i].actions|
    ensures forall i, j :: 0 <= i < |splits| && 0 <= j < |splits[i].actions| ==>
              Stamps(splits)[i][j] == splits[i].actions[j].timestamp
  {
  }

  /** The action that opens segment i of an n-segment log. */
  function BoundaryAction(i: nat, n: nat, stopped: bool): NanoTimerAction
  {
    if i == 0 then Start else if stopped && i == n - 1 then Stop else Split
  }

  /** After the boundary, events alternate PAUSE, RESUME, PAUSE, ... */
  predicate Alternates(actions: seq<SplitAction>)
  {
    forall j :: 1 <= j < |actions| ==> actions[j].timerAction == (if j % 2 == 1 then Pause else Resume)
  }

  /** Every segment opens with its boundary action (START for the first,
      STOP for the last of a stopped log, SPLIT otherwise), followed by
      alternating pauses and resumes. */
  predicate SegmentsWellFormed(splits: seq<TimerSplit>, stopped: bool)
  {
    forall i :: 0 <= i < |splits| ==>
      |splits[i].actions| >= 1
      && splits[i].actions[0].timerAction == BoundaryAction(i, |splits|, stopped)
      && Alternates(splits[i].actions)
  }

  /** The shape of the log in each state. Once the timer has been started
      the segments are well formed; an unmatched pause exists exactly when
      the timer is paused; a stopped log has at least two segments and its
      STOP segment holds only the STOP event. An uninitialised timer may
      still hold the log of its last run. */
  predicate LogShape(splits: seq<TimerSplit>, state: NanoTimerState)
    ensures LogShape(splits, state) && state != Uninitialised ==>
              && |splits| >= 1
              && (forall i :: 0 <= i < |splits| ==> |splits[i].actions| >= 1)
              && splits[0].actions[0].timerAction == Start
              && (splits[|splits| - 1].actions[0].timerAction == Stop <==> state == Stopped)
  {
    state == Uninitialised ||
    (
      && SegmentsWellFormed(splits, state == Stopped)
      && (state == Running ==> Open(Stamps(splits), false))
      && (state == Paused ==> Open(Stamps(splits), true))
      && (state == Stopped ==> Closed(Stamps(splits)) && |splits[|splits| - 1].actions| == 1)
    )
  }

  /** Appends event (a, t) to the current (last) segment. */
  function AppendEvent(splits: seq<TimerSplit>, a: NanoTimerAction, t: int): (r: seq<TimerSplit>)
    requires |splits| > 0
    ensures |r| == |splits| && r[..|splits| - 1] == splits[..|splits| - 1]
    ensures r[|splits| - 1] == splits[|splits| - 1].(actions := splits[|splits| - 1].actions + [SplitAction(a, t)])
  {
    var last := splits[|splits| - 1];
    splits[..|splits| - 1] + [last.(actions := last.actions + [SplitAction(a, t)])]
  }

  /** Appending an event appends its timestamp to the ledger's last segment. */
  lemma StampsAppendEvent(splits: seq<TimerSplit>, a: NanoTimerAction, t: int)
    requires |splits| > 0
    ensures Stamps(AppendEvent(splits, a, t)) == AppendToLast(Stamps(splits), t)
  {
    var r := AppendEvent(splits, a, t);
    var last := splits[|splits| - 1].actions;
    assert Times(last + [SplitAction(a, t)]) == Times(last) + [t];
    assert Stamps(r)[|splits| - 1] == AppendToLast(Stamps(splits), t)[|splits| - 1];
    forall i | 0 <= i < |splits| - 1
      ensures Stamps(r)[i] == AppendToLast(Stamps(splits), t)[i]
    {
      assert r[i] == r[..|splits| - 1][i];
    }
  }

  /** Opening a segment appends a one-timestamp segment to the ledger. */
  lemma StampsAppendSegment(splits: seq<TimerSplit>, name: Option<string>, a: NanoTimerAction, t: int)
    ensures Stamps(splits + [Opened(name, a, t)]) == Stamps(splits) + [[t]]
  {
    assert Times([SplitAction(a, t)]) == [t];
  }

  /** In the stopped state the pair loop of calcPauses stays inside every
      segment: each one holds a boundary and complete pause/resume pairs. */
  lemma StoppedSegmentsPairable(splits: seq<TimerSplit>, i: nat)
    requires LogShape(splits, Stopped) && i < |splits|
    ensures |splits| >= 2 && |splits[i].actions| % 2 == 1
    ensures forall j :: 1 <= j < |splits[i].actions| ==>
              splits[i].actions[j].timerAction == (if j % 2 == 1 then Pause else Resume)
  {
    assert |Stamps(splits)[i]| == |splits[i].actions|;
  }

  /** Appending the event that continues the PAUSE/RESUME alternation of
      the current segment keeps an unstopped log's segments well formed. */
  lemma EventKeepsSegments(splits: seq<TimerSplit>, a: NanoTimerAction, t: int)
    requires SegmentsWellFormed(splits, false) && |splits| > 0
    requires a == (if |splits[|splits| - 1].actions| % 2 == 1 then Pause else Resume)
    ensures SegmentsWellFormed(AppendEvent(splits, a, t), false)
  {
  }

  /** An unstopped log's event timestamps form an open ledger; appending an
      event flips whether it holds an unmatched pause. */
  lemma EventFlipsOpen(splits: seq<TimerSplit>, a: NanoTimerAction, t: int, paused: bool)
    requires |splits| > 0 && Open(Stamps(splits), paused)
    ensures Open(Stamps(AppendEvent(splits, a, t)), !paused)
  {
    StampsAppendEvent(splits, a, t);
    AppendToLastFlipsOpen(Stamps(splits), t, paused);
  }

  /** pause from RUNNING keeps the log shape, now PAUSED. */
  lemma PauseKeepsShape(splits: seq<TimerSplit>, t: int)
    requires LogShape(splits, Running)
    ensures LogShape(AppendEvent(splits, Pause, t), Paused)
  {
    assert |Stamps(splits)[|splits| - 1]| == |splits[|splits| - 1].actions|;
    EventKeepsSegments(splits, Pause, t);
    EventFlipsOpen(splits, Pause, t, false);
  }

  /** resume (or the resume that closes a pause at split or stop time) from
      PAUSED keeps the log shape, now RUNNING. */
  lemma ResumeKeepsShape(splits: seq<TimerSplit>, t: int)
    requires LogShape(splits, Paused)
    ensures LogShape(AppendEvent(splits, Resume, t), Running)
  {
    assert |Stamps(splits)[|splits| - 1]| == |splits[|splits| - 1].actions|;
    EventKeepsSegments(splits, Resume, t);
    EventFlipsOpen(splits, Resume, t, true);
  }

  /** Opening a SPLIT segment keeps a running log running; opening the STOP
      segment makes it a stopped log. */
  lemma OpenKeepsShape(splits: seq<TimerSplit>, name: Option<string>, a: NanoTimerAction, t: int)
    requires LogShape(splits, Running) && (a == Split || a == Stop)
    ensures LogShape(splits + [Opened(name, a, t)], if a == Stop then Stopped else Running)
  {
    var r := splits + [Opened(name, a, t)];
    var n := |splits|;
    assert Stamps(r) == Stamps(splits) + [[t]] by { StampsAppendSegment(splits, name, a, t); }
    forall i | 0 <= i < n + 1
      ensures |r[i].actions| >= 1 && r[i].actions[0].timerAction == BoundaryAction(i, n + 1, a == Stop) && Alternates(r[i].actions)
    {
      if i < n {
        assert r[i] == splits[i];
      }
    }
  }

  /** An event no earlier than the latest timestamp keeps the log monotone. */
  lemma EventKeepsMonotone(splits: seq<TimerSplit>, a: NanoTimerAction, t: int)
    requires |splits| > 0 && |splits[|splits| - 1].actions| > 0
    requires Monotone(Stamps(splits)) && Latest(Stamps(splits)) <= t
    ensures Monotone(Stamps(AppendEvent(splits, a, t)))
    ensures |AppendEvent(splits, a, t)[|splits| - 1].actions| > 0 && Latest(Stamps(AppendEvent(splits, a, t))) == t
  {
    StampsAppendEvent(splits, a, t);
    AppendToLastMonotone(Stamps(splits), t);
  }

  /** A segment opened no earlier than the latest timestamp keeps the log monotone. */
  lemma OpenKeepsMonotone(splits: seq<TimerSplit>, name: Option<string>, a: NanoTimerAction, t: int)
    requires |splits| > 0 && |splits[|splits| - 1].actions| > 0
    requires Monotone(Stamps(splits)) && Latest(Stamps(splits)) <= t
    ensures Monotone(Stamps(splits + [Opened(name, a, t)]))
  {
    StampsAppendSegment(splits, name, a, t);
    AppendSegmentMonotone(Stamps(splits), t);
  }

  /** start: a one-segment log holding (START, t) is a running log. */
  lemma StartShape(name: Option<string>, t: int)
    ensures LogShape([Opened(name, Start, t)], Running)
    ensures Stamps([Opened(name, Start, t)]) == [[t]]
  {
    assert Times([SplitAction(Start, t)]) == [t];
    assert Stamps([Opened(name, Start, t)]) == [[t]];
  }
}
