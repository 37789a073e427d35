/** The timestamp ledger shared by both timers and the metrics derived from it.

    A log holds one sequence of timestamps per segment. The first timestamp
    of a segment is the boundary (start, split or stop) that opened it; the
    timestamps after it are pause/resume pairs recorded inside the segment.
    Timestamps are unbounded integers: the Java code works on 64-bit longs
    and its arithmetic is assumed not to overflow. */
module Ledger {

  type Log = seq<seq<int>>

  // ---------------------------------------------------------------------
  // Shape of a log

  /** A segment whose pause/resume events come in complete pairs (or that is
      empty): the pair loop of calcPauses reads inside it. */
  predicate Pairable(ts: seq<int>)
  {
    |ts| % 2 == 1 || |ts| == 0
  }

  /** The log of a running (paused == false) or paused timer: at least one
      segment, no empty segment, every segment but the last closed, and the
      last one holding an unmatched pause exactly when the timer is paused. */
  predicate Open(log: Log, paused: bool)
  {
    && |log| >= 1
    && (forall i :: 0 <= i < |log| ==> |log[i]| >= 1)
    && (forall i :: 0 <= i < |log| - 1 ==> |log[i]| % 2 == 1)
    && (|log[|log| - 1]| % 2 == 0 <==> paused)
  }

  /** The log of a stopped timer, as far as the metrics need it: at least a
      start and a stop segment, and every segment a boundary followed by
      complete pause/resume pairs. */
  predicate Closed(log: Log)
  {
    && |log| >= 2
    && (forall i :: 0 <= i < |log| ==> |log[i]| % 2 == 1)
  }

  /** Timestamps never decrease along the log: inside each segment, and from
      the last timestamp of a segment to the first of the next. */
  predicate Monotone(log: Log)
  {
    && (forall i :: 0 <= i < |log| ==> Sorted(log[i]))
    && (forall i :: 0 <= i < |log| - 1 && |log[i]| > 0 && |log[i + 1]| > 0 ==>
          log[i][|log[i]| - 1] <= log[i + 1][0])
  }

  predicate Sorted(ts: seq<int>)
  {
    forall j :: 0 < j < |ts| ==> ts[j - 1] <= ts[j]
  }

  /** The most recent timestamp of a log, if any. */
  function Latest(log: Log): (r: int)
    requires |log| > 0 && |log[|log| - 1]| > 0
  {
    log[|log| - 1][|log[|log| - 1]| - 1]
  }

  /** Inside a sorted segment no timestamp is later than the last one. */
  lemma {:induction false} SortedBelowLast(ts: seq<int>, j: nat)
    requires Sorted(ts) && j < |ts|
    ensures ts[j] <= ts[|ts| - 1]
    decreases |ts| - j
  {
    if j < |ts| - 1 {
      SortedBelowLast(ts, j + 1);
    }
  }

  /** On a monotone log without empty segments the latest timestamp is the
      largest one: no recorded timestamp is later. */
  lemma {:induction false} LatestIsMaximum(log: Log, i: nat, j: nat)
    requires Monotone(log) && (forall k :: 0 <= k < |log| ==> |log[k]| > 0)
    requires i < |log| && j < |log[i]|
    ensures log[i][j] <= Latest(log)
    decreases |log| - i
  {
    SortedBelowLast(log[i], j);
    if i < |log| - 1 {
      LatestIsMaximum(log, i + 1, 0);
    }
  }

  /** A clock reading no earlier than the latest timestamp of a monotone log
      without empty segments is no earlier than any of its timestamps. */
  lemma ClockAfterAll(log: Log, now: int)
    ensures Monotone(log) && (forall k :: 0 <= k < |log| ==> |log[k]| > 0) &&
            (|log| > 0 ==> Latest(log) <= now) ==>
              forall i, j :: 0 <= i < |log| && 0 <= j < |log[i]| ==> log[i][j] <= now
  {
    if Monotone(log) && (forall k :: 0 <= k < |log| ==> |log[k]| > 0) && (|log| > 0 ==> Latest(log) <= now) {
      forall i, j | 0 <= i < |log| && 0 <= j < |log[i]|
        ensures log[i][j] <= now
      {
        LatestIsMaximum(log, i, j);
      }
    }
  }

  // ---------------------------------------------------------------------
  // Pauses

  /** The sum of the first k pause intervals ts[2j] - ts[2j-1], j = 1..k. */
  function PairSum(ts: seq<int>, k: nat): int
    requires 2 * k < |ts| || k == 0
  {
    if k == 0 then 0 else PairSum(ts, k - 1) + (ts[2 * k] - ts[2 * k - 1])
  }

  /** Total time a segment spent paused (calcPauses). */
  function PauseTime(ts: seq<int>): int
    requires Pairable(ts)
  {
    PairSum(ts, |ts| / 2)
  }

  /** Pause time of the first k segments. */
  function PausesBefore(log: Log, k: nat): int
    requires k <= |log|
    requires forall j :: 0 <= j < k ==> Pairable(log[j])
  {
    if k == 0 then 0 else PausesBefore(log, k - 1) + PauseTime(log[k - 1])
  }

  /** Every segment but the last can be summed by the pair loop. */
  predicate PairableExceptLast(log: Log)
  {
    forall j :: 0 <= j < |log| - 1 ==> Pairable(log[j])
  }

  /** Pause time of every segment but the last (calcAllPauses). */
  function AllPauses(log: Log): int
    requires PairableExceptLast(log)
  {
    if |log| == 0 then 0 else PausesBefore(log, |log| - 1)
  }

  // ---------------------------------------------------------------------
  // Metrics of a stopped timer

  /** Stop boundary minus start boundary minus all pauses. */
  function Elapsed(log: Log): int
    requires Closed(log)
  {
    log[|log| - 1][0] - log[0][0] - AllPauses(log)
  }

  /** Time from the start to boundary i + 1, net of the pauses before it. */
  function SplitTime(log: Log, i: nat): int
    requires Closed(log) && i < |log| - 1
  {
    log[i + 1][0] - log[0][0] - PausesBefore(log, i + 1)
  }

  /** Time from boundary i to boundary i + 1, net of segment i's pauses. */
  function SplitPeriod(log: Log, i: nat): int
    requires Closed(log) && i < |log| - 1
  {
    log[i + 1][0] - log[i][0] - PauseTime(log[i])
  }

  function SplitTimes(log: Log): (r: seq<int>)
    requires Closed(log)
    ensures |r| == |log| - 1
    ensures forall i :: 0 <= i < |r| ==> r[i] == SplitTime(log, i)
  {
    seq(|log| - 1, i requires 0 <= i < |log| - 1 => SplitTime(log, i))
  }

  function SplitPeriods(log: Log): (r: seq<int>)
    requires Closed(log)
    ensures |r| == |log| - 1
    ensures forall i :: 0 <= i < |r| ==> r[i] == SplitPeriod(log, i)
  {
    seq(|log| - 1, i requires 0 <= i < |log| - 1 => SplitPeriod(log, i))
  }

  function Sum(s: seq<int>): int
  {
    if s == [] then 0 else Sum(s[..|s| - 1]) + s[|s| - 1]
  }

  // ---------------------------------------------------------------------
  // Identities between the metrics

  /** The last split time is the elapsed time. */
  lemma LastSplitTimeIsElapsed(log: Log)
    requires Closed(log)
    ensures SplitTimes(log)[|log| - 2] == Elapsed(log)
  {
  }

  /** Split time i is the sum of split periods 0..i. */
  lemma {:induction false} SplitTimeIsPrefixSum(log: Log, i: nat)
    requires Closed(log) && i < |log| - 1
    ensures SplitTimes(log)[i] == Sum(SplitPeriods(log)[..i + 1])
  {
    var p := SplitPeriods(log);
    var q := p[..i + 1];
    assert q[..|q| - 1] == p[..i];
    assert Sum(q) == Sum(p[..i]) + p[i];
    if i == 0 {
      assert p[..i] == [];
      assert PausesBefore(log, 1) == PauseTime(log[0]);
    } else {
      SplitTimeIsPrefixSum(log, i - 1);
      SplitTimeStep(log, i);
    }
  }

  /** The split periods add up to the elapsed time. */
  lemma PeriodsSumToElapsed(log: Log)
    requires Closed(log)
    ensures Sum(SplitPeriods(log)) == Elapsed(log)
  {
    var p := SplitPeriods(log);
    SplitTimeIsPrefixSum(log, |log| - 2);
    assert p[..|log| - 1] == p;
  }

  /** Split times grow by the next split period. */
  lemma SplitTimeStep(log: Log, i: nat)
    requires Closed(log) && 0 < i < |log| - 1
    ensures SplitTimes(log)[i] == SplitTimes(log)[i - 1] + SplitPeriods(log)[i]
  {
  }

  // ---------------------------------------------------------------------
  // Signs, for monotone logs

  /** Inside a sorted segment, the first k pause intervals are non-negative
      and fit between its first timestamp and timestamp 2k. */
  lemma {:induction false} PairSumBounds(ts: seq<int>, k: nat)
    requires Sorted(ts) && 2 * k < |ts|
    ensures 0 <= PairSum(ts, k) <= ts[2 * k] - ts[0]
  {
    if k > 0 {
      PairSumBounds(ts, k - 1);
      assert ts[2 * k - 2] <= ts[2 * k - 1] <= ts[2 * k];
    }
  }

  /** A closed, sorted segment paused for no less than zero and no longer
      than its own span. */
  lemma PauseTimeBounds(ts: seq<int>)
    requires Sorted(ts) && |ts| % 2 == 1
    ensures 0 <= PauseTime(ts) <= ts[|ts| - 1] - ts[0]
  {
    PairSumBounds(ts, |ts| / 2);
  }

  /** With monotone timestamps every split period is non-negative. */
  lemma PeriodNonNegative(log: Log, i: nat)
    requires Closed(log) && Monotone(log) && i < |log| - 1
    ensures SplitPeriods(log)[i] >= 0
  {
    PauseTimeBounds(log[i]);
  }

  /** With monotone timestamps split times never decrease, start at a
      non-negative value, and so does the elapsed time. */
  lemma {:induction false} SplitTimesNonNegative(log: Log, i: nat)
    requires Closed(log) && Monotone(log) && i < |log| - 1
    ensures 0 <= SplitTimes(log)[i]
    ensures forall j :: 0 <= j <= i ==> SplitTimes(log)[j] <= SplitTimes(log)[i]
  {
    PeriodNonNegative(log, i);
    if i == 0 {
      assert PausesBefore(log, 1) == PauseTime(log[0]);
    } else {
      SplitTimesNonNegative(log, i - 1);
      SplitTimeStep(log, i);
    }
  }

  /** Every metric of a stopped timer with a monotone clock is non-negative. */
  lemma MetricsNonNegative(log: Log)
    requires Closed(log) && Monotone(log)
    ensures Elapsed(log) >= 0
    ensures forall i :: 0 <= i < |log| - 1 ==> SplitTimes(log)[i] >= 0 && SplitPeriods(log)[i] >= 0
  {
    forall i | 0 <= i < |log| - 1
      ensures SplitTimes(log)[i] >= 0 && SplitPeriods(log)[i] >= 0
    {
      SplitTimesNonNegative(log, i);
      PeriodNonNegative(log, i);
    }
    LastSplitTimeIsElapsed(log);
  }

  // ---------------------------------------------------------------------
  // How the mutators change a log

  /** Appends timestamp t to the last segment (pause, resume, or the resume
      that closes a pause at split or stop time). */
  function AppendToLast(log: Log, t: int): (r: Log)
    requires |log| > 0
    ensures |r| == |log| && r[..|log| - 1] == log[..|log| - 1]
    ensures r[|log| - 1] == log[|log| - 1] + [t]
  {
    log[..|log| - 1] + [log[|log| - 1] + [t]]
  }

  /** Appending a timestamp no earlier than every recorded one keeps the log monotone. */
  lemma AppendToLastMonotone(log: Log, t: int)
    requires |log| > 0 && |log[|log| - 1]| > 0 && Monotone(log) && Latest(log) <= t
    ensures Monotone(AppendToLast(log, t)) && Latest(AppendToLast(log, t)) == t
  {
  }

  /** Opening a segment no earlier than every recorded timestamp keeps the log monotone. */
  lemma AppendSegmentMonotone(log: Log, t: int)
    requires |log| > 0 && |log[|log| - 1]| > 0 && Monotone(log) && Latest(log) <= t
    ensures Monotone(log + [[t]]) && Latest(log + [[t]]) == t
  {
  }

  /** pause and resume flip whether the last segment holds an unmatched
      pause; the segments before it are untouched. */
  lemma AppendToLastFlipsOpen(log: Log, t: int, paused: bool)
    requires Open(log, paused)
    ensures Open(AppendToLast(log, t), !paused) && PairableExceptLast(AppendToLast(log, t))
  {
  }

  /** Opening a segment on a running log keeps it running (split) or, read
      as a stopped log, makes it closed (stop). */
  lemma AppendSegmentOpen(log: Log, t: int)
    requires Open(log, false)
    ensures Open(log + [[t]], false) && Closed(log + [[t]]) && PairableExceptLast(log + [[t]])
  {
  }

  /** Total number of timestamps in a log: at least one per segment when no
      segment is empty. */
  function Count(log: Log): (r: nat)
    ensures (forall i :: 0 <= i < |log| ==> |log[i]| > 0) ==> r >= |log|
  {
    if log == [] then 0 else Count(log[..|log| - 1]) + |log[|log| - 1]|
  }

  lemma CountAppendToLast(log: Log, t: int)
    requires |log| > 0
    ensures Count(AppendToLast(log, t)) == Count(log) + 1
  {
  }

  lemma CountAppendSegment(log: Log, t: int)
    ensures Count(log + [[t]]) == Count(log) + 1
  {
  }
}
