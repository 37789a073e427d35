/** The enumerations of NanoTimer: each constant carries a lower-case
    display label and no behaviour. */
module NanoLabels {

  /** Actions recorded by a NanoTimer (NanoTimerAction). */
  datatype NanoTimerAction = Reset | Start | Split | Pause | Resume | Stop

  /** States of a NanoTimer (NanoTimerState). */
  datatype NanoTimerState = Uninitialised | Running | Paused | Stopped

  /** The display label of an action: its constant's name in lower case. */
  function NanoActionLabel(a: NanoTimerAction): (r: string)
    ensures |r| > 0 && forall c :: c in r ==> 'a' <= c <= 'z'
  {
    match a
    case Reset => "reset"
    case Start => "start"
    case Split => "split"
    case Pause => "pause"
    case Resume => "resume"
    case Stop => "stop"
  }

  /** The display label of a state: its constant's name in lower case. */
  function NanoStateLabel(s: NanoTimerState): (r: string)
    ensures |r| > 0 && forall c :: c in r ==> 'a' <= c <= 'z'
  {
    match s
    case Uninitialised => "uninitialised"
    case Running => "running"
    case Paused => "paused"
    case Stopped => "stopped"
  }

  /** Distinct actions have distinct labels, so a label names its action. */
  lemma NanoActionLabelsDistinct(a: NanoTimerAction, b: NanoTimerAction)
    ensures NanoActionLabel(a) == NanoActionLabel(b) <==> a == b
  {
  }

  /** Distinct states have distinct labels. */
  lemma NanoStateLabelsDistinct(s: NanoTimerState, t: NanoTimerState)
    ensures NanoStateLabel(s) == NanoStateLabel(t) <==> s == t
  {
  }
}

/** The enumerations of the older Timer, with the same constants and labels. */
module TimerLabels {

  /** Actions recorded by the older Timer (TimerAction). */
  datatype TimerAction = Reset | Start | Split | Pause | Resume | Stop

  /** States of the older Timer (TimerState): the same four constants as NanoTimerState. */
  datatype TimerState = Uninitialised | Running | Paused | Stopped

  /** The display label of an action: its constant's name in lower case. */
  function ActionLabel(a: TimerAction): (r: string)
    ensures |r| > 0 && forall c :: c in r ==> 'a' <= c <= 'z'
  {
    match a
    case Reset => "reset"
    case Start => "start"
    case Split => "split"
    case Pause => "pause"
    case Resume => "resume"
    case Stop => "stop"
  }

  /** `TimerState.name().toLowerCase()`: the constant's name in lower case.
      Java lower-cases here in the default locale; this is the result in a
      locale that maps ASCII names to ASCII (not a dotless-i locale). */
  function StateLabel(s: TimerState): (r: string)
    ensures |r| > 0 && forall c :: c in r ==> 'a' <= c <= 'z'
  {
    match s
    case Uninitialised => "uninitialised"
    case Running => "running"
    case Paused => "paused"
    case Stopped => "stopped"
  }
}
