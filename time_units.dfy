/** Conversion of nanosecond counts into coarser time units, as done by
    `timeUnit.convert(v, TimeUnit.NANOSECONDS)`: integer division by the
    unit's size in nanoseconds, truncated toward zero as Java's `/` on longs. */
module TimeUnits {

  datatype TimeUnit = Nanoseconds | Microseconds | Milliseconds | Seconds | Minutes | Hours | Days

  /** Number of nanoseconds in one unit. */
  function Factor(u: TimeUnit): (f: int)
    ensures f >= 1
  {
    match u
    case Nanoseconds => 1
    case Microseconds => 1_000
    case Milliseconds => 1_000_000
    case Seconds => 1_000_000_000
    case Minutes => 60_000_000_000
    case Hours => 3_600_000_000_000
    case Days => 86_400_000_000_000
  }

  /** `timeUnit.name().toLowerCase()`: a plural English word in lower case. */
  function UnitName(u: TimeUnit): (r: string)
    ensures |r| > 0 && r[|r| - 1] == 's'
    ensures forall c :: c in r ==> 'a' <= c <= 'z'
  {
    match u
    case Nanoseconds => "nanoseconds"
    case Microseconds => "microseconds"
    case Milliseconds => "milliseconds"
    case Seconds => "seconds"
    case Minutes => "minutes"
    case Hours => "hours"
    case Days => "days"
  }

  /** Converts `v` nanoseconds to unit `u`, truncating toward zero.
      The result is the whole number of units contained in |v|, with the sign of v. */
  function Convert(v: int, u: TimeUnit): (r: int)
    ensures v >= 0 ==> 0 <= r && r * Factor(u) <= v < (r + 1) * Factor(u)
    ensures v <= 0 ==> r <= 0 && (r - 1) * Factor(u) < v <= r * Factor(u)
    ensures u == Nanoseconds ==> r == v
  {
    if v >= 0 then v / Factor(u) else -((-v) / Factor(u))
  }

  /** Converts every element of `s`. */
  function ConvertAll(s: seq<int>, u: TimeUnit): (r: seq<int>)
    ensures |r| == |s|
    ensures forall i :: 0 <= i < |s| ==> r[i] == Convert(s[i], u)
  {
    seq(|s|, i requires 0 <= i < |s| => Convert(s[i], u))
  }

  /** Truncation toward zero is symmetric: converting -v gives minus the conversion of v
      (Euclidean division, Dafny's own `/`, would not be). */
  lemma ConvertIsOdd(v: int, u: TimeUnit)
    ensures Convert(-v, u) == -Convert(v, u)
  {
  }

  /** Conversion never loses the order of two durations. */
  lemma ConvertMonotone(v: int, w: int, u: TimeUnit)
    requires v <= w
    ensures Convert(v, u) <= Convert(w, u)
  {
  }

  /** The conversion loops of splitTimes(timeUnit) and splitPeriods(timeUnit):
      one converted value per input value, in order. */
  method ConvertEach(values: seq<int>, unit: TimeUnit) returns (converted: seq<int>)
    ensures converted == ConvertAll(values, unit)
  {
    var a := new int[|values|];
    var i := 0;
    while i < |values|
      invariant 0 <= i <= |values|
      invariant forall j :: 0 <= j < i ==> a[j] == Convert(values[j], unit)
    {
      a[i] := Convert(values[i], unit);
      i := i + 1;
    }
    converted := a[..];
  }
}
