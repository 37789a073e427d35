/** Failure-carrying results for the timer operations.
    The Java classes report misuse by throwing; here each operation returns
    which exception it would have thrown instead. */
module Outcomes {

  datatype Option<+T> = None | Some(value: T)

  /** The two exception kinds the timers throw. */
  datatype Error =
    | IllegalState                          // IllegalStateException: wrong timer state
    | IllegalArgument(index: int, bound: int) // IllegalArgumentException: index outside [0, bound)

  /** Outcome of an operation that returns nothing useful on success. */
  datatype Outcome = Pass | Fail(error: Error)

  /** Outcome of an operation that returns a value on success. */
  datatype Result<+T> = Ok(value: T) | Err(error: Error)
}
