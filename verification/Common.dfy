/** Values shared by the reliability components. */
module Common {

  /** A Go `error` value.  `isContext` says whether errors.Is would match
      context.Canceled or context.DeadlineExceeded. */
  datatype Err = NoError | Error(message: string, isContext: bool)

  datatype Option<+T> = None | Some(value: T)

  /** Nanoseconds in one second: instants and Durations are whole nanoseconds. */
  const SECOND: int := 1_000_000_000

  /** Go's conversion of a float64 to an integer type, which drops the fraction. */
  function Truncate(x: real): (n: int)
    ensures x >= 0.0 ==> n as real <= x < n as real + 1.0
    ensures x < 0.0 ==> n as real - 1.0 < x <= n as real
  {
    if x >= 0.0 then x.Floor else -((-x).Floor)
  }

  lemma TruncateMonotone(x: real, y: real)
    requires x <= y
    ensures Truncate(x) <= Truncate(y)
  {
  }
}
