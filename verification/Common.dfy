/** What several parts of the model share: optional values, results, and time. */
module Common {

  datatype Option<+T> = None | Some(value: T)

  datatype Result<+R, +E> = Success(value: R) | Failure(error: E)

  /** Whole seconds. 0 is the zero time of the source (`time.Time.IsZero`), which no clock reads. */
  type Time = nat

  const ZERO: Time := 0

  function Max(a: Time, b: Time): Time {
    if a < b then b else a
  }
}
