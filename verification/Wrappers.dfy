/** Options and results, and the time unit shared by every module. */
module Wrappers {
  datatype Option<+T> = None | Some(value: T)

  datatype Result<+T, +E> = Ok(value: T) | Err(error: E)

  /** Instants and durations, in nanoseconds. A Go zero time is an absent Option. */
  type Time = int

  const SECOND: Time := 1_000_000_000
}
