/** The Option and Result datatypes shared by the calculator and weather models. */
module Wrappers {

  /** A value that may be absent (JavaScript's `null` / `undefined`). */
  datatype Option<+T> = None | Some(value: T)

  /** The outcome of a call that may throw: `Err` carries the text `String(e)` of what was thrown. */
  datatype Result<+T, +E> = Ok(value: T) | Err(error: E)
}
