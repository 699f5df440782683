/** Failure-carrying wrappers shared by every module of the model. */
module Wrappers {

  /** A value that may be absent: `null`/`undefined` in the source. */
  datatype Option<+T> = None | Some(value: T)

  /** The settled state of a promise or of a call that may throw. */
  datatype Outcome<+T, +E> = Ok(value: T) | Threw(error: E)
}
