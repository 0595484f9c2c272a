/** Small value wrappers shared by the components: a possibly-missing value
    and the outcome of a call that can raise. */
module Outcomes {

  /** A value that may be missing (Python's `None`). */
  datatype Option<+T> = None | Some(value: T)

  /** The outcome of a call: its return value, or the exception it raised. */
  datatype Result<+T, +E> = Ok(value: T) | Err(error: E)
}
