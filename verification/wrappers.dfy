/** Option and Outcome: the failure-carrying results used across the model. */
module Wrappers {

  /** A value that may be absent (a padding byte, a field name that does not exist). */
  datatype Option<+T> = None | Some(value: T)

  /** The result of one assertion: it passed, or it failed with a report. */
  datatype Outcome<+E> = Pass | Fail(error: E)
}
