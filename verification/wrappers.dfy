/**
  Failure-carrying datatypes shared by the two state units: `Option` for a
  value that may be absent (an event's extra details that are not rendered)
  and `Result` for a step that may throw (the reducer's `default` branch).
 */
module Wrappers {

  datatype Option<+T> = None | Some(value: T)

  datatype Result<+R, +E> = Success(value: R) | Failure(error: E)
}
