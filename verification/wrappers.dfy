/** Failure-compatible wrappers shared by the other modules. */
module Wrappers {

  datatype Option<+T> = None | Some(value: T)

  /** A value, or the reason the pipeline stopped instead of producing it. */
  datatype Result<+T, +E> = Ok(value: T) | Err(error: E)
}
