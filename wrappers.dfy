/** Failure-compatible wrappers shared by the other modules. */
module Wrappers {

  /** A Go pointer or optional value: `None` stands for nil. */
  datatype Option<+T> = None | Some(value: T)

  /** A Go `(value, error)` pair where exactly one side is meaningful. */
  datatype Result<+R, +E> = Ok(value: R) | Err(error: E)
}
