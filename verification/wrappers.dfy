/** Option and Result, the two shapes a lookup in the registry can take. */
module Wrappers {

  /** A value that may be absent: `None` plays the part of a nil item. */
  datatype Option<+T> = None | Some(value: T)

  /** The outcome of an operation that returns either a value or an error. */
  datatype Result<+R, +E> = Ok(value: R) | Err(error: E)
}
