/** Small failure-carrying datatypes shared by the other modules. */
module Wrappers {

  /** `Some(v)`, or `None` for JavaScript's `undefined`. */
  datatype Option<+T> = None | Some(value: T)

  /** The settled state of a promise: fulfilled with a value or rejected with an error. */
  datatype Result<+R, +E> = Ok(value: R) | Err(error: E)
}
