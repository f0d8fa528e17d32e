/** Failure-carrying results shared by the modules of this model. */
module Wrappers {

  /** An optional value (Python's `None`, or a value that may be absent). */
  datatype Option<+T> = None | Some(value: T)

  /** The outcome of an operation that raises or throws on some inputs. */
  datatype Result<+T, +E> = Ok(value: T) | Err(error: E)
}
