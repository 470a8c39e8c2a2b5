/** Failure-carrying results: the model's stand-in for the exceptions the
    Python code raises. */
module Wrappers {

  datatype Option<+T> = None | Some(value: T)

  /** The value of an operation that either returns or raises. */
  datatype Result<+T, +E> = Ok(value: T) | Err(error: E)

  /** The outcome of a check that returns nothing and raises on failure. */
  datatype Outcome<+E> = Pass | Fail(error: E)
}
