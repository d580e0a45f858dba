/** Option and Result: PHP's NULL and the exceptions of the engine, as values. */
module Wrappers {

  /** A value or PHP's NULL. */
  datatype Option<+T> = None | Some(value: T)

  /** A normal return or a thrown exception. */
  datatype Result<+T, +E> = Ok(value: T) | Err(error: E)
}
