/**
 Values that may be missing, and outcomes that may be failures.
 */
module Wrappers {
  datatype Option<T> = None | Some(value: T)

  datatype Result<T, E> = Ok(value: T) | Err(failure: E)
}
