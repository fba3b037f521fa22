/** Failure-carrying results, standing in for Go's `(value, error)` returns. */
module Wrappers {

  datatype Option<+T> = None | Some(value: T)

  /** `Ok(v)` is a nil error with value `v`; `Err(e)` carries the error's message. */
  datatype Result<+T> = Ok(value: T) | Err(error: string)
}
