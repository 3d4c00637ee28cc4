/** The two failure-carrying datatypes shared by the modules. */
module Wrappers {

  /** An optional value: a nil pointer, an absent map entry, a nil error. */
  datatype Option<+T> = None | Some(value: T)

  /** A value or an error: a Go function's `(T, error)` result. */
  datatype Result<+T, +E> = Ok(value: T) | Err(error: E)
}
