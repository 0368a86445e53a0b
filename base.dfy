/** Small value wrappers shared by every module of the model. */
module Base {

  /** An optional value: Go's nil, or a panic path of a lookup that the model reports instead. */
  datatype Option<+T> = None | Some(value: T)

  /** A value or the error a function returns beside it (Go's `(T, error)` pair). */
  datatype Result<+T, +E> = Ok(value: T) | Err(error: E)
}
