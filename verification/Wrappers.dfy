/** The two small result types shared by the models. */
module Wrappers {

  /** A nullable column or an optional pointer. */
  datatype Option<+T> = None | Some(value: T)

  /** A Go `(value, error)` pair. */
  datatype Result<+T, +E> = Ok(value: T) | Err(error: E)
}
