/** Small value types shared by the other modules. */
module Wrappers {

  /** A possibly absent value: the source's nil pointers and nil errors. */
  datatype Option<+T> = None | Some(value: T)

  /** A value or an error: the source's two-result functions. */
  datatype Result<+T, +E> = Ok(value: T) | Err(error: E)
}
