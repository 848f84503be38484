/** Option and Result values used for the source's `null` and thrown errors. */
module Wrappers {

  datatype Option<+T> = None | Some(value: T)

  /** The outcome of a hook or validator: the (possibly normalised) value, or the error it throws. */
  datatype Result<+T, +E> = Ok(value: T) | Err(error: E)
}
