/** Failure-carrying wrappers used by the decoders of this model. */
module Wrappers {

  /** An optional value: the outcome of a parse that may not apply. */
  datatype Option<+T> = None | Some(value: T)

  /** A decode outcome: a value, or the error the decoder raised instead. */
  datatype Result<+R, +E> = Success(value: R) | Failure(error: E)
}
