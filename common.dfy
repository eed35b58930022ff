/** Option and Result values shared by the canvas model. */
module Common {

  /** A value that may be missing: a hub lookup that found nothing. */
  datatype Option<+T> = None | Some(value: T)

  /** The result of an operation that the source can abort with an exception. */
  datatype Result<+R, +E> = Ok(value: R) | Err(error: E)
}
