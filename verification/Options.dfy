/** The two result types shared by every component model. */
module Options {
  datatype Option<+T> = None | Some(value: T)

  /** A returned value or a thrown error. */
  datatype Result<+T, +E> = Ok(value: T) | Err(error: E)
}
