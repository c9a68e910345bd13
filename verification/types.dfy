/**
  Small value types shared by every part of the model: optional values,
  results with an error alternative, and bytes.
 */
module Types {

  /** A value that may be missing. */
  datatype Option<+T> = None | Some(value: T)

  /** The outcome of an operation that either produces a value or stops with an error. */
  datatype Result<+T, +E> = Ok(value: T) | Err(error: E)

  /** One octet of a captured output stream or of a file's content. */
  newtype byte = b: int | 0 <= b < 256
}
