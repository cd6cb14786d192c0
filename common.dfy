/** Small value types shared by the rest of the model. */
module Common {

  /** One octet of an uploaded audio file. */
  newtype byte = b: int | 0 <= b < 256

  /** A JSON field that may be absent (Python's `None`). */
  datatype Option<T> = None | Some(value: T)

  /** The outcome of one pipeline stage: a value, or why the stage failed. */
  datatype Result<T, E> = Success(value: T) | Failure(error: E)

  /** Python's `str.startswith`. */
  predicate StartsWith(s: string, prefix: string)
  {
    |prefix| <= |s| && s[..|prefix|] == prefix
  }
}
