/** Option and Result, the usual failure-carrying wrappers. */
module Common {

  datatype Option<+T> = None | Some(value: T)

  datatype Result<+T, +E> = Success(value: T) | Failure(error: E)

  /** How Java's string concatenation renders a possibly-null String. */
  function OrNull(s: Option<string>): string
  {
    match s
    case Some(v) => v
    case None => "null"
  }
}
