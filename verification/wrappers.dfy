/** The result types the modules share. */
module Wrappers {
  datatype Option<+T> = None | Some(value: T)

  /** A value, or the error the program raises. */
  datatype Result<+T, +E> = Ok(value: T) | Err(error: E)

  /** The value of an optional argument, or the one it stands in for. */
  function Or<T>(o: Option<T>, other: T): T { if o.Some? then o.value else other }
}
