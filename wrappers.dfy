/** Optional values (Java's possibly-null references) and results (a value or the exception raised). */
module Wrappers {

  datatype Option<+T> = None | Some(value: T)

  datatype Result<+T, +E> = Ok(value: T) | Err(error: E)
}
