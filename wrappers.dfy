/** Optional values and results carrying an error message, standing for Python's
    `None` returns and for the `ValueError` that a failed lookup raises. */
module Wrappers {

  datatype Option<T> = Nothing | Some(value: T)

  datatype Result<T> = Ok(value: T) | Err(message: string)
}
