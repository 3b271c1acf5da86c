/** Option and Result, used wherever the application either yields a value or
    raises: `None` / `Err` stands for the Python exception. */
module Wrappers {

  datatype Option<+T> = None | Some(value: T)

  datatype Result<+T, +E> = Ok(value: T) | Err(error: E)
}
