/** Option and Result: the absent value and the raised exception of the Python source. */
module Wrappers {

  datatype Option<+T> = None | Some(value: T)

  /** `Err` stands for an exception that escapes to the top level and ends the script. */
  datatype Result<+T, +E> = Ok(value: T) | Err(error: E)
}
