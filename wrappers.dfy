/** Option and Result values shared by every module of the calculator model. */
module Wrappers {

  /** A value that may be absent, such as a query-string parameter. */
  datatype Option<+T> = None | Some(value: T)

  /** The outcome of a calculator helper: its figures, or the error text it returns instead. */
  datatype Result<+T> = Ok(value: T) | Err(error: string)
}
