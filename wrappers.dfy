/** Option and Result: the null cell and the error path of the reconciliation code. */
module Wrappers {

  /** A possibly missing value; as a table cell, `None` is pandas' NaN. */
  datatype Option<+T> = None | Some(value: T)

  /** A value, or the error the original code raises instead of returning one. */
  datatype Result<+T, +E> = Ok(value: T) | Err(error: E)
}
