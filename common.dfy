/** Option and Result, the failure-carrying values every module below returns
    in place of Go's `(value, error)` pairs. */
module Common {

  datatype Option<+T> = None | Some(value: T)

  datatype Result<+T, +E> = Ok(value: T) | Err(error: E)
}
