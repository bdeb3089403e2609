/** Failure-carrying values shared by the maze solver's modules: `Option` for
    a value that may be absent and `Result` for a value or an error, the
    counterpart of Go's `(value, error)` return pairs. */
module Wrappers {

  datatype Option<+T> = None | Some(value: T)

  datatype Result<+T, +E> = Ok(value: T) | Err(error: E)
}
