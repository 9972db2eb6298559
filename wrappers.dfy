/** Failure-carrying results: `Option` stands for a JavaScript value that may be
    `null`/`undefined`/`NaN`, `Result` for an operation that either returns a value
    or ends with a thrown or returned error. */
module Wrappers {

  datatype Option<+T> = None | Some(value: T)

  datatype Result<+T, +E> = Ok(value: T) | Err(error: E)
}
