/** Outcomes of promise-returning operations: `Ok` for a resolved value, `Err` for a rejection. */
module Wrappers {
  datatype Option<+T> = None | Some(value: T)

  datatype Result<+T, +E> = Ok(value: T) | Err(error: E)
}
