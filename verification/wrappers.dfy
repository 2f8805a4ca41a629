/** Small failure-carrying datatypes shared by the registry and the server layer. */
module Wrappers {

  /** An optional value (Python's `Optional[...]` / `None`). */
  datatype Option<+T> = None | Some(value: T)

  /** The value of an operation, or the stringified exception it raised. */
  datatype Result<+R> = Ok(value: R) | Err(error: string)
}
