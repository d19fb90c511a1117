/** Result shapes and limits shared by the components. */
module Wrappers {
  datatype Option<+T> = None | Some(value: T)

  datatype Result<+T, +E> = Ok(value: T) | Err(error: E)

  /** The largest integer Number.isSafeInteger accepts. */
  const MAX_SAFE_INTEGER: int := 9007199254740991
}
