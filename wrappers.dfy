/** Optional values and results with an error message, used for the
    source's `null` returns and its `{ error: ... }` replies. */
module Wrappers {

  datatype Option<+T> = None | Some(value: T)

  datatype Result<+T> = Ok(value: T) | Err(error: string)
}
