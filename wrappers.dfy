/** Optional values and results with a typed error, used for the source's
    `null` fields and for the commands that can be refused. */
module Wrappers {

  datatype Option<+T> = None | Some(value: T)

  datatype Result<+T, +E> = Ok(value: T) | Err(error: E)
}
