/** Optional values and results with an error path, shared by every module. */
module Outcomes {

  datatype Option<+T> = None | Some(value: T)

  /** A computation that either yields a value or raises; `Err` carries a description. */
  datatype Result<+T> = Ok(value: T) | Err(error: string)
}
