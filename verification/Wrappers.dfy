/** Optional values and results, standing for Go's nil pointers and (value, error) returns. */
module Wrappers {

  datatype Option<+T> = None | Some(value: T)

  datatype Error = Validation | Forbidden | NotFound | AlreadyExists | Internal

  datatype Result<+T> = Ok(value: T) | Err(error: Error)
}
