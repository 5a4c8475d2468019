/** Optional values and failure results shared by every module of the model. */
module Wrappers {

  datatype Option<+T> = None | Some(value: T)

  /** The Python exceptions the modelled code can raise on its own data. */
  datatype PyError =
    | TypeError      // a call with the wrong number of positional arguments
    | KeyError       // a dictionary lookup of a missing key

  datatype Result<+T> = Ok(value: T) | Err(error: PyError)
}
