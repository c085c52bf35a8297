/** Optional values and results with an error message: the two ways the modelled
    code reports "nothing here" (a JavaScript `undefined`) and "this threw". */
module Wrappers {

  datatype Option<+T> = None | Some(value: T)

  datatype Result<+R, +E> = Ok(value: R) | Err(error: E)
}
