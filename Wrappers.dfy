/** Optional values and error results shared by the converter and the quotation model. */
module Wrappers {

  /** A value that may be absent, such as an empty widget selection. */
  datatype Option<T> = None | Some(value: T)

  /** Either a computed value or the error condition that stopped the computation. */
  datatype Result<T, E> = Ok(value: T) | Err(error: E)
}
