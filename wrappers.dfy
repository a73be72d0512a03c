/**
 * Optional values, for fields a JavaScript object may lack, results of calls
 * that may fail, and the bytes that encoders produce.
 */
module Wrappers {

  datatype Option<+T> = None | Some(value: T)

  datatype Result<+T, +E> = Ok(value: T) | Err(error: E)

  /** An octet. */
  type Byte = b: int | 0 <= b < 256
}
