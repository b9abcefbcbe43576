/**
 * Error values and the result wrapper shared by every stage of the lunch-image
 * pipeline. Go's `(value, error)` pairs become `Result<T>`.
 */
module Outcomes {

  /** The errors the program can meet. The first three stand for failures of
      the HTTP and JSON layers, which are inputs to this model. */
  datatype Error =
    | Transport       // the request could not be sent, timed out or was cancelled
    | BadStatus       // "status code is not 200"
    | Decode          // the body could not be read or unmarshalled
    | NoItems         // "no items found": the decoded post list is empty
    | NoImage         // "no image found": no usable image today, or an unknown key

  datatype Result<+T> = Ok(value: T) | Err(error: Error)

  datatype Option<+T> = None | Some(value: T)

  /** Signed 64-bit integers, the width of Go's `int64` timestamps. */
  newtype int64 = x: int | -0x8000_0000_0000_0000 <= x < 0x8000_0000_0000_0000
}
