/**
  Failure-carrying values shared by every module: the Python exceptions the metrics
  raise, and optional call-site arguments (`None` in Python).
*/
module Wrappers {

  /** An argument that may be left out (`None`). */
  datatype Option<+T> = None | Some(value: T)

  /** The exceptions the modelled code raises. */
  datatype Error =
    | ValueError(message: string)   // raised explicitly, or by numpy on an empty reduction / bad shape
    | ZeroDivisionError             // Python `int / int` or `float / 0`
    | ShapeError                    // label vectors of different lengths, refused by the encoder
    | IndexError                    // a sample index past the end of a label vector

  /** Either a value or the exception raised instead. */
  datatype Result<+T> = Ok(value: T) | Err(error: Error)
}
