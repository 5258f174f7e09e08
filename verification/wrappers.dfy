/** Plain wrappers used by the model: an optional value (what
    `Array.prototype.find` returns) and a result that is either a value or the
    error a thrown exception carries. */
module Wrappers {

  datatype Option<+T> = None | Some(value: T)

  datatype Result<+R, +E> = Ok(value: R) | Err(error: E)
}
