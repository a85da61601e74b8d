/** Option and Result: "a regex group may be absent" and "building a report row may fail". */
module Wrappers {
  datatype Option<+T> = None | Some(value: T)

  datatype Result<+R, +E> = Success(value: R) | Failure(error: E)
}
