/** A value that may be absent: a missing field, `null` or `undefined`. */
module Wrappers {
  datatype Option<T> = None | Some(value: T)
}
