/** A value that may be absent: an optional key of a JavaScript object, or a
    number the source leaves undefined. */
module Wrappers {
  datatype Option<T> = None | Some(value: T)
}
