/** Option type used for Python's "value or None" and for calls that may raise. */
module Wrappers {

  datatype Option<+T> = None | Some(value: T)
}
