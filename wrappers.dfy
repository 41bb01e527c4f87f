/** The usual Some/None datatype, for nullable references such as `touchStartX.current`. */
module Wrappers {
  datatype Option<+T> = None | Some(value: T)
}
