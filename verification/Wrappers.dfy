/** The optional value used throughout: a nullable column, a regex that may not match. */
module Wrappers {
  datatype Option<+T> = None | Some(value: T)
}
