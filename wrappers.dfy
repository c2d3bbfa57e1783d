/** The optional value used where the source tests a regular-expression match or a search for null. */
module Wrappers {
  datatype Option<+T> = None | Some(value: T)
}
