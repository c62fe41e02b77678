/** The optional value used where the Java code works with `null` or `Optional`. */
module Wrappers {
  datatype Option<+T> = None | Some(value: T)
}
