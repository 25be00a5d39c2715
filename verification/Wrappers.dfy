/** An optional value, for the places where the program uses None. */
module Wrappers {
  datatype Option<+T> = None | Some(value: T)
}
