/** The optional value used where the application stores `null`. */
module Wrappers {
  datatype Option<+T> = None | Some(value: T)
}
