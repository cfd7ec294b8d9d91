/** The conventional optional value, used for "no item matched". */
module Wrappers {
  datatype Option<+T> = None | Some(value: T)
}
