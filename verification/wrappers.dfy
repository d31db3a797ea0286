/** Option, used for JavaScript's `null`/`undefined` and for an absent client socket. */
module Wrappers {
  datatype Option<+T> = None | Some(value: T)
}
