/** The conventional optional value, used for JavaScript's `undefined` and C's NULL. */
module Wrappers {

  datatype Option<+T> = None | Some(value: T)
}
