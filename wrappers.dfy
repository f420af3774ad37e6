/** An optional value, shared by the other modules. */
module Wrappers {

  /** An optional value: JavaScript's `undefined` for an absent optional prop. */
  datatype Option<+T> = None | Some(value: T)
}
