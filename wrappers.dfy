/** The absent-or-present value that JavaScript expresses with `undefined`. */
module Wrappers {
  datatype Option<+T> = None | Some(value: T)
}
