/** The absent-or-present result used where the layer code returns null. */
module Wrappers {
  datatype Option<+T> = None | Some(value: T)
}
