/** Option, as the Rust sources use it. */
module Wrappers {
  datatype Option<+T> = None | Some(value: T)
}
