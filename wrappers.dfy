/** Rust's `Option`, used wherever the source returns one. */
module Wrappers {

  datatype Option<+T> = None | Some(value: T)
}
