/** Option, standing in for Rust's `Option` and for the panic of a checked operation. */
module Wrappers {
  datatype Option<+T> = None | Some(value: T)
}
