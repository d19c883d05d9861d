/** The optional value used wherever the Rust code has an `Option`. */
module Wrappers {
  datatype Option<+T> = None | Some(value: T)
}
