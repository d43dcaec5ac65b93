/** The optional value that the Rust code returns from every fallible call. */
module Wrappers {
  datatype Option<+T> = None | Some(value: T)
}
