/** The optional value the controller passes around: Rust's `Option`. */
module Wrappers {

  datatype Option<+T> = None | Some(value: T)
}
