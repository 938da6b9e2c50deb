/** The optional value the records and the selection step use, as Rust's Option. */
module Wrappers {

  datatype Option<+T> = None | Some(value: T)
}
