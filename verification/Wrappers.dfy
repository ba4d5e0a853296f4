/** The optional value every component uses. */
module Wrappers {
  datatype Option<+T> = None | Some(value: T)
}
