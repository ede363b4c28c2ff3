/** The optional value used for a file whose text could not be read. */
module Wrappers {
  datatype Option<+T> = None | Some(value: T)
}
