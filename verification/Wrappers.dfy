/** The optional result used wherever the C sources return NULL, -1 or a value. */
module Wrappers {
  datatype Option<+T> = None | Some(value: T)
}
