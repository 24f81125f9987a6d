/** A value that JavaScript may leave `undefined`: a request header or an
    environment variable. */
module Wrappers {
  datatype Option<+T> = None | Some(value: T)
}
