/** A value, or a failure that carries nothing further. */
module Wrappers {
  datatype Option<+T> = None | Some(value: T)
}
