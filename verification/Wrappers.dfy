/** A value that may be missing: the source's `Option`. */
module Wrappers {
  datatype Option<+T> = None | Some(value: T)
}
