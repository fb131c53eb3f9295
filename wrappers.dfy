/** The `Option` type shared by the other modules. */
module Wrappers {

  /** A value that may be absent; in the tag model `None` also stands for JavaScript's `undefined`. */
  datatype Option<+T> = None | Some(value: T)
}
