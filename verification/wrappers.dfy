/** Option type shared by the modules of this project. */
module Wrappers {

  /** A value that may be absent: stands for an invalid `NodeIndex` or `QModelIndex`. */
  datatype Option<+T> = None | Some(value: T)
}
