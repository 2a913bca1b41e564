/** Small helper types shared by the modules of the process manager. */
module Util {

  /** A value that may be absent; stands for a C pointer that may be NULL. */
  datatype Option<T> = None | Some(value: T)
}
