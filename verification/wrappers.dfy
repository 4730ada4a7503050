/** Helper types shared by the other modules. */
module Wrappers {

  /** A value that may be absent: no encoder call, no save, no clipboard write. */
  datatype Option<T> = None | Some(value: T)
}
