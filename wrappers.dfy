/** The optional value shared by the modules of the model. */
module Wrappers {

  /** An operation of the host that either yields a value or fails. */
  datatype Option<+T> = None | Some(value: T)
}
