/** The optional value used for laid-out frames and for the shared open-row reference. */
module Wrappers {

  datatype Option<+T> = None | Some(value: T)
}
