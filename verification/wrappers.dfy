/** The conventional optional value, used for collaborators that may find nothing. */
module Wrappers {

  datatype Option<+T> = None | Some(value: T)
}
