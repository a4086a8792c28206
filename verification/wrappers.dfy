/** The optional value used for absent results and for the drag record. */
module Wrappers {

  datatype Option<+T> = None | Some(value: T)
}
