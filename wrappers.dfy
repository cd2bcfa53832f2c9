/** The optional value used for attributes that may be missing and for errors that may be absent. */
module Wrappers {

  datatype Option<+T> = None | Some(value: T)
}
