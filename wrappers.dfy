/** The optional value used for a field that a JavaScript object may lack. */
module Wrappers {

  datatype Option<+T> = None | Some(value: T)
}
