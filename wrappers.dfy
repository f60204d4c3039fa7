/** The optional value used for "no selection" and "no rotation". */
module Wrappers {

  datatype Option<+T> = None | Some(value: T)
}
