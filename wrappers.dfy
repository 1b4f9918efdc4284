/** The optional value used where the source throws and catches an exception. */
module Wrappers {

  datatype Option<+T> = None | Some(value: T)
}
