/** The optional value used where the source has a nullable reference or "no coroutine running". */
module Wrappers {

  datatype Option<+T> = None | Some(value: T)
}
