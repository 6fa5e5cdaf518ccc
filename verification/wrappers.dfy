/** A value that may be absent: a null pointer or an unanswered request. */
module Wrappers {

  datatype Option<+T> = None | Some(value: T)
}
