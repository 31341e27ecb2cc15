/** The optional value used for a due date that may be absent and for a prompt that may be cancelled. */
module Wrappers {

  datatype Option<+T> = None | Some(value: T)
}
