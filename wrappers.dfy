/** The usual optional-value datatype, used where the program gives up on a
    file it cannot open. */
module Wrappers {
  datatype Option<+T> = None | Some(value: T)
}
