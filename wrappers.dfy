/** The optional value that Swift writes `T?`: a failable initialiser returns it, and
    a coding key's `intValue` is one. */
module Wrappers {

  datatype Option<+T> = None | Some(value: T)
}
