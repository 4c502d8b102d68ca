/** The engine's "no value" marker: the empty tuple `()` that stands for
    "no en-passant square" becomes `None`. */
module Wrappers {

  datatype Option<+T> = None | Some(value: T)

}
