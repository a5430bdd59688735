/** The optional value used for serde's length hint, an error's cause and a decoder's result. */
module Wrappers {
  datatype Option<+T> = None | Some(value: T)
}
