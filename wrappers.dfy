/** The optional value used for `undefined`/`null` results throughout the model. */
module Wrappers {
  datatype Option<+T> = None | Some(value: T)
}
