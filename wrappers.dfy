/** The optional-value wrapper used for the game's optional payload fields. */
module Wrappers {
  datatype Option<+T> = None | Some(value: T)
}
