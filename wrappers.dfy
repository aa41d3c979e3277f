/** The optional value used for JavaScript's `undefined` / React's `null` state. */
module Wrappers {

  datatype Option<+T> = None | Some(value: T)
}
