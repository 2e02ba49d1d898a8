/** An optional value: JavaScript's `undefined` (or a rejected promise) is `None`. */
module Wrappers {

  datatype Option<+T> = None | Some(value: T)
}
