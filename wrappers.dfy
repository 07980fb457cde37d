/** The optional value used wherever JavaScript has `undefined`/`null`. */
module Wrappers {

  datatype Option<+T> = None | Some(value: T)
}
