/** Option, the model's stand-in for JavaScript's null/undefined results and Java's Optional. */
module Wrappers {

  datatype Option<+T> = None | Some(value: T)
}
