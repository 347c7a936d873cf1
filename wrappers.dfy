/** The optional-value datatype shared by the model: a JSON field that may be
    absent or null, a JavaScript value that may be `undefined`. */
module Wrappers {
  datatype Option<+T> = None | Some(value: T)
}
