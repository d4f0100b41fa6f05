/** The optional value used throughout the model: JavaScript's `undefined`
    (a missing header, a missing body field, a failed lookup) is `None`. */
module Wrappers {

  datatype Option<+T> = None | Some(value: T)
}
