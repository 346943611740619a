/** The optional value shared by the models: a JavaScript `null`/`undefined` or a missing Python key is `None`. */
module Wrappers {
  datatype Option<T> = None | Some(value: T)
}
