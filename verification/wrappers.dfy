/** Option type shared by the lookups of the model. */
module Wrappers {

  datatype Option<+T> = None | Some(value: T)
}
