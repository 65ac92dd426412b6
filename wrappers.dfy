/** The optional value used for every "this may not parse" result of the model. */
module Wrappers {

  datatype Option<+T> = None | Some(value: T)

}
