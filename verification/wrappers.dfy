/** Option, for the places where PHP has either a value or null. */
module Wrappers {

  datatype Option<+T> = None | Some(value: T)
}
