/** An optional value, used where Go returns a value together with an error
    or a "not found" outcome. */
module Wrappers {

  datatype Option<+T> = None | Some(value: T)
}
