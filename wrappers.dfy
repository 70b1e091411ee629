/** The Option type used for operations of the model that can fail
    (a Python call that raises, or a lookup that finds nothing). */
module Wrappers {

  datatype Option<+T> = None | Some(value: T)
}
