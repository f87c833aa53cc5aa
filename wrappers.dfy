/** The optional value used for nullable fields of the slider (the auto-play handle,
    the registered animation-end listener). */
module Wrappers {

  datatype Option<+T> = None | Some(value: T)
}
