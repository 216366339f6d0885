/** The optional value used for the wrapper's callable slot (a `unique_ptr` that is either set or reset). */
module Wrappers {

  datatype Option<+T> = None | Some(value: T)
}
