/** Optional values, for the places where the modelled code works with a
    reference that may be null. */
module Wrappers {

  datatype Option<+T> = None | Some(value: T)
}
