/** Optional values, used for the shape errors and parse errors
    that the modelled code raises. */
module Wrappers {

  datatype Option<+T> = None | Some(value: T)

}
