/** Optional values, used for a PHP `null` and for partial decoders. */
module Wrappers {
  datatype Option<+T> = None | Some(value: T)
}
