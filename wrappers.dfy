/** Optional values: a path id that may not parse, an editing id that may be unset. */
module Wrappers {

  datatype Option<+T> = None | Some(value: T)

}
