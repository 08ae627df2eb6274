/** Optional values: an empty board square, a missing hero, a missing catalog entry. */
module Wrappers {

  datatype Option<+T> = None | Some(value: T)
}
