/** Optional values: a missing attribute, an absent renderer, a literal that does not parse. */
module Wrappers {

  datatype Option<+T> = None | Some(value: T)
}
