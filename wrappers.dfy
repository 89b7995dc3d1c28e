/** Optional values: the model's stand-in for `undefined` in the TypeScript sources. */
module Wrappers {

  datatype Option<+T> = None | Some(value: T)
}
