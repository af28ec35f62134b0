/** Optional values: JavaScript's `undefined`/`null` where the interpreter lets them flow. */
module Wrappers {

  datatype Option<+T> = None | Some(value: T)
}
