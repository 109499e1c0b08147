/** Optional values: the model's stand-in for JavaScript's `undefined`/`null`
    results (a regex that does not match, a `find` that finds nothing) and for
    operations that throw. */
module Wrappers {

  datatype Option<+T> = None | Some(value: T)

}
