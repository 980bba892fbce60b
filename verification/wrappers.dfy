/** Optional values: a TypeScript optional property (`x?: T`) or a JavaScript
    value that may be `undefined` is modelled as `Option<T>`. */
module Wrappers {

  datatype Option<+T> = None | Some(value: T)
}
