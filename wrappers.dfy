/** Optional values and fallible results, standing in for `undefined` and for
    rejected promises / thrown errors of the TypeScript source. */
module Wrappers {

  datatype Option<+T> = None | Some(value: T)

  datatype Result<+T, +E> = Ok(value: T) | Err(error: E)
}
