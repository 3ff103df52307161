/** Optional values, used for the engine's nullable references (a mesh, an owner, a hit actor). */
module Wrappers {

  datatype Option<+T> = None | Some(value: T)
}
