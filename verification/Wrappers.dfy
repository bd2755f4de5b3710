/** Optional values: Kotlin's nullable types (`String?`, a `LiveData` holding `null`). */
module Wrappers {

  datatype Option<+T> = None | Some(value: T)
}
