/** Optional values: Kotlin's nullable types (`Long?`, `String?`, `CashCard?`). */
module Wrappers {

  datatype Option<+T> = None | Some(value: T)

}
