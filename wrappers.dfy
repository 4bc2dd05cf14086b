/** Small value wrappers shared by the other modules. */
module Wrappers {

  /** A Kotlin nullable value: `None` stands for `null`. */
  datatype Option<+T> = None | Some(value: T)

  /** The outcome of a block that may throw: what `runCatching` or a `try` sees. */
  datatype Attempt<+T> = Returned(value: T) | Threw
}
