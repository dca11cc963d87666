/** Optional values: JavaScript's `null`/`undefined` and Java's `null`. */
module Wrappers {

  datatype Option<+T> = None | Some(value: T) {

    /** The value, or `default` when absent (JavaScript's `x ?? d`). */
    function GetOr(default: T): T {
      match this
      case Some(v) => v
      case None => default
    }
  }
}

/** The `{code, message, data}` envelope every backend endpoint answers with. */
module Replies {

  /** The outcome of one awaited API call: the envelope, or a rejected promise. */
  datatype Reply<+T> = Reply(code: int, message: string, data: T) | Threw(error: string)
}
