/** Option and a small failure-compatible type for upstream calls. */
module Wrappers {

  /** The conventional Some/None datatype, standing in for JavaScript's `null`/`undefined`. */
  datatype Option<+T> = None | Some(value: T) {

    /** Returns the value encapsulated in Some or a default value if None. */
    function GetOr(default: T): T {
      match this
      case Some(v) => v
      case None => default
    }
  }

  /** The outcome of one upstream request: `Failed` stands for any exception the
      request helper throws (a non-2xx status, an expired login, malformed JSON). */
  datatype Fetched<+T> = Failed | Got(value: T)
}
