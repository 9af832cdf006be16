/** Small failure-aware datatypes shared by the other modules. */
module Wrappers {

  /** A value that may be absent, such as an optional handshake query parameter. */
  datatype Option<+T> = None | Some(value: T)

  /**
   * What a call into the document store yields: the records it holds, or
   * `Unreachable` when the query throws (the handlers catch and log that).
   */
  datatype Store<+T> = Reachable(records: T) | Unreachable
}
