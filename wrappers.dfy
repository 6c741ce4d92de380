/** The optional value: `null` / `undefined` results of the source become `None`. */
module Wrappers {
  datatype Option<+T> = None | Some(value: T)

  /** How an awaited promise settles: rejected, or resolved with a value. */
  datatype Settled<+T> = Rejected | Resolved(value: T)
}
