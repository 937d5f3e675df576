/** Small value wrappers shared by every module: an optional value and the
    outcome of one call to the remote store. */
module Wrappers {

  /** A value that may be absent (`null` / `undefined` in the dashboard). */
  datatype Option<+T> = None | Some(value: T)

  /** The outcome of one remote call: the rows (or row) the store returned,
      or an error. The store's answer is an input of the model; no call is
      ever made. */
  datatype Remote<+R> = Ok(value: R) | Err

  /** Acknowledgement of a remote write that returns no rows. */
  type Ack = Remote<()>

  /** `o ?? fallback`: the present value, or the fallback when absent. */
  function GetOr<T>(o: Option<T>, fallback: T): T
  {
    match o
    case Some(v) => v
    case None => fallback
  }
}
