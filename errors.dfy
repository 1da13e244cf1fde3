/**
 * errors.go: the fundamentalError record. Its cause is another error, so
 * records link into a chain of causes; an error that is not a
 * fundamentalError is opaque and ends the chain.
 */
module Errors {
  import opened Wrappers
  import opened Stack

  /** A Go error value: one of this package's records, or any other error shown only by its text. */
  datatype Error = Fundamental(record: FundamentalError) | Foreign(text: string)

  /**
   * cause (absent for nil), the optional code (0 when not given), the public
   * message, the internal detail, and the stack New attaches.
   */
  datatype FundamentalError = FundamentalError(
    cause: Option<Error>,
    code: int,
    msg: string,
    detail: string,
    stack: Option<StackTrace>)

  /** The error e directly wraps, if any. */
  function DirectCause(e: Error): Option<Error> {
    if e.Fundamental? then e.record.cause else None
  }

  /**
   * The chain of causes from e inwards: it starts at e, each element's cause
   * is the next one, and the last element wraps nothing.
   */
  function Chain(e: Error): (c: seq<Error>)
    ensures |c| >= 1 && c[0] == e
    ensures forall i :: 0 <= i < |c| - 1 ==> DirectCause(c[i]) == Some(c[i + 1])
    ensures DirectCause(c[|c| - 1]) == None
    decreases e
  {
    match e
    case Foreign(_) => [e]
    case Fundamental(r) =>
      match r.cause
      case None => [e]
      case Some(inner) => [e] + Chain(inner)
  }
}
