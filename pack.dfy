/**
 * pack.go: New builds a fundamentalError from a message, the caller's
 * description and a freshly captured stack. The caller frame, the addresses
 * the stack walk reports and their symbolization are inputs.
 */
module Pack {
  import opened Wrappers
  import opened Stack
  import opened Tool
  import opened Errors

  /** fmt.Sprintf("%v, %v", info, msg): the caller info, ", ", then the message, which ends it. */
  function Detail(info: string, msg: string): (d: string)
    ensures |d| == |info| + 2 + |msg|
    ensures d[..|info|] == info && d[|info|..|info| + 2] == ", " && d[|info| + 2..] == msg
  {
    info + ", " + msg
  }

  /**
   * New: a record carrying msg, no code, no cause, the detail
   * "name(file:line), msg" and a new stack of at most Depth frames whose
   * cursor is at its start.
   */
  method New(msg: string, caller: Frame, walk: seq<uintptr>, symbolize: uintptr -> Frame) returns (err: Error)
    ensures err.Fundamental?
    ensures err.record.msg == msg && err.record.code == 0 && err.record.cause == None
    ensures err.record.detail == Detail(CallerFuncInfo(caller), msg)
    ensures err.record.stack.Some?
    ensures var cursor := err.record.stack.value.cursor;
      && fresh(cursor) && cursor.Valid() && cursor.pos == 0
      && |cursor.frames| == Min(Depth, |walk|) <= Depth
      && forall i :: 0 <= i < |cursor.frames| ==> cursor.frames[i] == symbolize(walk[i])
  {
    var st := Callers(walk, symbolize);
    err := Fundamental(FundamentalError(None, 0, msg, Detail(CallerFuncInfo(caller), msg), Some(st)));
  }
}
