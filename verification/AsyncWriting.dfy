/** What is common to the asynchronous writers: answers of futures, calls, and their outcomes. */
module AsyncWriting {
  import opened Prelude
  import opened S3Service

  datatype Error =
    | PartSizeTooSmall | PartSizeTooLarge | ZeroUploadingParts
    | RequestFailed | NoUploadId | NoPartNumber
    | StateIsNone | WriteAfterClose | FlushAfterClose | CloseAfterClose

  /**
   What a future answers when it is polled. A failed request may nevertheless have had its effect
   on the service before the response was lost.
   */
  datatype Answer = NotReady | Succeeded(tag: Tag) | Failed(kept: Option<Tag>)

  /** The answers of a whole run: the future polled at count `k` answers `env(k)`. */
  type Env = nat -> Answer

  datatype Call = WriteCall(buf: seq<byte>) | FlushCall | CloseCall

  datatype Outcome =
    | Wrote(write: Poll<Result<nat, Error>>)
    | Flushed(flush: Poll<Result<(), Error>>)
    | ClosedWith(close: Poll<Result<(), Error>>)
  {
    predicate IsError() {
      match this
      case Wrote(p) => p.Ready? && p.value.Err?
      case Flushed(p) => p.Ready? && p.value.Err?
      case ClosedWith(p) => p.Ready? && p.value.Err?
    }

    predicate IsPending() {
      match this
      case Wrote(p) => p.Pending?
      case Flushed(p) => p.Pending?
      case ClosedWith(p) => p.Pending?
    }
  }

  /** The bytes of one call that the caller was told were written. */
  function Taken(call: Call, outcome: Outcome): (bytes: seq<byte>) {
    match (call, outcome)
    case (WriteCall(buf), Wrote(Ready(Ok(n)))) => if n <= |buf| then buf[..n] else []
    case _ => []
  }

  /** The bytes of a run that the caller was told were written. */
  function Accepted(calls: seq<Call>, outcomes: seq<Outcome>): (bytes: seq<byte>)
    requires |calls| == |outcomes|
  {
    if calls == [] then []
    else Accepted(calls[..|calls|-1], outcomes[..|calls|-1]) + Taken(calls[|calls|-1], outcomes[|calls|-1])
  }
}
