/** The client's side of the Channel stream. */
module ClientStream {
  import opened CommandSession
  import HardwareStore

  type Info = HardwareStore.Info

  /** What a result says about a command. */
  datatype Answer = Answer(status: Status, exitCode: int, stdout: string, stderr: string, error: string)

  /** What the client sends besides heartbeats. */
  datatype Message =
    | Result(id: CommandId, answer: Answer)
    | Report(info: Info)

  /** A stream.Send call, and whether it returned without an error. */
  datatype Attempt = Attempt(msg: Message, ok: bool)

  class Stream {
    var attempts: seq<Attempt>

    constructor ()
      ensures attempts == []
    {
      attempts := [];
    }

    /** The network decides whether the call succeeds. */
    method Send(msg: Message, ok: bool)
      modifies this
      ensures attempts == old(attempts) + [Attempt(msg, ok)]
    {
      attempts := attempts + [Attempt(msg, ok)];
    }
  }
}
