/** The two directions of a multiplexed connection, after parsing and before encoding. */
module RpcMessages {
  import opened Bytes
  import RpcWire

  type Id = nat

  datatype ToServer = Request(id: Id, timeoutMicros: nat, body: Bytes) | Cancel(id: Id)

  /** A status detail: the server's own fixed text for the code, its report of an oversized body, or a handler's words. */
  datatype Message = Standard | TooLong(actual: nat, limit: nat) | Words(text: Bytes)

  datatype Reply = Body(body: Bytes) | Failure(code: RpcWire.Code, message: Message)

  datatype ToClient = Response(id: Id, reply: Reply)

  /** The responses to one id, in order. */
  function ResponsesTo(log: seq<ToClient>, id: Id): seq<ToClient> {
    if log == [] then []
    else
      var last := log[|log| - 1];
      ResponsesTo(log[..|log| - 1], id) + if last.id == id then [last] else []
  }

  lemma {:induction false} ResponsesToAppend(log: seq<ToClient>, last: ToClient, id: Id)
    ensures ResponsesTo(log + [last], id) == ResponsesTo(log, id) + if last.id == id then [last] else []
  {
    assert (log + [last])[..|log|] == log;
  }

  /** The frames sent for one id, in order. */
  function FramesOf(log: seq<ToServer>, id: Id): seq<ToServer> {
    if log == [] then []
    else
      var last := log[|log| - 1];
      FramesOf(log[..|log| - 1], id) + if last.id == id then [last] else []
  }

  lemma {:induction false} FramesOfAppend(log: seq<ToServer>, frame: ToServer, id: Id)
    ensures FramesOf(log + [frame], id) == FramesOf(log, id) + if frame.id == id then [frame] else []
  {
    assert (log + [frame])[..|log|] == log;
  }
}
