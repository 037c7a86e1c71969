/**
 The frames of `RpcClient` and `RpcServer` on the wire of `RpcFraming`: which of
 them fit, and why a channel of `RpcSystem` is a prefix of its sender's log.
 */
module RpcLink {
  import opened Bytes
  import opened Collections
  import opened RpcMessages
  import opened RpcWire
  import opened RpcFraming
  import C = RpcClient
  import S = RpcServer
  import RpcSystem

  // ----- Status texts -----

  function Text(s: string): (bytes: Bytes)
    ensures |bytes| == |s|
  {
    seq(|s|, i requires 0 <= i < |s| => (s[i] as int % 256) as byte)
  }

  function Decimal(n: nat): (digits: string)
    ensures |digits| > 0
  {
    (if n < 10 then "" else Decimal(n / 10)) + [('0' as int + n % 10) as char]
  }

  function Pow10(k: nat): nat { if k == 0 then 1 else 10 * Pow10(k - 1) }

  lemma {:induction false} DecimalWidth(n: nat, k: nat)
    requires n < Pow10(k) && k > 0
    ensures |Decimal(n)| <= k
  {
    if n >= 10 { DecimalWidth(n / 10, k - 1); }
  }

  /** The fixed details of the statuses the server makes itself. */
  function StandardText(code: Code): string {
    match code
    case AlreadyExists => "request id is already in flight"
    case DeadlineExceeded => "request deadline exceeded"
    case InvalidArgument => "request timeout exceeds the server limit"
    case ResourceExhausted => "server request capacity exhausted"
    case _ => ""
  }

  function Detail(code: Code, message: Message): Bytes {
    match message
    case Standard => Text(StandardText(code))
    case TooLong(actual, limit) =>
      Text("encoded response is " + Decimal(actual) + " bytes, limit is " + Decimal(limit))
    case Words(text) => text
  }

  function WireBody(reply: Reply): Bytes {
    if reply.Body? then reply.body else Detail(reply.code, reply.message)
  }

  // ----- Frames -----

  const U64_LIMIT: nat := 0x1_0000_0000_0000_0000

  /** The id and the timeout fit their fields. */
  predicate Numbered(f: ToServer) { f.id < U64_LIMIT && (f.Request? ==> f.timeoutMicros < U64_LIMIT) }

  function ClientWire(f: ToServer, trace: TraceId): ClientFrame
    requires Numbered(f)
  {
    if f.Request? then ClientFrame.Request(f.id, f.timeoutMicros, trace, f.body) else ClientFrame.Cancel(f.id)
  }

  function ServerWire(f: ToClient): ServerFrame
    requires f.id < U64_LIMIT
  {
    ServerFrame.Response(f.id, if f.reply.Body? then None else Some(f.reply.code), WireBody(f.reply))
  }

  /** What the caller gets out of the frame: the body exactly as encoded, or the code and the words. */
  lemma {:induction false} FrameCarriesTheReply(f: ToClient)
    requires f.id < U64_LIMIT
    ensures var frame := ServerWire(f);
            && frame.id == f.id
            && match f.reply
               case Body(body) => frame.code == None && frame.body == body
               case Failure(code, Words(text)) => frame.code == Some(code) && frame.body == text
               case Failure(code, TooLong(actual, limit)) =>
                 && frame.code == Some(code)
                 && frame.body == Text("encoded response is ") + Text(Decimal(actual)) + Text(" bytes, limit is ") + Text(Decimal(limit))
               case Failure(code, Standard) => frame.code == Some(code) && frame.body == Text(StandardText(code))
  {
    if f.reply.Failure? && f.reply.message.TooLong? {
      var a, b := Decimal(f.reply.message.actual), Decimal(f.reply.message.limit);
      TextConcat("encoded response is ", a);
      TextConcat("encoded response is " + a, " bytes, limit is ");
      TextConcat("encoded response is " + a + " bytes, limit is ", b);
    }
  }

  lemma {:induction false} TextConcat(a: string, b: string)
    ensures Text(a + b) == Text(a) + Text(b)
  {
  }

  /** A call's frame has its id and, for the request, its timeout, its body and its caller's trace. */
  lemma {:induction false} FrameCarriesTheCall(f: ToServer, trace: TraceId)
    requires Numbered(f)
    ensures var frame := ClientWire(f, trace);
            && frame.id == f.id && frame.Request? == f.Request?
            && (f.Request? ==> frame.timeoutMicros == f.timeoutMicros && frame.body == f.body && frame.traceId == trace)
  {
  }

  /** The number a text of decimal digits stands for. */
  function Numeral(digits: string): nat
    requires forall i :: 0 <= i < |digits| ==> '0' <= digits[i] <= '9'
  {
    if digits == "" then 0
    else 10 * Numeral(digits[..|digits| - 1]) + (digits[|digits| - 1] as nat - '0' as nat)
  }

  lemma {:induction false} DecimalReads(n: nat)
    ensures forall i :: 0 <= i < |Decimal(n)| ==> '0' <= Decimal(n)[i] <= '9'
    ensures Numeral(Decimal(n)) == n
  {
    var digits := Decimal(n);
    if n >= 10 {
      DecimalReads(n / 10);
      assert digits[..|digits| - 1] == Decimal(n / 10);
    } else {
      assert digits[..0] == "";
    }
  }

  function SaturatingSub(a: nat, b: nat): nat { if a < b then 0 else a - b }

  /** What a response body may have, and what a request body may have. */
  function ResponseLimit(config: FrameConfig): nat { SaturatingSub(config.maxFrameBytes, RESPONSE_HEADER_LEN) }

  function RequestLimit(config: FrameConfig): nat { SaturatingSub(config.maxFrameBytes, REQUEST_HEADER_LEN) }

  // ----- Responses -----

  /** The words a handler's failure carries, if it carries any. */
  function OwnWords(result: S.Result): Option<Bytes> {
    match result
    case EncodeFailed(message) => Some(message)
    case Failed(_, message) => Some(message)
    case BadRequest(message) => Some(message)
    case _ => None
  }

  predicate ReplyFits(reply: Reply, config: FrameConfig) {
    RESPONSE_HEADER_LEN + |WireBody(reply)| <= config.maxFrameBytes
  }

  lemma {:induction false} ReplyFitsItsFrame(config: FrameConfig, f: ToClient)
    requires f.id < U64_LIMIT
    ensures Fits(ServerProtocol(), config, ServerWire(f)) <==> ReplyFits(f.reply, config)
  {
    hide WireBody;
  }

  /** Room for every status the server makes itself: the longest reports two numbers of 64 and 32 bits. */
  const ROOMY: nat := 77

  lemma {:induction false} OwnStatusesFit(config: FrameConfig, code: Code, actual: nat)
    requires config.Valid() && config.maxFrameBytes >= ROOMY && actual < U64_LIMIT
    ensures ReplyFits(Failure(code, Standard), config)
    ensures ReplyFits(Failure(code, TooLong(actual, ResponseLimit(config))), config)
  {
    PowersOfTen();
    DecimalWidth(actual, 20);
    DecimalWidth(ResponseLimit(config), 10);
    hide Decimal, Pow10;
    assert |StandardText(code)| <= 40;
  }

  lemma {:induction false} PowersOfTen()
    ensures Pow10(10) == 10_000_000_000 && Pow10(20) == 100_000_000_000_000_000_000
  {
    assert Pow10(2) == 100;
    assert Pow10(4) == 10_000;
    assert Pow10(6) == 1_000_000;
    assert Pow10(8) == 100_000_000;
    assert Pow10(10) == 10_000_000_000;
    assert Pow10(12) == 1_000_000_000_000;
    assert Pow10(14) == 100_000_000_000_000;
    assert Pow10(16) == 10_000_000_000_000_000;
    assert Pow10(18) == 1_000_000_000_000_000_000;
  }

  /** The frame a result needs: ten bytes of header and its body, its words, or the server's report. */
  function FrameNeeded(result: S.Result, config: FrameConfig): nat {
    match result
    case Encoded(body) =>
      if |body| <= ResponseLimit(config) then 10 + |body|
      else 47 + |Decimal(|body|)| + |Decimal(ResponseLimit(config))|
    case EncodeFailed(message) => 10 + |message|
    case Failed(_, message) => 10 + |message|
    case TimedOut => 35
    case BadRequest(message) => 10 + |message|
  }

  /** For every frame size, which results fit. */
  lemma {:induction false} ReplyFitsIff(config: FrameConfig, result: S.Result)
    ensures ReplyFits(S.ReplyFor(result, ResponseLimit(config)), config) <==>
              FrameNeeded(result, config) <= config.maxFrameBytes
  {
    hide Decimal;
  }

  /**
   An oversized body is turned into a status and so fails only its own call. A
   handler's words are not checked: in a frame with room for the server's own
   statuses, they are the only thing that can fail to fit, and do exactly when
   they are longer than a body may be.
   */
  lemma {:induction false} OnlyWordsCanFail(config: FrameConfig, result: S.Result)
    requires config.Valid() && config.maxFrameBytes >= ROOMY
    requires result.Encoded? ==> |result.body| < U64_LIMIT
    ensures ReplyFits(S.ReplyFor(result, ResponseLimit(config)), config) <==>
              (OwnWords(result).Some? ==> |OwnWords(result).value| <= ResponseLimit(config))
  {
    if result.Encoded? { OwnStatusesFit(config, Internal, |result.body|); }
    OwnStatusesFit(config, DeadlineExceeded, 0);
    hide Decimal, Text, StandardText;
  }

  /** The words that end a connection: a handler's error as long as the frame. */
  lemma {:induction false} LongErrorDoesNotFit(config: FrameConfig, code: Code, id: Id) returns (result: S.Result)
    requires id < U64_LIMIT
    ensures result.Failed? && result.code == code
    ensures !Fits(ServerProtocol(), config, ServerWire(ToClient.Response(id, S.ReplyFor(result, ResponseLimit(config)))))
  {
    result := S.Failed(code, seq(config.maxFrameBytes, i => 0));
    ReplyFitsItsFrame(config, ToClient.Response(id, S.ReplyFor(result, ResponseLimit(config))));
  }

  // ----- Every response of a run -----

  ghost predicate AllReplyFit(log: seq<ToClient>, config: FrameConfig) {
    forall i :: 0 <= i < |log| ==> ReplyFits(log[i].reply, config)
  }

  /** What is sent, being sent, or about to be. */
  ghost predicate FitOk(s: S.Server, config: FrameConfig) {
    && AllReplyFit(s.log, config)
    && (s.phase.Refusing? ==> ReplyFits(s.phase.response.reply, config))
    && (forall task :: task in s.handlers && s.handlers[task].stage.Sending? ==>
          ReplyFits(s.handlers[task].stage.reply, config))
  }

  ghost predicate ResultsFit(steps: seq<S.Step>, config: FrameConfig) {
    forall i :: 0 <= i < |steps| && steps[i].Produce? ==> FrameNeeded(steps[i].result, config) <= config.maxFrameBytes
  }

  lemma {:induction false} RequestKeepsFit(s: S.Server, limits: S.Limits, config: FrameConfig, id: Id, timeoutMicros: nat, body: Bytes)
    requires FitOk(s, config) && config.Valid() && config.maxFrameBytes >= ROOMY
    ensures FitOk(S.Requested(s, limits, id, timeoutMicros, body), config)
  {
    var rejection := S.Rejection(s, limits, id, timeoutMicros);
    if rejection.Some? { OwnStatusesFit(config, rejection.value, 0); }
    hide ReplyFits, S.Rejection, AllReplyFit;
  }

  lemma {:induction false} StepKeepsFit(s: S.Server, limits: S.Limits, config: FrameConfig, step: S.Step)
    requires FitOk(s, config) && S.Enabled(s, step) && limits.maxResponseBytes == ResponseLimit(config)
    requires config.Valid() && config.maxFrameBytes >= ROOMY
    requires step.Produce? ==> FrameNeeded(step.result, config) <= config.maxFrameBytes
    ensures FitOk(S.Apply(s, limits, step), config)
  {
    if step.Produce? { ReplyFitsIff(config, step.result); }
    hide ReplyFits, FrameNeeded, S.Requested, S.ReplyFor, S.Retained, AllReplyFit;
    match step
    case Receive(Request(id, timeoutMicros, body)) => RequestKeepsFit(s, limits, config, id, timeoutMicros, body);
    case Receive(Cancel(_)) =>
    case SendStatus => AllReplyFitAppend(s.log, s.phase.response, config);
    case SendReply(task) =>
      AllReplyFitAppend(s.log, ToClient.Response(s.handlers[task].id, s.handlers[task].stage.reply), config);
    case Join(_) => case Stop => case GraceOver => case Leave =>
    case Produce(_, _) => case SendFails(_) => case Panic(_) => case AbortTakesEffect(_) =>
  }

  lemma {:induction false} AllReplyFitAppend(log: seq<ToClient>, last: ToClient, config: FrameConfig)
    requires AllReplyFit(log, config) && ReplyFits(last.reply, config)
    ensures AllReplyFit(log + [last], config)
  {
    hide ReplyFits;
  }

  lemma {:induction false} RunKeepsFit(limits: S.Limits, config: FrameConfig, steps: seq<S.Step>)
    requires S.Run(limits, steps).Some? && limits.maxResponseBytes == ResponseLimit(config) && ResultsFit(steps, config)
    requires config.Valid() && config.maxFrameBytes >= ROOMY
    ensures FitOk(S.Run(limits, steps).value, config)
  {
    if steps != [] {
      var before, last := steps[..|steps| - 1], steps[|steps| - 1];
      assert last == steps[|steps| - 1];
      forall i | 0 <= i < |before| && before[i].Produce?
        ensures FrameNeeded(before[i].result, config) <= config.maxFrameBytes
      {
        assert before[i] == steps[i];
      }
      RunKeepsFit(limits, config, before);
      hide FitOk, S.Enabled, S.Apply;
      StepKeepsFit(S.Run(limits, before).value, limits, config, last);
    }
  }

  function ServerWires(log: seq<ToClient>): seq<ServerFrame>
    requires forall i :: 0 <= i < |log| ==> log[i].id < U64_LIMIT
  {
    seq(|log|, i requires 0 <= i < |log| => ServerWire(log[i]))
  }

  /**
   The write loop on a server's responses: it never meets an oversized frame if
   every reply fits, and never completes if one does not.
   */
  method WriteResponses(config: FrameConfig, log: seq<ToClient>, ready: nat -> bool, succeeds: nat -> bool,
                        flushes: nat -> bool, shutsDown: bool)
    returns (w: Writer, result: WriteResult)
    requires config.Valid() && forall i :: 0 <= i < |log| ==> log[i].id < U64_LIMIT
    ensures AllReplyFit(log, config) ==> !result.Oversized?
    ensures !AllReplyFit(log, config) ==> !result.Done?
  {
    ProtocolsAreLawful();
    hide ReplyFits;
    var frames := ServerWires(log);
    forall i | 0 <= i < |log| ensures Fits(ServerProtocol(), config, frames[i]) <==> ReplyFits(log[i].reply, config) {
      ReplyFitsItsFrame(config, log[i]);
    }
    w, result := WriteFrames(ServerProtocol(), config, frames, ready, succeeds, flushes, shutsDown);
  }

  /** In every run whose results fit, no response ever ends the connection. */
  method WriteRun(config: FrameConfig, limits: S.Limits, ghost steps: seq<S.Step>, log: seq<ToClient>,
                  ready: nat -> bool, succeeds: nat -> bool, flushes: nat -> bool, shutsDown: bool)
    returns (w: Writer, result: WriteResult)
    requires config.Valid() && config.maxFrameBytes >= ROOMY && limits.maxResponseBytes == ResponseLimit(config)
    requires S.Run(limits, steps).Some? && S.Run(limits, steps).value.log == log && ResultsFit(steps, config)
    requires forall i :: 0 <= i < |log| ==> log[i].id < U64_LIMIT
    ensures !result.Oversized?
  {
    RunKeepsFit(limits, config, steps);
    w, result := WriteResponses(config, log, ready, succeeds, flushes, shutsDown);
  }

  // ----- Requests -----

  predicate RequestFits(f: ToServer, config: FrameConfig) {
    (if f.Request? then REQUEST_HEADER_LEN + |f.body| else CANCEL_FRAME_LEN) <= config.maxFrameBytes
  }

  lemma {:induction false} RequestFitsItsFrame(config: FrameConfig, f: ToServer, trace: TraceId)
    requires Numbered(f)
    ensures Fits(ClientProtocol(), config, ClientWire(f, trace)) <==> RequestFits(f, config)
  {
  }

  /** The client's size test lets through exactly what fits, if the frame has room for a header at all. */
  lemma {:induction false} SizeTestDecides(config: FrameConfig, f: ToServer)
    requires f.Request?
    ensures RequestFits(f, config) <==> |f.body| <= RequestLimit(config) && REQUEST_HEADER_LEN <= config.maxFrameBytes
  {
  }

  /** Every call's body passed the size test. */
  ghost predicate BodiesPass(steps: seq<C.Step>, config: FrameConfig) {
    forall i :: 0 <= i < |steps| && steps[i].Begin? ==> |steps[i].body| <= RequestLimit(config)
  }

  ghost predicate BodiesBounded(s: C.Client, config: FrameConfig) {
    forall id :: id in s.bodies ==> |s.bodies[id]| <= RequestLimit(config)
  }

  lemma {:induction false} BodiesAreBounded(limit: nat, config: FrameConfig, steps: seq<C.Step>)
    requires C.Run(limit, steps).Some? && BodiesPass(steps, config)
    ensures BodiesBounded(C.Run(limit, steps).value, config)
  {
    if steps != [] {
      var before, last := steps[..|steps| - 1], steps[|steps| - 1];
      forall i | 0 <= i < |before| && before[i].Begin? ensures |before[i].body| <= RequestLimit(config) {
        assert before[i] == steps[i];
      }
      assert last == steps[|steps| - 1];
      BodiesAreBounded(limit, config, before);
      var s := C.Run(limit, before).value;
      hide RequestLimit, C.Run;
      BodiesComeFromCalls(s, limit, last);
    }
  }

  lemma {:induction false} BodiesComeFromCalls(s: C.Client, limit: nat, step: C.Step)
    requires C.Enabled(s, limit, step)
    ensures C.Apply(s, limit, step).bodies == if step.Begin? then s.bodies[s.nextId := step.body] else s.bodies
  {
    hide C.Enabled;
    if RpcSystem.ByCaller(step) { RpcSystem.CallerGrows(s, limit, step); }
    else if RpcSystem.Offering(step) { RpcSystem.OfferGrows(s, limit, step); }
    else { RpcSystem.OthersSendNothing(s, limit, step); }
    hide C.Apply;
  }

  /** Every frame a client sends fits, when every body passed the size test. */
  lemma {:induction false} ClientFramesFit(limit: nat, config: FrameConfig, steps: seq<C.Step>, i: nat)
    requires C.Run(limit, steps).Some? && BodiesPass(steps, config) && REQUEST_HEADER_LEN <= config.maxFrameBytes
    requires i < |C.Run(limit, steps).value.log|
    ensures RequestFits(C.Run(limit, steps).value.log[i], config)
  {
    var s := C.Run(limit, steps).value;
    var f := s.log[i];
    BodiesAreBounded(limit, config, steps);
    C.RunKeepsInv(limit, steps);
    hide C.Run;
    RpcSystem.NextFrame(s, limit, i);
    if f.Request? { SizeTestDecides(config, f); }
  }

  // ----- The channel -----

  function ClientWires(log: seq<ToServer>, trace: TraceId): seq<ClientFrame>
    requires forall i :: 0 <= i < |log| ==> Numbered(log[i])
  {
    seq(|log|, i requires 0 <= i < |log| => ClientWire(log[i], trace))
  }

  /**
   Why a channel is a prefix of its sender's log: whatever part of a client's
   bytes arrives, however it is cut, the server reads the first frames of the
   log, unaltered and in order, and then one final event.
   */
  lemma {:induction false} ServerReadsAPrefix(limit: nat, config: FrameConfig, steps: seq<C.Step>, trace: TraceId,
                                              arrived: Bytes, end: StreamEnd)
    returns (n: nat, rest: Bytes, last: ReadEvent<ClientFrame>)
    requires C.Run(limit, steps).Some? && BodiesPass(steps, config)
    requires config.Valid() && REQUEST_HEADER_LEN <= config.maxFrameBytes
    requires var log := C.Run(limit, steps).value.log;
             && (forall i :: 0 <= i < |log| ==> Numbered(log[i]))
             && IsPrefix(arrived, Encode(ClientProtocol(), ClientWires(log, trace)))
    ensures var log := C.Run(limit, steps).value.log;
            && n <= |log| && arrived == Encode(ClientProtocol(), ClientWires(log[..n], trace)) + rest
            && Decode(ClientProtocol(), config.maxFrameBytes, arrived, end) ==
                 FrameEvents(ClientWires(log[..n], trace)) + [last]
    ensures EndsRight(last, rest, end)
  {
    ProtocolsAreLawful();
    var log := C.Run(limit, steps).value.log;
    var frames := ClientWires(log, trace);
    forall i {:trigger Fits(ClientProtocol(), config, frames[i])} | 0 <= i < |frames|
      ensures Fits(ClientProtocol(), config, frames[i])
    {
      ClientFramesFit(limit, config, steps, i);
      RequestFitsItsFrame(config, log[i], trace);
    }
    n, rest, last := CutStreamDeliversWholeFrames(ClientProtocol(), config, frames, arrived, end);
    assert frames[..n] == ClientWires(log[..n], trace);
  }

  /** The other channel, the same way. */
  lemma {:induction false} ClientReadsAPrefix(config: FrameConfig, log: seq<ToClient>, arrived: Bytes, end: StreamEnd)
    returns (n: nat, rest: Bytes, last: ReadEvent<ServerFrame>)
    requires config.Valid() && AllReplyFit(log, config) && forall i :: 0 <= i < |log| ==> log[i].id < U64_LIMIT
    requires IsPrefix(arrived, Encode(ServerProtocol(), ServerWires(log)))
    ensures n <= |log| && arrived == Encode(ServerProtocol(), ServerWires(log[..n])) + rest
    ensures Decode(ServerProtocol(), config.maxFrameBytes, arrived, end) == FrameEvents(ServerWires(log[..n])) + [last]
    ensures EndsRight(last, rest, end)
  {
    ProtocolsAreLawful();
    hide ReplyFits;
    var frames := ServerWires(log);
    forall i {:trigger Fits(ServerProtocol(), config, frames[i])} | 0 <= i < |frames|
      ensures Fits(ServerProtocol(), config, frames[i])
    {
      ReplyFitsItsFrame(config, log[i]);
    }
    n, rest, last := CutStreamDeliversWholeFrames(ServerProtocol(), config, frames, arrived, end);
    assert frames[..n] == ServerWires(log[..n]);
  }
}
