/**
 Length-prefixed framing. `WriteFrames` batches queued frames into few writes;
 `ReadFrames` splits whatever chunks the socket delivers. Both are proved
 against specifications that know nothing of batches, buffers or chunks:
 `Encode` (the frames' bytes, concatenated) and `Decode` (the events that a
 whole byte stream means).
 */
module RpcFraming {
  import opened Bytes
  import opened Collections
  import opened RpcWire

  const PREFIX_BYTES: nat := 4

  datatype FrameConfig = FrameConfig(maxFrameBytes: nat, maxBatchFrames: nat, maxBatchBytes: nat)
  {
    predicate Valid() {
      0 < maxFrameBytes < 0x1_0000_0000 && 0 < maxBatchFrames && 0 < maxBatchBytes
    }
  }

  /** One direction of the protocol: how its frames are laid out and parsed. */
  datatype Protocol<!F> = Protocol(
    payloadLen: F -> nat,
    header: F -> Bytes,
    body: F -> Bytes,
    parse: Bytes -> Result<F, FrameError>)
  {
    function Payload(f: F): Bytes { header(f) + body(f) }
  }

  ghost predicate Lawful<F(!new)>(p: Protocol<F>) {
    forall f: F {:trigger p.payloadLen(f)} {:trigger p.Payload(f)} {:trigger p.header(f)} ::
      && p.parse(p.Payload(f)) == Ok(f)
      && p.payloadLen(f) == |p.Payload(f)|
      && |p.header(f)| <= MAX_HEADER_LEN
  }

  function ClientProtocol(): Protocol<ClientFrame> {
    Protocol(ClientPayloadLen, ClientHeader, ClientBody, ParseClient)
  }

  function ServerProtocol(): Protocol<ServerFrame> {
    Protocol(ServerPayloadLen, ServerHeader, ServerBody, ParseServer)
  }

  /** Both directions of the wire protocol meet the framing layer's needs. */
  lemma {:induction false} ProtocolsAreLawful()
    ensures Lawful(ClientProtocol())
    ensures Lawful(ServerProtocol())
  {
    forall f: ClientFrame
      ensures ParseClient(ClientHeader(f) + ClientBody(f)) == Ok(f)
      ensures ClientPayloadLen(f) == |ClientHeader(f) + ClientBody(f)|
      ensures |ClientHeader(f)| <= MAX_HEADER_LEN
    {
      ClientRoundTrip(f);
    }
    forall f: ServerFrame
      ensures ParseServer(ServerHeader(f) + ServerBody(f)) == Ok(f)
      ensures ServerPayloadLen(f) == |ServerHeader(f) + ServerBody(f)|
      ensures |ServerHeader(f)| <= MAX_HEADER_LEN
    {
      ServerRoundTrip(f);
    }
  }

  // ----- Specification of a byte stream -----

  datatype ConnectionError =
    | FrameTooLarge(actual: nat, limit: nat)
    | BadFrame(error: FrameError)
    | EndedInsideFrame
    | IoFailed

  datatype ReadEvent<F> = Frame(frame: F) | Closed | Failed(error: ConnectionError)

  /** How the stream ends once its bytes are used up. */
  datatype StreamEnd = Eof | IoFailure

  function Prefixed<F>(p: Protocol<F>, f: F): Bytes {
    PutU32(|p.Payload(f)|) + p.Payload(f)
  }

  function Encode<F>(p: Protocol<F>, frames: seq<F>): Bytes {
    if frames == [] then [] else Prefixed(p, frames[0]) + Encode(p, frames[1..])
  }

  /** What a whole byte stream means, read frame by frame from its start. */
  ghost function Decode<F>(p: Protocol<F>, limit: nat, s: Bytes, end: StreamEnd): seq<ReadEvent<F>>
    decreases |s|
  {
    if |s| < PREFIX_BYTES then [AtEnd(s, end)]
    else
      var n := ReadU32(s[..PREFIX_BYTES]);
      if n > limit then [Failed(FrameTooLarge(n, limit))]
      else if |s| < PREFIX_BYTES + n then [AtEnd(s, end)]
      else match p.parse(s[PREFIX_BYTES..PREFIX_BYTES + n])
           case Ok(f) => [Frame(f)] + Decode(p, limit, s[PREFIX_BYTES + n..], end)
           case Err(e) => [Failed(BadFrame(e))]
  }

  function AtEnd<F>(rest: Bytes, end: StreamEnd): ReadEvent<F> {
    if end == IoFailure then Failed(IoFailed)
    else if rest == [] then Closed
    else Failed(EndedInsideFrame)
  }

  // ----- What the events say about the bytes -----

  function Cut<T>(s: seq<T>, n: nat): seq<T> {
    if n < |s| then s[..n] else s
  }

  /** What the four bytes in front announce, most significant first. */
  function Announced(s: Bytes): nat
    requires |s| >= PREFIX_BYTES
  {
    s[0] as nat * 0x100_0000 + s[1] as nat * 0x1_0000 + s[2] as nat * 0x100 + s[3] as nat
  }

  /** Payloads one after the other, each behind its length. */
  function Packed(payloads: seq<Bytes>): Bytes {
    if payloads == [] then [] else PutU32(|payloads[0]|) + payloads[0] + Packed(payloads[1..])
  }

  /** Nothing, or the beginning of a payload that is not too long. */
  predicate Unfinished(rest: Bytes, limit: nat) {
    |rest| < PREFIX_BYTES || (Announced(rest) <= limit && |rest| < PREFIX_BYTES + Announced(rest))
  }

  /** Why reading ends here: what is left of the bytes, and how the stream ended. */
  ghost predicate Concludes<F>(p: Protocol<F>, limit: nat, rest: Bytes, end: StreamEnd, last: ReadEvent<F>) {
    match last
    case Frame(_) => false
    case Closed => end == Eof && rest == []
    case Failed(EndedInsideFrame) => end == Eof && rest != [] && Unfinished(rest, limit)
    case Failed(IoFailed) => end == IoFailure && Unfinished(rest, limit)
    case Failed(FrameTooLarge(actual, most)) =>
      |rest| >= PREFIX_BYTES && actual == Announced(rest) && actual > limit && most == limit
    case Failed(BadFrame(error)) =>
      && |rest| >= PREFIX_BYTES && Announced(rest) <= limit && |rest| >= PREFIX_BYTES + Announced(rest)
      && p.parse(rest[PREFIX_BYTES..PREFIX_BYTES + Announced(rest)]) == Err(error)
  }

  /** The first events are the payloads in front, each within the limit and parsed. */
  ghost predicate Parsed<F>(p: Protocol<F>, limit: nat, payloads: seq<Bytes>, events: seq<ReadEvent<F>>) {
    && |payloads| <= |events|
    && forall i :: 0 <= i < |payloads| ==>
         |payloads[i]| <= limit && p.parse(payloads[i]).Ok? && events[i] == Frame(p.parse(payloads[i]).value)
  }

  /** The payloads in front, as far as the receiver takes them, and why there are no more. */
  ghost predicate Explained<F>(p: Protocol<F>, limit: nat, payloads: seq<Bytes>, rest: Bytes, end: StreamEnd, accepts: nat,
                               events: seq<ReadEvent<F>>) {
    && |events| == (if accepts <= |payloads| then accepts else |payloads| + 1)
    && Parsed(p, limit, Cut(payloads, accepts), events)
    && (accepts > |payloads| ==> Concludes(p, limit, rest, end, events[|payloads|]))
  }

  /**
   The events of any bytes, valid or not: the bytes are some payloads, read as
   frames, and a rest that, with the way the stream ended, gives the one last
   event. A clean close therefore means the frames have used up every byte.
   */
  lemma {:induction false} EventsExplainBytes<F>(p: Protocol<F>, limit: nat, s: Bytes, end: StreamEnd, accepts: nat)
    returns (payloads: seq<Bytes>, rest: Bytes)
    ensures s == Packed(payloads) + rest
    ensures Explained(p, limit, payloads, rest, end, accepts, Cut(Decode(p, limit, s, end), accepts))
  {
    payloads, rest := WholeExplained(p, limit, s, end);
  }

  /** How many bytes the frame in front takes, if there is a whole one that parses. */
  ghost function FrontFrame<F>(p: Protocol<F>, limit: nat, s: Bytes): Option<nat> {
    if |s| < PREFIX_BYTES then None
    else
      var n := ReadU32(s[..PREFIX_BYTES]);
      if n <= limit && |s| >= PREFIX_BYTES + n && p.parse(s[PREFIX_BYTES..PREFIX_BYTES + n]).Ok? then Some(n) else None
  }

  lemma {:induction false} NoFrontFrameConcludes<F>(p: Protocol<F>, limit: nat, s: Bytes, end: StreamEnd)
    requires FrontFrame(p, limit, s).None?
    ensures |Decode(p, limit, s, end)| == 1 && Concludes(p, limit, s, end, Decode(p, limit, s, end)[0])
  {
    if |s| >= PREFIX_BYTES { PrefixWeights(s[..PREFIX_BYTES]); }
    hide BeValue, BeBytes;
  }

  lemma {:induction false} FrontFrameIsRead<F>(p: Protocol<F>, limit: nat, s: Bytes, end: StreamEnd)
    requires FrontFrame(p, limit, s).Some?
    ensures var n := FrontFrame(p, limit, s).value;
            && PREFIX_BYTES + n <= |s| && n <= limit
            && var payload, later := s[PREFIX_BYTES..PREFIX_BYTES + n], s[PREFIX_BYTES + n..];
            && p.parse(payload).Ok? && s == PutU32(|payload|) + payload + later
            && Decode(p, limit, s, end) == [Frame(p.parse(payload).value)] + Decode(p, limit, later, end)
  {
    PrefixWeights(s[..PREFIX_BYTES]);
    hide BeValue, BeBytes;
  }

  lemma {:induction false} WholeExplained<F>(p: Protocol<F>, limit: nat, s: Bytes, end: StreamEnd)
    returns (payloads: seq<Bytes>, rest: Bytes)
    ensures var events := Decode(p, limit, s, end);
            && s == Packed(payloads) + rest && |events| == |payloads| + 1
            && Parsed(p, limit, payloads, events) && Concludes(p, limit, rest, end, events[|payloads|])
    decreases |s|
  {
    payloads, rest := [], s;
    assert Packed(payloads) + s == s;
    if FrontFrame(p, limit, s).None? {
      NoFrontFrameConcludes(p, limit, s, end);
      hide Decode, FrontFrame, Concludes;
    } else {
      hide Concludes, Parsed, Decode, FrontFrame;
      FrontFrameIsRead(p, limit, s, end);
      var n := FrontFrame(p, limit, s).value;
      var payload, later := s[PREFIX_BYTES..PREFIX_BYTES + n], s[PREFIX_BYTES + n..];
      var more, left := WholeExplained(p, limit, later, end);
      payloads, rest := [payload] + more, left;
      assert payloads[1..] == more;
      ConcatAssoc(PutU32(n) + payload, Packed(more), left);
      ParsedGrows(p, limit, payload, more, Decode(p, limit, later, end));
    }
  }

  lemma {:induction false} ParsedGrows<F>(p: Protocol<F>, limit: nat, payload: Bytes, more: seq<Bytes>, events: seq<ReadEvent<F>>)
    requires Parsed(p, limit, more, events) && |payload| <= limit && p.parse(payload).Ok?
    ensures Parsed(p, limit, [payload] + more, [Frame(p.parse(payload).value)] + events)
  {
  }

  // ----- Reading -----

  datatype Taken = NeedMore | TooLarge(len: nat) | Payload(payload: Bytes, rest: Bytes)

  /** Splits off the next complete payload, if the buffer holds one. */
  function TakeFrame(buffer: Bytes, limit: nat): (r: Taken)
    ensures r.Payload? ==> |r.payload| <= limit && |buffer| == PREFIX_BYTES + |r.payload| + |r.rest|
    ensures r.Payload? ==> buffer == buffer[..PREFIX_BYTES] + r.payload + r.rest
    ensures r.NeedMore? && |buffer| >= PREFIX_BYTES ==> |buffer| < PREFIX_BYTES + limit
  {
    if |buffer| < PREFIX_BYTES then NeedMore
    else
      var n := ReadU32(buffer[..PREFIX_BYTES]);
      if n > limit then TooLarge(n)
      else if |buffer| < PREFIX_BYTES + n then NeedMore
      else Payload(buffer[PREFIX_BYTES..PREFIX_BYTES + n], buffer[PREFIX_BYTES + n..])
  }

  /** A decision taken on a buffered prefix is the one the whole stream calls for. */
  lemma {:induction false} TakeFrameIsDecodesStep<F>(p: Protocol<F>, limit: nat, buffer: Bytes, later: Bytes, end: StreamEnd)
    ensures var all := Decode(p, limit, buffer + later, end);
            var taken := TakeFrame(buffer, limit);
            && (taken.TooLarge? ==> all == [Failed(FrameTooLarge(taken.len, limit))])
            && (taken.Payload? && p.parse(taken.payload).Ok? ==>
                  all == [Frame(p.parse(taken.payload).value)] + Decode(p, limit, taken.rest + later, end))
            && (taken.Payload? && p.parse(taken.payload).Err? ==>
                  all == [Failed(BadFrame(p.parse(taken.payload).error))])
            && (taken.NeedMore? && later == [] ==> all == [AtEnd(buffer, end)])
  {
    var s := buffer + later;
    if |buffer| >= PREFIX_BYTES {
      assert s[..PREFIX_BYTES] == buffer[..PREFIX_BYTES];
      var n := ReadU32(buffer[..PREFIX_BYTES]);
      if n <= limit && |buffer| >= PREFIX_BYTES + n {
        assert s[PREFIX_BYTES..PREFIX_BYTES + n] == buffer[PREFIX_BYTES..PREFIX_BYTES + n];
        assert s[PREFIX_BYTES + n..] == buffer[PREFIX_BYTES + n..] + later;
      }
    }
    if later == [] { assert s == buffer; }
  }

  /** The bytes that reach the reader: a read of length zero is the end of the stream. */
  function Delivered(chunks: seq<Bytes>): Bytes {
    if chunks == [] || chunks[0] == [] then [] else chunks[0] + Delivered(chunks[1..])
  }

  function EndOf(chunks: seq<Bytes>, end: StreamEnd): StreamEnd {
    if chunks == [] then end else if chunks[0] == [] then Eof else EndOf(chunks[1..], end)
  }

  /**
   The inner loop: delivers every complete frame already buffered. `later` are
   the bytes still to come. When it does not stop the reader, the events so far
   and the meaning of the bytes left over still add up to the same whole.
   */
  method DrainBuffer<F>(p: Protocol<F>, limit: nat, full: Bytes, sent: seq<ReadEvent<F>>, accepts: nat,
                        ghost later: Bytes, ghost end: StreamEnd)
    returns (events: seq<ReadEvent<F>>, buffer: Bytes, stopped: bool)
    requires |sent| <= accepts
    ensures |events| <= accepts
    ensures var all := sent + Decode(p, limit, full + later, end);
            if stopped then events == Cut(all, accepts)
            else TakeFrame(buffer, limit).NeedMore? && all == events + Decode(p, limit, buffer + later, end)
  {
    ghost var all := sent + Decode(p, limit, full + later, end);
    events, buffer, stopped := sent, full, false;
    while true
      invariant |events| <= accepts
      invariant all == events + Decode(p, limit, buffer + later, end)
      decreases |buffer|
    {
      TakeFrameIsDecodesStep(p, limit, buffer, later, end);
      var taken := TakeFrame(buffer, limit);
      if taken.NeedMore? { return; }
      if taken.TooLarge? {
        if |events| < accepts { events := events + [Failed(FrameTooLarge(taken.len, limit))]; }
        stopped := true;
        return;
      }
      var parsed := p.parse(taken.payload);
      if parsed.Err? {
        if |events| < accepts { events := events + [Failed(BadFrame(parsed.error))]; }
        stopped := true;
        return;
      }
      if |events| == accepts {
        stopped := true;
        return;
      }
      assert events + ([Frame(parsed.value)] + Decode(p, limit, taken.rest + later, end))
             == (events + [Frame(parsed.value)]) + Decode(p, limit, taken.rest + later, end);
      events := events + [Frame(parsed.value)];
      buffer := taken.rest;
    }
  }

  /**
   The read loop. `chunks` are what the socket delivers, then `end`; `accepts`
   is how many sends succeed before the event receiver is dropped. The events
   are those of `Decode` on the delivered bytes, whatever the chunking, cut
   short only by a dropped receiver: the payloads those bytes hold, and why
   there are no more.
   */
  method ReadFrames<F>(p: Protocol<F>, config: FrameConfig, chunks: seq<Bytes>, end: StreamEnd, accepts: nat)
    returns (events: seq<ReadEvent<F>>, ghost payloads: seq<Bytes>, ghost rest: Bytes)
    ensures events == Cut(Decode(p, config.maxFrameBytes, Delivered(chunks), EndOf(chunks, end)), accepts)
    ensures Delivered(chunks) == Packed(payloads) + rest
    ensures Explained(p, config.maxFrameBytes, payloads, rest, EndOf(chunks, end), accepts, events)
  {
    hide Explained, Decode, TakeFrame, Packed;
    var limit := config.maxFrameBytes;
    ghost var finish := EndOf(chunks, end);
    ghost var all := Decode(p, limit, Delivered(chunks), finish);
    payloads, rest := EventsExplainBytes(p, limit, Delivered(chunks), finish, accepts);
    events := [];
    var buffer: Bytes := [];
    var next := 0;
    assert chunks[0..] == chunks && [] + Delivered(chunks) == Delivered(chunks);
    while true
      invariant 0 <= next <= |chunks| && |events| <= accepts
      invariant finish == EndOf(chunks[next..], end)
      invariant all == events + Decode(p, limit, buffer + Delivered(chunks[next..]), finish)
      decreases |chunks| - next
    {
      ghost var later := Delivered(chunks[next..]);
      var stopped;
      events, buffer, stopped := DrainBuffer(p, limit, buffer, events, accepts, later, finish);
      if stopped { return; }
      if next == |chunks| || chunks[next] == [] {
        TakeFrameIsDecodesStep(p, limit, buffer, [], finish);
        assert later == [];
        var event: ReadEvent<F> := AtEnd(buffer, if next < |chunks| then Eof else end);
        if |events| < accepts { events := events + [event]; }
        return;
      }
      assert chunks[next..][0] == chunks[next] && chunks[next..][1..] == chunks[next + 1..];
      assert buffer + later == (buffer + chunks[next]) + Delivered(chunks[next + 1..]);
      buffer := buffer + chunks[next];
      next := next + 1;
    }
  }

  // ----- Writing -----

  datatype WriteResult =
    | Done
    | Oversized(actual: nat, limit: nat)
    | WriteFailed(attempted: Bytes)  // any prefix of `attempted` may have reached the socket
    | FlushFailed
    | ShutdownFailed

  predicate Fits<F>(p: Protocol<F>, config: FrameConfig, f: F) {
    p.payloadLen(f) <= config.maxFrameBytes
  }

  ghost predicate IsPrefix(a: Bytes, b: Bytes) {
    |a| <= |b| && a == b[..|a|]
  }

  lemma {:induction false} EncodeAppend<F>(p: Protocol<F>, frames: seq<F>, f: F)
    ensures Encode(p, frames + [f]) == Encode(p, frames) + Prefixed(p, f)
  {
    if frames == [] {
      assert frames + [f] == [f];
    } else {
      assert (frames + [f])[1..] == frames[1..] + [f];
      EncodeAppend(p, frames[1..], f);
    }
  }

  lemma {:induction false} EncodePrefix<F>(p: Protocol<F>, frames: seq<F>, n: nat)
    requires n <= |frames|
    ensures IsPrefix(Encode(p, frames[..n]), Encode(p, frames))
  {
    if n == |frames| {
      assert frames[..n] == frames;
    } else {
      assert frames == frames[..|frames| - 1] + [frames[|frames| - 1]];
      EncodeAppend(p, frames[..|frames| - 1], frames[|frames| - 1]);
      assert frames[..n] == frames[..|frames| - 1][..n];
      EncodePrefix(p, frames[..|frames| - 1], n);
    }
  }

  /** The encoding of the first `n` frames. */
  ghost function EncodeUpTo<F>(p: Protocol<F>, frames: seq<F>, n: nat): Bytes
    requires n <= |frames|
  {
    if n == 0 then [] else EncodeUpTo(p, frames, n - 1) + Prefixed(p, frames[n - 1])
  }

  lemma {:induction false} EncodeUpToIsEncode<F>(p: Protocol<F>, frames: seq<F>, n: nat)
    requires n <= |frames|
    ensures EncodeUpTo(p, frames, n) == Encode(p, frames[..n])
  {
    if n > 0 {
      EncodeUpToIsEncode(p, frames, n - 1);
      EncodeAppend(p, frames[..n - 1], frames[n - 1]);
      assert frames[..n - 1] + [frames[n - 1]] == frames[..n];
    }
  }

  /** A failing write cannot put anything but a prefix of the encoding on the wire. */
  lemma {:induction false} AttemptStaysInside<F>(p: Protocol<F>, frames: seq<F>, i: nat, written: Bytes, attempted: Bytes, kept: Bytes)
    requires i <= |frames|
    requires written + attempted + kept == EncodeUpTo(p, frames, i)
    ensures IsPrefix(written + attempted, Encode(p, frames))
  {
    EncodeUpToIsEncode(p, frames, i);
    EncodePrefix(p, frames, i);
  }

  /** The batch buffer's bound at every moment, large bodies included. */
  function BatchBound(config: FrameConfig): nat {
    2 * config.maxBatchBytes + PREFIX_BYTES + MAX_HEADER_LEN
  }

  /**
   The writer's state between frames: `wire` has reached the socket, `batch` is
   buffered, `sent` frames are on the wire and `taken` are off the queue.
   */
  datatype Writer = Writer(wire: Bytes, batch: Bytes, sent: nat, taken: nat, calls: nat, peak: nat)

  /** The first `n` frames are within the limit. */
  ghost predicate AllFit<F>(p: Protocol<F>, config: FrameConfig, frames: seq<F>, n: nat)
    requires n <= |frames|
  {
    n == 0 || (AllFit(p, config, frames, n - 1) && Fits(p, config, frames[n - 1]))
  }

  lemma {:induction false} AllFitEach<F>(p: Protocol<F>, config: FrameConfig, frames: seq<F>, n: nat)
    requires n <= |frames| && AllFit(p, config, frames, n)
    ensures forall i {:trigger Fits(p, config, frames[i])} :: 0 <= i < n ==> Fits(p, config, frames[i])
  {
    if n > 0 { AllFitEach(p, config, frames, n - 1); }
  }

  ghost predicate Consistent<F>(p: Protocol<F>, config: FrameConfig, frames: seq<F>, w: Writer) {
    && w.sent <= w.taken <= |frames|
    && w.peak < BatchBound(config)
    && w.wire == EncodeUpTo(p, frames, w.sent)
    && w.wire + w.batch == EncodeUpTo(p, frames, w.taken)
    && AllFit(p, config, frames, w.taken)
  }

  /** The batch once the next frame's prefix and header are in it. */
  function WithHeader<F>(p: Protocol<F>, frames: seq<F>, w: Writer): Bytes
    requires w.taken < |frames|
  {
    w.batch + PutU32(p.payloadLen(frames[w.taken])) + p.header(frames[w.taken])
  }

  /** The next frame, put into the batch. */
  function Batched<F>(p: Protocol<F>, frames: seq<F>, w: Writer): Writer
    requires w.taken < |frames|
  {
    var batch := WithHeader(p, frames, w) + p.body(frames[w.taken]);
    w.(batch := batch, taken := w.taken + 1, peak := if w.peak < |batch| then |batch| else w.peak)
  }

  /** The next frame, written behind everything batched before it. */
  function Direct<F>(p: Protocol<F>, frames: seq<F>, w: Writer): Writer
    requires w.taken < |frames|
  {
    var batch := WithHeader(p, frames, w);
    Writer(w.wire + batch + p.body(frames[w.taken]), [], w.taken + 1, w.taken + 1, w.calls + 2,
           if w.peak < |batch| then |batch| else w.peak)
  }

  lemma {:induction false} FrameAdvancesTheWriter<F(!new)>(p: Protocol<F>, config: FrameConfig, frames: seq<F>, w: Writer)
    requires Lawful(p) && Consistent(p, config, frames, w)
    requires w.taken < |frames| && |w.batch| < config.maxBatchBytes
    requires Fits(p, config, frames[w.taken])
    ensures |p.body(frames[w.taken])| < config.maxBatchBytes ==> Consistent(p, config, frames, Batched(p, frames, w))
    ensures Consistent(p, config, frames, Direct(p, frames, w))
    ensures IsPrefix(w.wire + WithHeader(p, frames, w), Encode(p, frames))
    ensures IsPrefix(Direct(p, frames, w).wire, Encode(p, frames))
  {
    var i := w.taken;
    var (prefix, header, body) := (PutU32(p.payloadLen(frames[i])), p.header(frames[i]), p.body(frames[i]));
    assert |header| <= MAX_HEADER_LEN;
    var batch := w.batch + prefix + header;
    assert w.wire + batch + body == (w.wire + w.batch) + Prefixed(p, frames[i]) by {
      assert Prefixed(p, frames[i]) == prefix + (header + body);
    }
    assert w.wire + batch + body == EncodeUpTo(p, frames, i + 1);
    ConcatAssoc(w.wire, batch, body);
    AttemptStaysInside(p, frames, i + 1, w.wire, batch, body);
    AttemptStaysInside(p, frames, i + 1, w.wire + batch, body, []);
  }

  /** Puts one frame into the batch, or writes batch and body if the body is large. */
  method PutFrame<F(!new)>(p: Protocol<F>, config: FrameConfig, frames: seq<F>, succeeds: nat -> bool, w: Writer)
    returns (w': Writer, result: WriteResult)
    requires Lawful(p) && Consistent(p, config, frames, w)
    requires w.taken < |frames| && |w.batch| < config.maxBatchBytes
    ensures result.Done? || result.Oversized? || result.WriteFailed?
    ensures result.Oversized? <==> !Fits(p, config, frames[w.taken])
    ensures result.Oversized? ==> w' == w
    ensures result.Done? ==> Consistent(p, config, frames, w') && w'.taken == w.taken + 1 && w'.sent >= w.sent
    ensures result.WriteFailed? ==> w'.peak < BatchBound(config) && w'.sent == w.sent && w'.taken == w.taken
    ensures result.WriteFailed? ==> IsPrefix(w'.wire + result.attempted, Encode(p, frames)) && !succeeds(w'.calls)
  {
    var payloadLen := p.payloadLen(frames[w.taken]);
    if payloadLen > config.maxFrameBytes {
      return w, Oversized(payloadLen, config.maxFrameBytes);
    }
    FrameAdvancesTheWriter(p, config, frames, w);
    var body := p.body(frames[w.taken]);
    if |body| < config.maxBatchBytes {
      return Batched(p, frames, w), Done;
    }
    var batch := WithHeader(p, frames, w);
    if !succeeds(w.calls) {
      return w, WriteFailed(batch);
    }
    if !succeeds(w.calls + 1) {
      return w.(wire := w.wire + batch, calls := w.calls + 1), WriteFailed(body);
    }
    return Direct(p, frames, w), Done;
  }

  /**
   One batch: takes frames for as long as the queue has more ready and the
   batch has room. `ready(i)` says whether the queue already holds another
   frame when frame `i` has been buffered.
   */
  method FillBatch<F(!new)>(p: Protocol<F>, config: FrameConfig, frames: seq<F>,
                            ready: nat -> bool, succeeds: nat -> bool, start: Writer)
    returns (w: Writer, result: WriteResult)
    requires Lawful(p) && config.Valid() && Consistent(p, config, frames, start)
    requires start.sent == start.taken < |frames| && start.batch == []
    ensures result.Done? || result.Oversized? || result.WriteFailed?
    ensures start.taken <= w.taken <= |frames| && start.sent <= w.sent <= w.taken
    ensures AllFit(p, config, frames, w.taken)
    ensures w.peak < BatchBound(config)
    ensures !result.WriteFailed? ==> Consistent(p, config, frames, w)
    ensures result.Done? ==> start.taken < w.taken
    ensures result.Oversized? ==> w.taken < |frames| && !Fits(p, config, frames[w.taken])
    ensures result.Oversized? ==> w.taken - w.sent < config.maxBatchFrames
    ensures result.WriteFailed? ==> IsPrefix(w.wire + result.attempted, Encode(p, frames)) && !succeeds(w.calls)
  {
    w, result := start, Done;
    var frameCount := 0;
    while true
      invariant Consistent(p, config, frames, w) && start.sent <= w.sent && result.Done?
      invariant frameCount == w.taken - start.taken < config.maxBatchFrames
      invariant start.taken <= w.taken < |frames| && |w.batch| < config.maxBatchBytes
      decreases |frames| - w.taken
    {
      w, result := PutFrame(p, config, frames, succeeds, w);
      if !result.Done? { return; }
      frameCount := frameCount + 1;
      if frameCount >= config.maxBatchFrames || |w.batch| >= config.maxBatchBytes { return; }
      if w.taken == |frames| || !ready(w.taken - 1) { return; }
    }
  }

  /**
   The write loop over the frames the queue yields. `succeeds(k)` says whether
   the k-th write to the socket succeeds, `flushes(n)` whether the flush after
   `n` frames does, and `shutsDown` whether the final shutdown does. Completion
   means exactly the encoding of all frames; an oversized frame ends the
   connection after a whole number of earlier frames, losing less than one
   batch; a failed write leaves a prefix of the encoding; a failed flush or
   shutdown leaves every frame taken so far written.
   */
  method WriteFrames<F(!new)>(p: Protocol<F>, config: FrameConfig, frames: seq<F>,
                              ready: nat -> bool, succeeds: nat -> bool, flushes: nat -> bool, shutsDown: bool)
    returns (w: Writer, result: WriteResult)
    requires Lawful(p) && config.Valid()
    ensures w.peak < BatchBound(config)
    ensures w.sent <= w.taken <= |frames| && forall j {:trigger Fits(p, config, frames[j])} :: 0 <= j < w.taken ==> Fits(p, config, frames[j])
    ensures result.Done? ==> w.taken == |frames| && w.wire == Encode(p, frames)
    ensures result.Oversized? ==>
              && w.taken < |frames| && !Fits(p, config, frames[w.taken])
              && w.taken - w.sent < config.maxBatchFrames
              && w.wire == Encode(p, frames[..w.sent])
    ensures result.WriteFailed? ==> IsPrefix(w.wire + result.attempted, Encode(p, frames)) && !succeeds(w.calls)
    ensures result.FlushFailed? ==> w.wire == Encode(p, frames[..w.taken]) && !flushes(w.taken)
    ensures result.ShutdownFailed? ==> w.taken == |frames| && w.wire == Encode(p, frames) && !shutsDown
  {
    w, result := Writer([], [], 0, 0, 0, 0), Done;
    while w.taken < |frames|
      invariant Consistent(p, config, frames, w) && w.sent == w.taken && w.batch == []
      decreases |frames| - w.taken
    {
      w, result := FillBatch(p, config, frames, ready, succeeds, w);
      AllFitEach(p, config, frames, w.taken);
      if result.Oversized? { EncodeUpToIsEncode(p, frames, w.sent); }
      if !result.Done? { return; }
      if |w.batch| > 0 {
        if !succeeds(w.calls) {
          AttemptStaysInside(p, frames, w.taken, w.wire, w.batch, []);
          return w, WriteFailed(w.batch);
        }
        w := w.(wire := w.wire + w.batch, batch := [], calls := w.calls + 1);
      }
      w := w.(sent := w.taken);
      if !flushes(w.taken) {
        EncodeUpToIsEncode(p, frames, w.taken);
        return w, FlushFailed;
      }
    }
    EncodeUpToIsEncode(p, frames, w.taken);
    AllFitEach(p, config, frames, w.taken);
    assert frames[..w.taken] == frames;
    result := if shutsDown then Done else ShutdownFailed;
  }

  // ----- The two loops against each other -----

  function FrameEvents<F>(frames: seq<F>): seq<ReadEvent<F>> {
    if frames == [] then [] else [Frame(frames[0])] + FrameEvents(frames[1..])
  }

  lemma {:induction false} DecodePeelsOneFrame<F(!new)>(p: Protocol<F>, config: FrameConfig, f: F, later: Bytes, end: StreamEnd)
    requires Lawful(p) && config.Valid() && Fits(p, config, f)
    ensures Decode(p, config.maxFrameBytes, Prefixed(p, f) + later, end)
            == [Frame(f)] + Decode(p, config.maxFrameBytes, later, end)
  {
    var s := Prefixed(p, f) + later;
    var payload := p.Payload(f);
    assert p.payloadLen(f) == |payload|;
    U32RoundTrip(|payload|);
    assert s[..PREFIX_BYTES] == PutU32(|payload|);
    assert s[PREFIX_BYTES..PREFIX_BYTES + |payload|] == payload;
    assert s[PREFIX_BYTES + |payload|..] == later;
  }

  /** The last event of a stream that is valid as far as it goes; `rest` is what it has of an unfinished frame. */
  ghost predicate EndsRight<F(!new)>(last: ReadEvent<F>, rest: Bytes, end: StreamEnd) {
    && (last == Closed <==> end == Eof && rest == [])
    && (last == Failed(EndedInsideFrame) <==> end == Eof && rest != [])
    && (last == Failed(IoFailed) <==> end == IoFailure)
  }

  lemma {:induction false} DecodeInsideAFrame<F(!new)>(p: Protocol<F>, config: FrameConfig, f: F, cut: Bytes, end: StreamEnd)
    requires Lawful(p) && config.Valid() && Fits(p, config, f)
    requires |cut| < |Prefixed(p, f)| && cut == Prefixed(p, f)[..|cut|]
    ensures |Decode(p, config.maxFrameBytes, cut, end)| == 1 && EndsRight(Decode(p, config.maxFrameBytes, cut, end)[0], cut, end)
  {
    var payload := p.Payload(f);
    assert p.payloadLen(f) == |payload|;
    U32RoundTrip(|payload|);
    if |cut| >= PREFIX_BYTES {
      assert cut[..PREFIX_BYTES] == PutU32(|payload|);
    }
  }

  /** Encoded frames decode to themselves, whatever bytes follow. */
  lemma {:induction false} DecodeEncoded<F(!new)>(p: Protocol<F>, config: FrameConfig, frames: seq<F>,
                                                  later: Bytes, end: StreamEnd)
    requires Lawful(p) && config.Valid()
    requires forall i {:trigger Fits(p, config, frames[i])} :: 0 <= i < |frames| ==> Fits(p, config, frames[i])
    ensures Decode(p, config.maxFrameBytes, Encode(p, frames) + later, end)
            == FrameEvents(frames) + Decode(p, config.maxFrameBytes, later, end)
  {
    if frames == [] {
      assert Encode(p, frames) + later == later;
    } else {
      ConcatAssoc(Prefixed(p, frames[0]), Encode(p, frames[1..]), later);
      ConcatAssoc([Frame(frames[0])], FrameEvents(frames[1..]), Decode(p, config.maxFrameBytes, later, end));
      DecodePeelsOneFrame(p, config, frames[0], Encode(p, frames[1..]) + later, end);
      DecodeEncoded(p, config, frames[1..], later, end);
    }
  }

  /** A read that returns nothing is the end of the stream, whatever would come after it. */
  lemma {:induction false} EmptyReadEnds(chunks: seq<Bytes>, n: nat, end: StreamEnd)
    requires n < |chunks| && chunks[n] == [] && forall i :: 0 <= i < n ==> chunks[i] != []
    ensures Delivered(chunks) == Concat(chunks[..n]) && EndOf(chunks, end) == Eof
  {
    if n > 0 {
      assert chunks[..n][0] == chunks[0] && chunks[..n][1..] == chunks[1..][..n - 1];
      EmptyReadEnds(chunks[1..], n - 1, end);
    }
  }

  /** Without one, every byte is delivered and the stream ends as it does. */
  lemma {:induction false} AllReadsDeliver(chunks: seq<Bytes>, end: StreamEnd)
    requires forall i :: 0 <= i < |chunks| ==> chunks[i] != []
    ensures Delivered(chunks) == Concat(chunks) && EndOf(chunks, end) == end
  {
    if chunks != [] { AllReadsDeliver(chunks[1..], end); }
  }

  /**
   End to end: what a completed `WriteFrames` put on the wire, cut into any
   non-empty chunks, make `ReadFrames` deliver exactly the frames, in order,
   then `Closed`.
   */
  lemma {:induction false} BatchingAndChunkingAreInvisible<F(!new)>(p: Protocol<F>, config: FrameConfig, frames: seq<F>,
                                                 wire: Bytes, chunks: seq<Bytes>)
    requires Lawful(p) && config.Valid()
    requires forall i {:trigger Fits(p, config, frames[i])} :: 0 <= i < |frames| ==> Fits(p, config, frames[i])
    requires wire == Encode(p, frames)
    requires Concat(chunks) == wire && forall i :: 0 <= i < |chunks| ==> chunks[i] != []
    ensures Decode(p, config.maxFrameBytes, Delivered(chunks), EndOf(chunks, Eof)) == FrameEvents(frames) + [Closed]
  {
    AllReadsDeliver(chunks, Eof);
    DecodeEncoded(p, config, frames, [], Eof);
    assert Encode(p, frames) + [] == Encode(p, frames);
  }

  /** How many frames lie whole inside the bytes before a cut. */
  ghost function WholeFrames<F>(p: Protocol<F>, frames: seq<F>, cut: Bytes): (n: nat)
    ensures n <= |frames|
  {
    if frames == [] || |cut| < |Prefixed(p, frames[0])| then 0
    else 1 + WholeFrames(p, frames[1..], cut[|Prefixed(p, frames[0])|..])
  }

  lemma {:induction false} CutSplits<F>(p: Protocol<F>, frames: seq<F>, cut: Bytes) returns (rest: Bytes)
    requires IsPrefix(cut, Encode(p, frames))
    ensures var n := WholeFrames(p, frames, cut);
            && cut == Encode(p, frames[..n]) + rest
            && (n == |frames| ==> rest == [])
            && (n < |frames| ==> |rest| < |Prefixed(p, frames[n])| && rest == Prefixed(p, frames[n])[..|rest|])
  {
    hide Prefixed;
    if frames == [] || |cut| < |Prefixed(p, frames[0])| {
      rest := cut;
      assert Encode(p, frames[..0]) + rest == cut;
    } else {
      var first := Prefixed(p, frames[0]);
      var n := WholeFrames(p, frames, cut);
      assert IsPrefix(cut[|first|..], Encode(p, frames[1..]));
      rest := CutSplits(p, frames[1..], cut[|first|..]);
      assert frames[..n][0] == frames[0] && frames[..n][1..] == frames[1..][..n - 1];
      assert cut == first + cut[|first|..];
      assert n < |frames| ==> frames[1..][n - 1] == frames[n];
    }
  }

  /**
   A connection cut anywhere never invents, reorders or alters a frame: the
   events of a cut stream are the frames that lie whole before the cut, in
   order, and then one last event. It is a clean close exactly if the stream
   ended at a frame's end, and tells a cut inside a frame from a failed read.
   */
  lemma {:induction false} CutStreamDeliversWholeFrames<F(!new)>(
    p: Protocol<F>, config: FrameConfig, frames: seq<F>, cut: Bytes, end: StreamEnd)
    returns (n: nat, rest: Bytes, last: ReadEvent<F>)
    requires Lawful(p) && config.Valid()
    requires forall i {:trigger Fits(p, config, frames[i])} :: 0 <= i < |frames| ==> Fits(p, config, frames[i])
    requires IsPrefix(cut, Encode(p, frames))
    ensures n <= |frames| && cut == Encode(p, frames[..n]) + rest
    ensures if n == |frames| then rest == []
            else |rest| < |Prefixed(p, frames[n])| && rest == Prefixed(p, frames[n])[..|rest|]
    ensures Decode(p, config.maxFrameBytes, cut, end) == FrameEvents(frames[..n]) + [last] && EndsRight(last, rest, end)
  {
    rest := CutSplits(p, frames, cut);
    n := WholeFrames(p, frames, cut);
    DecodeEncoded(p, config, frames[..n], rest, end);
    if n < |frames| {
      DecodeInsideAFrame(p, config, frames[n], rest, end);
    }
    last := Decode(p, config.maxFrameBytes, rest, end)[0];
  }
}
