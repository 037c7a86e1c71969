/**
 The fixed-layout RPC frames: kind tag, header, opaque body.

   Request  0x01 | id u64 | timeout_micros u64 | trace_id 16B | body
   Cancel   0x02 | id u64
   Response 0x03 | id u64 | status u8 | body
 */
module RpcWire {
  import opened Bytes
  import opened Collections

  const KIND_REQUEST: byte := 0x01
  const KIND_CANCEL: byte := 0x02
  const KIND_RESPONSE: byte := 0x03
  const STATUS_OK: byte := 0
  const REQUEST_HEADER_LEN: nat := 1 + 8 + 8 + 16
  const CANCEL_FRAME_LEN: nat := 1 + 8
  const RESPONSE_HEADER_LEN: nat := 1 + 8 + 1
  const MAX_HEADER_LEN: nat := REQUEST_HEADER_LEN

  /** Infrastructure failure codes; the discriminants are wire values. */
  datatype Code =
    | Cancelled | Unknown | InvalidArgument | DeadlineExceeded | NotFound
    | AlreadyExists | PermissionDenied | ResourceExhausted | FailedPrecondition
    | Unimplemented | Internal | Unavailable | Unauthenticated
  {
    function AsWire(): byte {
      match this
      case Cancelled => 1
      case Unknown => 2
      case InvalidArgument => 3
      case DeadlineExceeded => 4
      case NotFound => 5
      case AlreadyExists => 6
      case PermissionDenied => 7
      case ResourceExhausted => 8
      case FailedPrecondition => 9
      case Unimplemented => 10
      case Internal => 13
      case Unavailable => 14
      case Unauthenticated => 16
    }
  }

  /**
   The parser of a status byte: it recovers the code whose wire byte this is,
   and refuses the success byte and every byte no code owns.
   */
  function CodeFromWire(b: byte): (r: Option<Code>)
    ensures r.Some? ==> r.value.AsWire() == b
    ensures r.None? ==> forall code: Code :: code.AsWire() != b
    ensures r.Some? <==> 1 <= b <= 10 || b == 13 || b == 14 || b == 16
  {
    match b
    case 1 => Some(Cancelled)
    case 2 => Some(Unknown)
    case 3 => Some(InvalidArgument)
    case 4 => Some(DeadlineExceeded)
    case 5 => Some(NotFound)
    case 6 => Some(AlreadyExists)
    case 7 => Some(PermissionDenied)
    case 8 => Some(ResourceExhausted)
    case 9 => Some(FailedPrecondition)
    case 10 => Some(Unimplemented)
    case 13 => Some(Internal)
    case 14 => Some(Unavailable)
    case 16 => Some(Unauthenticated)
    case _ => None
  }

  type TraceId = s: Bytes | |s| == 16 witness seq(16, i => 0)

  datatype ClientFrame =
    | Request(id: u64, timeoutMicros: u64, traceId: TraceId, body: Bytes)
    | Cancel(id: u64)

  datatype ServerFrame = Response(id: u64, code: Option<Code>, body: Bytes)

  datatype FrameError = Truncated | UnknownKind(kind: byte) | UnknownStatus(status: byte)

  // ----- Encoding -----

  function PutU64(x: u64): (s: Bytes)
    ensures |s| == 8
  {
    LeBytes(x, 8)
  }

  function ClientPayloadLen(f: ClientFrame): nat {
    match f
    case Request(_, _, _, body) => REQUEST_HEADER_LEN + |body|
    case Cancel(_) => CANCEL_FRAME_LEN
  }

  function ClientHeader(f: ClientFrame): Bytes {
    match f
    case Request(id, timeout, trace, _) =>
      [KIND_REQUEST] + PutU64(id) + PutU64(timeout) + trace
    case Cancel(id) => [KIND_CANCEL] + PutU64(id)
  }

  function ClientBody(f: ClientFrame): Bytes {
    if f.Request? then f.body else []
  }

  function ServerPayloadLen(f: ServerFrame): nat {
    RESPONSE_HEADER_LEN + |f.body|
  }

  function ServerHeader(f: ServerFrame): Bytes {
    [KIND_RESPONSE] + PutU64(f.id)
    + [if f.code.None? then STATUS_OK else f.code.value.AsWire()]
  }

  function ServerBody(f: ServerFrame): Bytes { f.body }

  // ----- Parsing -----

  function ReadU64(s: Bytes): (x: u64)
    requires |s| == 8
    ensures PutU64(x) == s
  {
    LeEncodesDecoded(s);
    Pow256Widths();
    LeValue(s)
  }

  function ParseClient(payload: Bytes): Result<ClientFrame, FrameError> {
    if payload == [] then Err(Truncated)
    else if payload[0] == KIND_REQUEST then
      if |payload| < REQUEST_HEADER_LEN then Err(Truncated)
      else Ok(Request(ReadU64(payload[1..9]), ReadU64(payload[9..17]),
                      payload[17..33], payload[REQUEST_HEADER_LEN..]))
    else if payload[0] == KIND_CANCEL then
      if |payload| < CANCEL_FRAME_LEN then Err(Truncated)
      else Ok(Cancel(ReadU64(payload[1..9])))
    else Err(UnknownKind(payload[0]))
  }

  function ParseServer(payload: Bytes): Result<ServerFrame, FrameError> {
    if payload == [] then Err(Truncated)
    else if payload[0] == KIND_RESPONSE then
      if |payload| < RESPONSE_HEADER_LEN then Err(Truncated)
      else
        var id := ReadU64(payload[1..9]);
        var body := payload[RESPONSE_HEADER_LEN..];
        if payload[9] == STATUS_OK then Ok(Response(id, None, body))
        else match CodeFromWire(payload[9])
             case Some(code) => Ok(Response(id, Some(code), body))
             case None => Err(UnknownStatus(payload[9]))
    else Err(UnknownKind(payload[0]))
  }

  // ----- What the two sides agree on -----

  lemma U64RoundTrip(x: u64)
    ensures ReadU64(PutU64(x)) == x
  {
    Pow256Widths();
    LeDecodesEncoded(x, 8);
  }

  lemma ConcatFour(tag: byte, a: Bytes, b: Bytes, c: Bytes, d: Bytes)
    requires |a| == |b| == 8 && |c| == 16
    ensures var p := [tag] + a + b + c + d;
            |p| == 33 + |d| && p[0] == tag && p[1..9] == a && p[9..17] == b && p[17..33] == c && p[33..] == d
  {
  }

  /** Every client frame survives the wire, and `payload_len` predicts its size. */
  lemma ClientRoundTrip(f: ClientFrame)
    ensures ParseClient(ClientHeader(f) + ClientBody(f)) == Ok(f)
    ensures |ClientHeader(f) + ClientBody(f)| == ClientPayloadLen(f)
    ensures |ClientHeader(f)| <= MAX_HEADER_LEN
  {
    U64RoundTrip(f.id);
    if f.Request? {
      U64RoundTrip(f.timeoutMicros);
      ConcatFour(KIND_REQUEST, PutU64(f.id), PutU64(f.timeoutMicros), f.traceId, f.body);
    } else {
      assert (ClientHeader(f) + ClientBody(f))[1..9] == PutU64(f.id);
    }
  }

  /** Every response survives the wire, success and failure alike. */
  lemma ServerRoundTrip(f: ServerFrame)
    ensures ParseServer(ServerHeader(f) + ServerBody(f)) == Ok(f)
    ensures |ServerHeader(f) + ServerBody(f)| == ServerPayloadLen(f)
    ensures |ServerHeader(f)| <= MAX_HEADER_LEN
  {
    var p := ServerHeader(f) + ServerBody(f);
    U64RoundTrip(f.id);
    assert p[1..9] == PutU64(f.id);
    assert p[10..] == f.body;
    if f.code.Some? {
      // Wire bytes are distinct, so the parser can only answer this code.
      var parsed := CodeFromWire(f.code.value.AsWire());
      assert parsed.Some? && parsed.value.AsWire() == f.code.value.AsWire();
    }
  }

  /** The eight bytes from `i` on, least significant first, make this number. */
  predicate Holds(p: Bytes, i: nat, x: nat)
    requires i + 8 <= |p|
  {
    x == p[i] as nat + 0x100 * p[i + 1] as nat + 0x1_0000 * p[i + 2] as nat + 0x100_0000 * p[i + 3] as nat
         + 0x1_0000_0000 * p[i + 4] as nat + 0x100_0000_0000 * p[i + 5] as nat
         + 0x1_0000_0000_0000 * p[i + 6] as nat + 0x100_0000_0000_0000 * p[i + 7] as nat
  }

  lemma {:induction false} PutU64Holds(p: Bytes, i: nat, x: u64)
    requires i + 8 <= |p| && p[i..i + 8] == PutU64(x)
    ensures Holds(p, i, x)
  {
    var s := p[i..i + 8];
    U64RoundTrip(x);
    LeWeights(s);
    assert forall k :: 0 <= k < 8 ==> s[k] == p[i + k];
    hide LeValue, LeBytes;
  }

  /** The client's frames on the wire, byte by byte. */
  lemma {:induction false} ClientLayout(f: ClientFrame)
    ensures var p := ClientHeader(f) + ClientBody(f);
            if f.Request? then
              && |p| == 33 + |f.body| && p[0] == 1 && Holds(p, 1, f.id) && Holds(p, 9, f.timeoutMicros)
              && p[17..33] == f.traceId && p[33..] == f.body
            else |p| == 9 && p[0] == 2 && Holds(p, 1, f.id)
  {
    var p := ClientHeader(f) + ClientBody(f);
    hide PutU64, Holds;
    if f.Request? {
      ConcatFour(KIND_REQUEST, PutU64(f.id), PutU64(f.timeoutMicros), f.traceId, f.body);
      PutU64Holds(p, 9, f.timeoutMicros);
    }
    assert p[1..9] == PutU64(f.id);
    PutU64Holds(p, 1, f.id);
  }

  /** The server's frames on the wire, byte by byte; a zero byte says success. */
  lemma {:induction false} ServerLayout(f: ServerFrame)
    ensures var p := ServerHeader(f) + ServerBody(f);
            && |p| == 10 + |f.body| && p[0] == 3 && Holds(p, 1, f.id) && p[10..] == f.body
            && (p[9] == 0 <==> f.code == None) && (f.code.Some? ==> p[9] == f.code.value.AsWire())
  {
    var p := ServerHeader(f) + ServerBody(f);
    hide PutU64, Holds;
    assert p[1..9] == PutU64(f.id);
    PutU64Holds(p, 1, f.id);
    assert p[10..] == f.body;
  }

  /**
   The converse for client payloads: re-encoding an accepted payload gives the
   payload back exactly when it is not a cancel with bytes after its id. The
   parser ignores such bytes, so those payloads are the only ones that two
   different byte strings share.
   */
  lemma ClientAcceptsCanonicalPayloads(payload: Bytes)
    requires ParseClient(payload).Ok?
    ensures var f := ParseClient(payload).value;
            ClientHeader(f) + ClientBody(f) == payload
            <==> !(payload[0] == KIND_CANCEL && |payload| > CANCEL_FRAME_LEN)
  {
    var f := ParseClient(payload).value;
    if f.Request? {
      assert payload == [payload[0]] + payload[1..9] + payload[9..17] + payload[17..33] + payload[33..];
    } else {
      assert payload[..9] == [payload[0]] + payload[1..9];
      if |payload| == 9 { assert payload == payload[..9]; }
    }
  }

  /** Response payloads have one encoding each: parsing is injective. */
  lemma ServerAcceptsOnlyCanonicalPayloads(payload: Bytes)
    requires ParseServer(payload).Ok?
    ensures var f := ParseServer(payload).value;
            ServerHeader(f) + ServerBody(f) == payload
  {
    assert payload == [payload[0]] + payload[1..9] + [payload[9]] + payload[10..];
  }
}
