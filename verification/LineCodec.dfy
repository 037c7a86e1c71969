/**
 Newline-delimited control framing with a scan that resumes where the last
 read left off. The naive reading of the same stream, `NextLine` on all bytes
 at once, is the specification; the codec's buffer, scan offset and chunking
 do not appear in it.
 */
module LineCodec {
  import opened Bytes
  import opened Collections

  const NEWLINE: byte := 10

  predicate IsWhitespace(b: byte) {
    b == 9 || b == 10 || b == 12 || b == 13 || b == 32
  }

  predicate Blank(line: Bytes) {
    forall i :: 0 <= i < |line| ==> IsWhitespace(line[i])
  }

  // ----- Specification -----

  /** The first newline of `s`, or its length when there is none. */
  function Newline(s: Bytes): (p: nat)
    ensures p <= |s|
    ensures p < |s| ==> s[p] == NEWLINE
    ensures forall i :: 0 <= i < p ==> s[i] != NEWLINE
  {
    if s == [] || s[0] == NEWLINE then 0 else 1 + Newline(s[1..])
  }

  /**
   What one `receive` yields. A line is returned as its bytes; decoding them as
   JSON is the caller's business and consumes the line either way.
   */
  datatype Received = Line(bytes: Bytes) | EndOfStream | TooLarge | ReadFailed

  /** What follows the last byte the tunnel delivers. */
  datatype StreamEnd = Eof | Broken

  datatype Outcome = Outcome(received: Received, rest: Bytes)

  /** The first frame of a whole stream `s`. */
  function NextLine(s: Bytes, limit: nat, end: StreamEnd): Outcome
    decreases |s|
  {
    var p := Newline(s);
    if p < |s| then
      if p > limit then Outcome(TooLarge, s)
      else if Blank(s[..p]) then NextLine(s[p + 1..], limit, end)
      else Outcome(Line(s[..p]), s[p + 1..])
    else if |s| > limit then Outcome(TooLarge, s)
    else if end == Broken then Outcome(ReadFailed, s)
    else if s == [] then Outcome(EndOfStream, [])
    else Outcome(Line(s), [])
  }

  /** Everything a whole stream yields, ending with its close or its first oversized line. */
  function AllLines(s: Bytes, limit: nat, end: StreamEnd): seq<Received>
    decreases |s|
  {
    var o := NextLine(s, limit, end);
    NextLineConsumes(s, limit, end);
    if o.received.Line? then [o.received] + AllLines(o.rest, limit, end) else [o.received]
  }

  lemma {:induction false} NextLineConsumes(s: Bytes, limit: nat, end: StreamEnd)
    ensures NextLine(s, limit, end).received.Line? ==> |NextLine(s, limit, end).rest| < |s|
    decreases |s|
  {
    var p := Newline(s);
    if p < |s| && p <= limit && Blank(s[..p]) { NextLineConsumes(s[p + 1..], limit, end); }
  }

  /** Space, tab, line feed, form feed and carriage return. */
  const BLANKS: set<byte> := {32, 9, 10, 12, 13}

  /** Why this is received from bytes that do not begin with a blank line. */
  ghost predicate Comes(s: Bytes, o: Outcome, limit: nat, end: StreamEnd) {
    match o.received
    case Line(line) =>
      && NEWLINE !in line && |line| <= limit
      && if |line| < |s| then s == line + [NEWLINE] + o.rest && exists i :: 0 <= i < |line| && line[i] !in BLANKS
         else s == line && line != [] && o.rest == [] && end == Eof
    case EndOfStream => s == [] && o.rest == [] && end == Eof
    case TooLarge => o.rest == s && |s| > limit && NEWLINE !in s[..limit + 1]
    case ReadFailed => o.rest == s && |s| <= limit && NEWLINE !in s && end == Broken
  }

  /** Whole lines of nothing but blanks. */
  ghost predicate BlankLines(s: Bytes) {
    (s != [] ==> s[|s| - 1] == NEWLINE) && forall i :: 0 <= i < |s| ==> s[i] in BLANKS
  }

  /** After skipping so many bytes of blank lines, this is what came. */
  ghost predicate Tells(s: Bytes, skipped: nat, o: Outcome, limit: nat, end: StreamEnd) {
    skipped <= |s| && BlankLines(s[..skipped]) && Comes(s[skipped..], o, limit, end)
  }

  lemma {:induction false} FirstLineComes(s: Bytes, limit: nat, end: StreamEnd)
    requires !(Newline(s) < |s| && Newline(s) <= limit && Blank(s[..Newline(s)]))
    ensures Comes(s, NextLine(s, limit, end), limit, end)
  {
    var p := Newline(s);
    if p < |s| && p <= limit {
      var i :| 0 <= i < p && !IsWhitespace(s[..p][i]);
      assert s == s[..p] + [NEWLINE] + s[p + 1..];
    }
  }

  lemma {:induction false} BlankLineThenMore(s: Bytes, p: nat, more: nat)
    requires p < |s| && s[p] == NEWLINE && Blank(s[..p]) && p + 1 + more <= |s| && BlankLines(s[p + 1..][..more])
    ensures BlankLines(s[..p + 1 + more])
  {
    var all := s[..p + 1 + more];
    forall i | 0 <= i < |all| ensures all[i] in BLANKS {
      if i < p { assert s[..p][i] == all[i]; }
      else if i > p { assert s[p + 1..][..more][i - p - 1] == all[i]; }
    }
    if more > 0 { assert s[p + 1..][..more][more - 1] == all[|all| - 1]; }
  }

  /**
   What a stream yields, told by the result: blank lines are skipped and no
   others; a line is delivered whole, up to its newline or the end; too large
   means that the limit and one byte more came without a newline.
   */
  lemma {:induction false} ResultsTellTheStream(s: Bytes, limit: nat, end: StreamEnd) returns (skipped: nat)
    ensures Tells(s, skipped, NextLine(s, limit, end), limit, end)
    decreases |s|
  {
    var p := Newline(s);
    if p < |s| && p <= limit && Blank(s[..p]) {
      var rest := s[p + 1..];
      assert NextLine(s, limit, end) == NextLine(rest, limit, end);
      hide NextLine, Tells;
      var more := ResultsTellTheStream(rest, limit, end);
      skipped := p + 1 + more;
      TellsPastBlank(s, p, rest, more, NextLine(rest, limit, end), limit, end);
    } else {
      skipped := 0;
      FirstLineComes(s, limit, end);
      hide NextLine, Tells, Comes;
      TellsAtOnce(s, NextLine(s, limit, end), limit, end);
    }
  }

  lemma {:induction false} TellsAtOnce(s: Bytes, o: Outcome, limit: nat, end: StreamEnd)
    requires Comes(s, o, limit, end)
    ensures Tells(s, 0, o, limit, end)
  {
    assert s[0..] == s;
    hide Comes;
  }

  lemma {:induction false} TellsPastBlank(s: Bytes, p: nat, rest: Bytes, more: nat, o: Outcome, limit: nat, end: StreamEnd)
    requires p < |s| && s[p] == NEWLINE && Blank(s[..p]) && rest == s[p + 1..] && Tells(rest, more, o, limit, end)
    ensures Tells(s, p + 1 + more, o, limit, end)
  {
    hide Comes, BlankLines, Blank;
    BlankLineThenMore(s, p, more);
    assert s[p + 1 + more..] == rest[more..];
  }

  /** One turn of the receive loop, on the stream before and after it. */
  ghost predicate Progress(before: Bytes, r: Option<Received>, after: Bytes, limit: nat, end: StreamEnd) {
    NextLine(before, limit, end) == if r.Some? then Outcome(r.value, after) else NextLine(after, limit, end)
  }

  // ----- The codec -----

  datatype SendResult = Sent | Oversized(actual: nat) | Closed | FlushFailed

  class JsonLineCodec {
    const limit: nat
    const end: StreamEnd      // what the tunnel does when its chunks run out
    var readBuffer: Bytes
    var scanOffset: nat
    var incoming: seq<Bytes>  // chunks the tunnel has still to deliver
    var output: Bytes         // bytes the tunnel has taken
    ghost var scanned: nat    // bytes compared with the delimiter so far
    ghost var consumed: nat   // bytes of frames already taken out of the buffer

    ghost predicate Valid()
      reads this
    {
      && 0 < limit
      && scanOffset <= |readBuffer|
      && (forall i :: 0 <= i < scanOffset ==> readBuffer[i] != NEWLINE)
      && (forall i :: 0 <= i < |incoming| ==> incoming[i] != [])
    }

    /** Everything not yet received, however it is split. */
    ghost function Stream(): Bytes
      reads this
    {
      readBuffer + Concat(incoming)
    }

    constructor (limit: nat, incoming: seq<Bytes>, end: StreamEnd)
      requires 0 < limit && forall i :: 0 <= i < |incoming| ==> incoming[i] != []
      ensures Valid() && Stream() == Concat(incoming) && output == []
      ensures this.limit == limit && this.end == end && scanned == consumed + scanOffset
    {
      this.limit, this.incoming, this.end := limit, incoming, end;
      readBuffer, scanOffset, output, scanned, consumed := [], 0, [], 0, 0;
    }

    /** The resumed delimiter search: looks at each byte from the offset on, once. */
    method Scan() returns (position: nat)
      requires Valid()
      modifies this`scanned
      ensures position == Newline(readBuffer)
      ensures scanned == old(scanned) + (if position < |readBuffer| then position + 1 else position) - scanOffset
    {
      position := scanOffset;
      while position < |readBuffer| && readBuffer[position] != NEWLINE
        invariant scanOffset <= position <= |readBuffer|
        invariant forall i :: 0 <= i < position ==> readBuffer[i] != NEWLINE
        invariant scanned == old(scanned) + position - scanOffset
      {
        position, scanned := position + 1, scanned + 1;
      }
      if position < |readBuffer| { scanned := scanned + 1; }
    }

    /** A newline is buffered at `position`: takes the line, or skips it if it is blank. */
    method TakeLine(position: nat) returns (r: Option<Received>)
      requires Valid() && position == Newline(readBuffer) < |readBuffer|
      modifies this`readBuffer, this`scanOffset, this`consumed
      ensures Valid()
      ensures Progress(old(Stream()), r, Stream(), limit, end)
      ensures r == Some(TooLarge) <==> position > limit
      ensures position <= limit ==>
                && consumed == old(consumed) + position + 1
                && scanOffset == 0 && |readBuffer| < old(|readBuffer|)
    {
      BufferedLineIsTheNextLine(readBuffer, Concat(incoming), limit, end);
      if position > limit { return Some(TooLarge); }
      var line := readBuffer[..position];
      readBuffer, scanOffset, consumed := readBuffer[position + 1..], 0, consumed + position + 1;
      r := if Blank(line) then None else Some(Line(line));
    }

    /** No newline is buffered: reads one more chunk, or ends the frame with the stream. */
    method Refill() returns (r: Option<Received>)
      requires Valid() && Newline(readBuffer) == |readBuffer|
      modifies this`readBuffer, this`scanOffset, this`incoming, this`consumed
      ensures Valid()
      ensures Progress(old(Stream()), r, Stream(), limit, end)
      ensures consumed + scanOffset == old(consumed) + old(|readBuffer|)
      ensures r.None? ==> |incoming| < old(|incoming|)
    {
      scanOffset := |readBuffer|;
      if |readBuffer| > limit {
        LongPrefixIsTooLarge(readBuffer, Concat(incoming), limit, end);
        return Some(TooLarge);
      }
      if incoming == [] {
        assert Stream() == readBuffer;
        if end == Broken { return Some(ReadFailed); }
        if readBuffer == [] { return Some(EndOfStream); }
        var line := readBuffer;
        readBuffer, scanOffset, consumed := [], 0, consumed + |readBuffer|;
        return Some(Line(line));
      }
      ConcatAssoc(readBuffer, incoming[0], Concat(incoming[1..]));
      readBuffer, incoming := readBuffer + incoming[0], incoming[1..];
      r := None;
    }

    /**
     Receives the next frame. Whatever the chunking, the result and the bytes
     left are those of `NextLine` on the whole stream; and as long as no line is
     oversized, every byte has been compared with the delimiter exactly once.
     */
    method Receive() returns (r: Received, ghost skipped: nat)
      requires Valid()
      modifies this`readBuffer, this`scanOffset, this`incoming, this`scanned, this`consumed
      ensures Valid()
      ensures NextLine(old(Stream()), limit, end) == Outcome(r, Stream())
      ensures Tells(old(Stream()), skipped, Outcome(r, Stream()), limit, end)
      ensures !r.TooLarge? && old(scanned == consumed + scanOffset) ==> scanned == consumed + scanOffset
    {
      ghost var whole := NextLine(Stream(), limit, end);
      skipped := ResultsTellTheStream(Stream(), limit, end);
      hide Tells, NextLine;
      var found: Option<Received> := None;
      while found.None?
        invariant Valid()
        invariant whole == if found.Some? then Outcome(found.value, Stream()) else NextLine(Stream(), limit, end)
        invariant found != Some(TooLarge) && old(scanned == consumed + scanOffset) ==> scanned == consumed + scanOffset
        decreases found.None?, |incoming|, |readBuffer|
      {
        var position := Scan();
        if position < |readBuffer| {
          found := TakeLine(position);
        } else {
          found := Refill();
        }
      }
      r := found.value;
    }

    /**
     Sends one serialized message. `takes(k)` is how many bytes the tunnel
     takes on its k-th write, nothing meaning that it is closed, and `flushes`
     whether the final flush succeeds. A message over the limit is refused
     before a byte of it is written.
     */
    method Send(message: Bytes, takes: nat -> nat, flushes: bool) returns (r: SendResult)
      modifies this`output
      ensures r.Oversized? <==> |message| > limit
      ensures r.Oversized? ==> output == old(output) && r.actual == |message|
      ensures r.Sent? || r.FlushFailed? ==> output == old(output) + message + [NEWLINE] && r.Sent? == flushes
      ensures r.Closed? ==> exists n: nat :: n <= |message| && output == old(output) + message[..n]
      ensures (forall k :: takes(k) > 0) ==> !r.Closed?
    {
      if |message| > limit { return Oversized(|message|); }
      var buffer := message + [NEWLINE];
      var written, k := 0, 0;
      while written < |buffer|
        invariant 0 <= written <= |buffer|
        invariant output == old(output) + buffer[..written]
      {
        var count := if takes(k) < |buffer| - written then takes(k) else |buffer| - written;
        if count == 0 {
          assert buffer[..written] == message[..written];
          return Closed;
        }
        assert buffer[..written] + buffer[written..written + count] == buffer[..written + count];
        output := output + buffer[written..written + count];
        written, k := written + count, k + 1;
      }
      assert buffer[..written] == buffer;
      return if flushes then Sent else FlushFailed;
    }
  }

  /** A line whose newline is already buffered is the first line of the stream. */
  lemma {:induction false} BufferedLineIsTheNextLine(buffer: Bytes, later: Bytes, limit: nat, end: StreamEnd)
    requires Newline(buffer) < |buffer|
    ensures var p := Newline(buffer);
            NextLine(buffer + later, limit, end) ==
            if p > limit then Outcome(TooLarge, buffer + later)
            else if Blank(buffer[..p]) then NextLine(buffer[p + 1..] + later, limit, end)
            else Outcome(Line(buffer[..p]), buffer[p + 1..] + later)
  {
    var s := buffer + later;
    var p, q := Newline(buffer), Newline(s);
    assert s[p] == NEWLINE;
    assert s[..p] == buffer[..p];
    assert s[q] == buffer[q];
    assert s[p + 1..] == buffer[p + 1..] + later;
  }

  /** Giving up before the newline has arrived is what the whole stream calls for too. */
  lemma {:induction false} LongPrefixIsTooLarge(buffer: Bytes, later: Bytes, limit: nat, end: StreamEnd)
    requires Newline(buffer) == |buffer| > limit
    ensures NextLine(buffer + later, limit, end) == Outcome(TooLarge, buffer + later)
  {
    var s := buffer + later;
    assert forall i :: 0 <= i < |buffer| ==> s[i] == buffer[i];
  }

  // ----- What a sender's messages become -----

  function Joined(messages: seq<Bytes>): Bytes {
    if messages == [] then [] else messages[0] + [NEWLINE] + Joined(messages[1..])
  }

  function Lines(messages: seq<Bytes>): seq<Received> {
    if messages == [] then [EndOfStream] else [Line(messages[0])] + Lines(messages[1..])
  }

  /** A message that `Send` accepts and that no JSON text fails to be. */
  predicate Sendable(message: Bytes, limit: nat) {
    |message| <= limit && NEWLINE !in message && !Blank(message)
  }

  /**
   Everything sent is received, in order, and then the end of the stream. With
   `Receive` this holds for every chunking.
   */
  lemma {:induction false} SentIsReceived(messages: seq<Bytes>, limit: nat)
    requires forall i :: 0 <= i < |messages| ==> Sendable(messages[i], limit)
    ensures AllLines(Joined(messages), limit, Eof) == Lines(messages)
  {
    if messages != [] {
      var m, rest := messages[0], Joined(messages[1..]);
      var s := Joined(messages);
      assert s[|m|] == NEWLINE;
      assert forall i :: 0 <= i < |m| ==> s[i] == m[i];
      assert Newline(s) == |m|;
      assert s[..|m|] == m && s[|m| + 1..] == rest;
      SentIsReceived(messages[1..], limit);
    }
  }

  /**
   A terminated line is accepted exactly when it is within the limit: a longer
   one is an error whatever follows it, and one within the limit is delivered
   unless it is blank, in which case it is skipped.
   */
  lemma {:induction false} TerminatedLineAcceptedIffWithinLimit(line: Bytes, later: Bytes, limit: nat, end: StreamEnd)
    requires NEWLINE !in line
    ensures var o := NextLine(line + [NEWLINE] + later, limit, end);
            if |line| > limit then o.received.TooLarge?
            else if Blank(line) then o == NextLine(later, limit, end)
            else o == Outcome(Line(line), later)
  {
    var s := line + [NEWLINE] + later;
    assert s[|line|] == NEWLINE;
    assert forall i :: 0 <= i < |line| ==> s[i] == line[i];
    assert Newline(s) == |line|;
    assert s[..|line|] == line && s[|line| + 1..] == later;
  }
}
