/** Length-prefixed application frames: a 4-byte big-endian length, then the payload. */
module Frames {
  import opened Wrappers

  type Byte = b: int | 0 <= b < 256
  type Bytes = seq<Byte>

  const MAX_ENVELOPE := 1536 * 1024
  const MAX_SLICE := 60 * 1024

  datatype FrameError = InvalidLength | InvalidPayload | BufferLimit | EnvelopeLimit | EndedMidFrame

  function Concat(chunks: seq<Bytes>): Bytes {
    if chunks == [] then [] else chunks[0] + Concat(chunks[1..])
  }

  lemma {:induction false} ConcatAppend(a: seq<Bytes>, b: seq<Bytes>)
    ensures Concat(a + b) == Concat(a) + Concat(b)
  {
    if a == [] {
      assert a + b == b;
    } else {
      assert (a + b)[1..] == a[1..] + b;
      ConcatAppend(a[1..], b);
    }
  }

  lemma {:induction false} ConcatOne(c: Bytes)
    ensures Concat([c]) == c
  {
    assert [c][1..] == [];
    assert c + [] == c;
  }

  // ----- the length prefix -----

  function LengthBytes(n: nat): (b: Bytes)
    requires n < 0x1_0000_0000
    ensures |b| == 4
  {
    [n / 0x100_0000, n / 0x1_0000 % 0x100, n / 0x100 % 0x100, n % 0x100]
  }

  function LengthOf(b: Bytes): nat
    requires |b| >= 4
  {
    var w: int, x: int, y: int, z: int := b[0], b[1], b[2], b[3];
    w * 0x100_0000 + x * 0x1_0000 + y * 0x100 + z
  }

  lemma {:induction false} LengthReads(n: nat, tail: Bytes)
    requires n < 0x1_0000_0000
    ensures LengthOf(LengthBytes(n) + tail) == n
  {
    var b := LengthBytes(n) + tail;
    var high := n / 0x1_0000;
    assert high * 0x1_0000 + n % 0x1_0000 == n;
    assert b[0] == high / 0x100 && b[1] == high % 0x100;
    var y: int, z: int := b[2], b[3];
    assert y * 0x100 + z == n % 0x1_0000;
  }

  function Frame(payload: Bytes): Bytes
    requires |payload| <= MAX_ENVELOPE
  {
    LengthBytes(|payload|) + payload
  }

  function FrameAll(payloads: seq<Bytes>): Bytes
    requires forall i | 0 <= i < |payloads| :: |payloads[i]| <= MAX_ENVELOPE
  {
    if payloads == [] then [] else Frame(payloads[0]) + FrameAll(payloads[1..])
  }

  /** The encoder; the check on short payloads is the native codec's. */
  method EncodeFrame(payload: Bytes, native: bool) returns (r: Result<Bytes, FrameError>)
    ensures r == (if |payload| > MAX_ENVELOPE || (native && |payload| < 2) then Err(EnvelopeLimit)
      else Ok(Frame(payload)))
  {
    if (native && |payload| < 2) || |payload| > MAX_ENVELOPE {
      return Err(EnvelopeLimit);
    }
    return Ok(LengthBytes(|payload|) + payload);
  }

  /** Cuts an encoded frame into pieces the encrypted channel takes. */
  method Slices(encoded: Bytes) returns (pieces: seq<Bytes>)
    ensures Concat(pieces) == encoded
    ensures forall i | 0 <= i < |pieces| :: 0 < |pieces[i]| <= 61_440
    ensures forall i | 0 <= i < |pieces| - 1 :: |pieces[i]| == 61_440
  {
    pieces := [];
    var offset := 0;
    while offset < |encoded|
      invariant offset <= |encoded| && Concat(pieces) == encoded[..offset]
      invariant forall i | 0 <= i < |pieces| :: 0 < |pieces[i]| <= MAX_SLICE
      invariant forall i | 0 <= i < |pieces| - 1 :: |pieces[i]| == MAX_SLICE
      invariant pieces != [] && offset < |encoded| ==> |pieces[|pieces| - 1]| == MAX_SLICE
    {
      var end := if offset + MAX_SLICE < |encoded| then offset + MAX_SLICE else |encoded|;
      var piece := encoded[offset..end];
      ConcatAppend(pieces, [piece]);
      ConcatOne(piece);
      pieces := pieces + [piece];
      offset := end;
    }
    assert encoded[..|encoded|] == encoded;
  }

  // ----- reading frames -----

  /** What the decoder does with the front of its buffer. */
  datatype Step = NeedMore | Took(payload: Bytes, rest: Bytes) | Bad(error: FrameError)

  function Take(buffer: Bytes, accepts: Bytes -> bool): (s: Step)
    ensures s.Took? ==> |s.rest| < |buffer|
  {
    if |buffer| < 4 then NeedMore
    else if LengthOf(buffer) < 2 || LengthOf(buffer) > MAX_ENVELOPE then Bad(InvalidLength)
    else if |buffer| < LengthOf(buffer) + 4 then NeedMore
    else if !accepts(buffer[4..LengthOf(buffer) + 4]) then Bad(InvalidPayload)
    else Took(buffer[4..LengthOf(buffer) + 4], buffer[LengthOf(buffer) + 4..])
  }

  /** All frames of a byte string at once, what is left over, and the error that stops the parse, if any. */
  datatype Parsed = Parsed(frames: seq<Bytes>, rest: Bytes, error: Option<FrameError>)

  function Parse(stream: Bytes, accepts: Bytes -> bool): Parsed
    decreases |stream|
  {
    match Take(stream, accepts)
    case NeedMore => Parsed([], stream, None)
    case Bad(e) => Parsed([], stream, Some(e))
    case Took(payload, rest) =>
      var p := Parse(rest, accepts);
      Parsed([payload] + p.frames, p.rest, p.error)
  }

  /** More input never changes what was already decided. */
  lemma {:induction false} TakeStable(a: Bytes, b: Bytes, accepts: Bytes -> bool)
    ensures Take(a, accepts).Bad? ==> Take(a + b, accepts) == Take(a, accepts)
    ensures Take(a, accepts).Took? ==>
      Take(a + b, accepts) == Took(Take(a, accepts).payload, Take(a, accepts).rest + b)
  {
    if |a| >= 4 {
      var n := LengthOf(a);
      assert LengthOf(a + b) == n;
      if |a| >= n + 4 {
        assert (a + b)[4..n + 4] == a[4..n + 4];
        assert (a + b)[n + 4..] == a[n + 4..] + b;
      }
    }
  }

  /** A stream can be parsed piece by piece. */
  lemma {:induction false} ParseAppend(a: Bytes, b: Bytes, accepts: Bytes -> bool)
    ensures var p, q := Parse(a, accepts), Parse(a + b, accepts);
            if p.error.Some? then q.frames == p.frames && q.error == p.error
            else var r := Parse(p.rest + b, accepts); q == Parsed(p.frames + r.frames, r.rest, r.error)
    decreases |a|
  {
    TakeStable(a, b, accepts);
    match Take(a, accepts)
    case Bad(_) =>
    case NeedMore =>
      assert [] + Parse(a + b, accepts).frames == Parse(a + b, accepts).frames;
    case Took(payload, rest) =>
      ParseAppend(rest, b, accepts);
      Associate([payload], Parse(rest, accepts).frames, Parse(Parse(rest, accepts).rest + b, accepts).frames);
  }

  lemma {:induction false} Associate(x: seq<Bytes>, y: seq<Bytes>, z: seq<Bytes>)
    ensures x + (y + z) == (x + y) + z
  {
  }

  /** What is left after a clean parse is an incomplete frame, so it fits the buffer limit. */
  lemma {:induction false} RestIsIncomplete(stream: Bytes, accepts: Bytes -> bool)
    ensures var p := Parse(stream, accepts);
            p.error.None? ==> Take(p.rest, accepts) == NeedMore && |p.rest| < MAX_ENVELOPE + 4
    decreases |stream|
  {
    if Take(stream, accepts).Took? { RestIsIncomplete(Take(stream, accepts).rest, accepts); }
  }

  /** The decoding loop. */
  method Drain(buffer: Bytes, accepts: Bytes -> bool) returns (p: Parsed)
    ensures p == Parse(buffer, accepts)
  {
    var frames, buffered := [], buffer;
    ghost var goal := Parse(buffer, accepts);
    assert [] + goal.frames == goal.frames;
    while |buffered| >= 4
      invariant var q := Parse(buffered, accepts);
                goal == Parsed(frames + q.frames, q.rest, q.error)
      decreases |buffered|
    {
      var length := LengthOf(buffered);
      if length < 2 || length > MAX_ENVELOPE {
        return Parsed(frames, buffered, Some(InvalidLength));
      }
      if |buffered| < length + 4 { break; }
      var payload := buffered[4..length + 4];
      if !accepts(payload) {
        return Parsed(frames, buffered, Some(InvalidPayload));
      }
      ghost var q := Parse(buffered, accepts);
      assert frames + q.frames == (frames + [payload]) + q.frames[1..];
      frames := frames + [payload];
      buffered := buffered[length + 4..];
    }
    return Parsed(frames, buffered, None);
  }

  /** The laptop's decoder. Parsing JSON and checking its schema are the predicate `accepts`. */
  class ApplicationFrameDecoder {
    var buffered: Bytes
    const accepts: Bytes -> bool

    constructor (accepts: Bytes -> bool)
      ensures buffered == [] && this.accepts == accepts
    {
      buffered, this.accepts := [], accepts;
    }

    /** The frames of one chunk. A call that throws keeps nothing of what it had already parsed. */
    method Push(chunk: Bytes) returns (r: Result<seq<Bytes>, FrameError>)
      modifies this
      ensures chunk == [] ==> r == Ok([]) && buffered == old(buffered)
      ensures chunk != [] ==>
        var p := Parse(old(buffered) + chunk, accepts);
        buffered == p.rest && r == (if p.error.Some? then Err(p.error.value) else Ok(p.frames))
      ensures r != Err(BufferLimit)
    {
      if chunk == [] {
        return Ok([]);
      }
      buffered := buffered + chunk;
      RestIsIncomplete(buffered, accepts);
      var p := Drain(buffered, accepts);
      buffered := p.rest;
      if p.error.Some? {
        ErrorKinds(old(buffered) + chunk, accepts);
        return Err(p.error.value);
      }
      if |buffered| > MAX_ENVELOPE + 4 {
        return Err(BufferLimit);
      }
      return Ok(p.frames);
    }

    method Finish() returns (r: Result<(), FrameError>)
      ensures r == if buffered != [] then Err(EndedMidFrame) else Ok(())
    {
      if |buffered| != 0 { return Err(EndedMidFrame); }
      return Ok(());
    }
  }

  lemma {:induction false} ErrorKinds(stream: Bytes, accepts: Bytes -> bool)
    ensures Parse(stream, accepts).error in {None, Some(InvalidLength), Some(InvalidPayload)}
    decreases |stream|
  {
    if Take(stream, accepts).Took? { ErrorKinds(Take(stream, accepts).rest, accepts); }
  }

  /** The native decoder: no payload check, and no shortcut for empty input. */
  class RelayApplicationCodec {
    var buffer: Bytes

    constructor ()
      ensures buffer == []
    {
      buffer := [];
    }

    method Append(data: Bytes) returns (r: Result<seq<Bytes>, FrameError>)
      modifies this
      ensures var p := Parse(old(buffer) + data, Everything);
              buffer == p.rest && r == if p.error.Some? then Err(p.error.value) else Ok(p.frames)
    {
      buffer := buffer + data;
      RestIsIncomplete(buffer, Everything);
      var p := Drain(buffer, Everything);
      buffer := p.rest;
      if p.error.Some? { return Err(p.error.value); }
      if !(|buffer| <= MAX_ENVELOPE + 4) { return Err(BufferLimit); }
      return Ok(p.frames);
    }

    method Finish() returns (r: Result<(), FrameError>)
      ensures r == if buffer != [] then Err(EndedMidFrame) else Ok(())
    {
      if buffer != [] { return Err(EndedMidFrame); }
      return Ok(());
    }
  }

  predicate Everything(payload: Bytes) { true }

  // ----- chunking does not matter -----

  /** A run of pushes, up to the first one that throws: frames delivered, final buffer, error. */
  function Pushes(buffered: Bytes, chunks: seq<Bytes>, accepts: Bytes -> bool): Parsed
    decreases |chunks|
  {
    if chunks == [] then Parsed([], buffered, None)
    else if chunks[0] == [] then Pushes(buffered, chunks[1..], accepts)
    else
      var p := Parse(buffered + chunks[0], accepts);
      if p.error.Some? then Parsed([], p.rest, p.error)
      else
        var q := Pushes(p.rest, chunks[1..], accepts);
        Parsed(p.frames + q.frames, q.rest, q.error)
  }

  /** The bytes in the buffer of the push that throws, its chunk included. */
  function ThrowsOn(buffered: Bytes, chunks: seq<Bytes>, accepts: Bytes -> bool): Option<Bytes>
    decreases |chunks|
  {
    if chunks == [] then None
    else if chunks[0] == [] then ThrowsOn(buffered, chunks[1..], accepts)
    else
      var p := Parse(buffered + chunks[0], accepts);
      if p.error.Some? then Some(buffered + chunks[0]) else ThrowsOn(p.rest, chunks[1..], accepts)
  }

  /** The frames the throwing push had parsed and drops. */
  function Lost(buffered: Bytes, chunks: seq<Bytes>, accepts: Bytes -> bool): seq<Bytes> {
    var last := ThrowsOn(buffered, chunks, accepts);
    if last.Some? then Parse(last.value, accepts).frames else []
  }

  /**
   * However a stream is cut into chunks, some push throws exactly if the one-shot parse fails, with the same error; if
   * none throws, frames and leftover are those of the one-shot parse; and what the one-shot parse has beyond what was
   * delivered is what the throwing push dropped.
   */
  lemma {:induction false} PushesRefineParse(buffered: Bytes, chunks: seq<Bytes>, accepts: Bytes -> bool)
    requires Take(buffered, accepts) == NeedMore
    ensures var q, one := Pushes(buffered, chunks, accepts), Parse(buffered + Concat(chunks), accepts);
            && q.error == one.error && (q.error.None? ==> q == one)
            && one.frames == q.frames + Lost(buffered, chunks, accepts)
    decreases |chunks|
  {
    if chunks == [] {
      assert buffered + [] == buffered;
    } else if chunks[0] == [] {
      assert [] + Concat(chunks[1..]) == Concat(chunks[1..]);
      PushesRefineParse(buffered, chunks[1..], accepts);
    } else {
      var front, tail := buffered + chunks[0], Concat(chunks[1..]);
      assert buffered + (chunks[0] + tail) == front + tail;
      ParseAppend(front, tail, accepts);
      RestIsIncomplete(front, accepts);
      var p := Parse(front, accepts);
      if p.error.None? {
        PushesRefineParse(p.rest, chunks[1..], accepts);
        Associate(p.frames, Pushes(p.rest, chunks[1..], accepts).frames, Lost(p.rest, chunks[1..], accepts));
      } else {
        assert [] + p.frames == p.frames;
      }
    }
  }

  /** Nothing is dropped exactly when no push throws, or the one that does finds the bad frame first in its buffer. */
  lemma {:induction false} AllDeliveredExactly(buffered: Bytes, chunks: seq<Bytes>, accepts: Bytes -> bool)
    requires Take(buffered, accepts) == NeedMore
    ensures var last := ThrowsOn(buffered, chunks, accepts);
      Pushes(buffered, chunks, accepts).frames == Parse(buffered + Concat(chunks), accepts).frames
      <==> (last.None? || Take(last.value, accepts).Bad?)
  {
    PushesRefineParse(buffered, chunks, accepts);
    ThrowsOnErrors(buffered, chunks, accepts);
  }

  lemma {:induction false} ThrowsOnErrors(buffered: Bytes, chunks: seq<Bytes>, accepts: Bytes -> bool)
    ensures var last := ThrowsOn(buffered, chunks, accepts);
      last.Some? ==> Parse(last.value, accepts).error.Some?
    decreases |chunks|
  {
    if chunks != [] {
      var rest := if chunks[0] == [] then buffered else Parse(buffered + chunks[0], accepts).rest;
      ThrowsOnErrors(rest, chunks[1..], accepts);
    }
  }

  const BAD: Bytes := [0, 0, 0, 0]

  lemma {:induction false} GoodThenBad(p: Bytes, accepts: Bytes -> bool)
    requires 2 <= |p| <= MAX_ENVELOPE && accepts(p)
    ensures Parse(BAD, accepts) == Parsed([], BAD, Some(InvalidLength))
    ensures Parse(Frame(p), accepts) == Parsed([p], [], None)
    ensures Parse(Frame(p) + BAD, accepts) == Parsed([p], BAD, Some(InvalidLength))
  {
    assert LengthOf(BAD) == 0;
    TakeFrame(p, BAD, accepts);
    TakeFrame(p, [], accepts);
    assert Frame(p) + [] == Frame(p);
  }

  /** The same bytes in one chunk and in two: the frame before the bad length is delivered only in the second case. */
  lemma {:induction false} OneChunkLosesFrame(p: Bytes, accepts: Bytes -> bool)
    requires 2 <= |p| <= MAX_ENVELOPE && accepts(p)
    ensures Concat([Frame(p) + BAD]) == Concat([Frame(p), BAD])
    ensures Pushes([], [Frame(p) + BAD], accepts).frames == [] && Lost([], [Frame(p) + BAD], accepts) == [p]
    ensures Pushes([], [Frame(p), BAD], accepts).frames == [p]
  {
    GoodThenBad(p, accepts);
    ConcatOne(Frame(p) + BAD);
    ConcatOne(BAD);
    OnePush(Frame(p) + BAD, accepts);
    OnePush(BAD, accepts);
    assert [Frame(p), BAD][1..] == [BAD] && [] + Frame(p) == Frame(p);
  }

  lemma {:induction false} OnePush(chunk: Bytes, accepts: Bytes -> bool)
    requires chunk != [] && Parse(chunk, accepts).error.Some?
    ensures Pushes([], [chunk], accepts).frames == [] && Pushes([], [chunk], accepts).error.Some?
    ensures Lost([], [chunk], accepts) == Parse(chunk, accepts).frames
  {
    assert [] + chunk == chunk;
  }

  /** Parsing a stream of frames gives the payloads. */
  lemma {:induction false} FramesParse(payloads: seq<Bytes>, accepts: Bytes -> bool)
    requires forall i | 0 <= i < |payloads| :: 2 <= |payloads[i]| <= MAX_ENVELOPE && accepts(payloads[i])
    ensures Parse(FrameAll(payloads), accepts) == Parsed(payloads, [], None)
  {
    if payloads != [] {
      var stream := FrameAll(payloads);
      TakeFrame(payloads[0], FrameAll(payloads[1..]), accepts);
      FramesParse(payloads[1..], accepts);
      assert Take(stream, accepts) == Took(payloads[0], FrameAll(payloads[1..]));
      assert [payloads[0]] + payloads[1..] == payloads;
    }
  }

  lemma {:induction false} TakeFrame(p: Bytes, tail: Bytes, accepts: Bytes -> bool)
    requires 2 <= |p| <= MAX_ENVELOPE && accepts(p)
    ensures Take(Frame(p) + tail, accepts) == Took(p, tail)
  {
    var stream := Frame(p) + tail;
    LengthReads(|p|, p + tail);
    assert stream == LengthBytes(|p|) + (p + tail);
    assert stream[4..|p| + 4] == p && stream[|p| + 4..] == tail;
  }

  // ----- what a stream says -----

  /** The length a stream announces, most significant byte first. */
  function Announced(stream: Bytes): int
    requires |stream| >= 4
  {
    var w: int, x: int, y: int, z: int := stream[0], stream[1], stream[2], stream[3];
    ((w * 256 + x) * 256 + y) * 256 + z
  }

  lemma {:induction false} FrameAnnounces(payload: Bytes)
    requires |payload| <= MAX_ENVELOPE
    ensures |Frame(payload)| >= 4 && Announced(Frame(payload)) == |payload| && Frame(payload)[4..] == payload
  {
    LengthReads(|payload|, payload);
  }

  /** At most four bytes of length and as much as they announce: a stream that goes on like this is read further. */
  predicate Unfinished(stream: Bytes) {
    |stream| < 4 || (2 <= Announced(stream) <= 1_572_864 && |stream| < 4 + Announced(stream))
  }

  predicate Refused(stream: Bytes, accepts: Bytes -> bool, e: FrameError) {
    && |stream| >= 4
    && if 2 <= Announced(stream) <= 1_572_864
       then |stream| >= 4 + Announced(stream) && !accepts(stream[4..4 + Announced(stream)]) && e == InvalidPayload
       else e == InvalidLength
  }

  predicate Deliverable(payload: Bytes, accepts: Bytes -> bool) {
    2 <= |payload| <= 1_572_864 && accepts(payload)
  }

  /** The stream is made up of deliverable payloads and a rest that is unfinished or refused with the error. */
  ghost predicate MadeOf(stream: Bytes, accepts: Bytes -> bool, p: Parsed) {
    && (forall i | 0 <= i < |p.frames| :: Deliverable(p.frames[i], accepts))
    && stream == FrameAll(p.frames) + p.rest
    && match p.error case None => Unfinished(p.rest) case Some(e) => Refused(p.rest, accepts, e)
  }

  lemma {:induction false} TookExactly(stream: Bytes, accepts: Bytes -> bool, payload: Bytes, rest: Bytes)
    ensures Take(stream, accepts) == Took(payload, rest) <==>
      Deliverable(payload, accepts) && stream == Frame(payload) + rest
  {
    if Take(stream, accepts) == Took(payload, rest) {
      LengthWrites(stream);
      assert stream == (stream[..4] + payload) + rest;
    } else if Deliverable(payload, accepts) && stream == Frame(payload) + rest {
      TakeFrame(payload, rest, accepts);
    }
  }

  lemma {:induction false} FourBytes(w: int, x: int, y: int, z: int, n: int)
    requires 0 <= w < 0x100 && 0 <= x < 0x100 && 0 <= y < 0x100 && 0 <= z < 0x100
    requires n == w * 0x100_0000 + x * 0x1_0000 + y * 0x100 + z
    ensures 0 <= n < 0x1_0000_0000
    ensures n / 0x100_0000 == w && n / 0x1_0000 % 0x100 == x && n / 0x100 % 0x100 == y && n % 0x100 == z
  {
    assert n / 0x100 == w * 0x1_0000 + x * 0x100 + y;
    assert n / 0x1_0000 == w * 0x100 + x;
  }

  lemma {:induction false} LengthWrites(stream: Bytes)
    requires |stream| >= 4
    ensures LengthOf(stream) < 0x1_0000_0000 && LengthBytes(LengthOf(stream)) == stream[..4]
  {
    FourBytes(stream[0], stream[1], stream[2], stream[3], LengthOf(stream));
  }

  lemma {:induction false} StopsExactly(stream: Bytes, accepts: Bytes -> bool)
    ensures Take(stream, accepts).NeedMore? <==> Unfinished(stream)
    ensures forall e :: Take(stream, accepts) == Bad(e) <==> Refused(stream, accepts, e)
  {
    if |stream| >= 4 { assert Announced(stream) == LengthOf(stream); }
  }

  lemma {:induction false} RestParses(stream: Bytes, accepts: Bytes -> bool, p: Parsed)
    requires p.frames == [] && !Take(stream, accepts).Took?
    ensures MadeOf(stream, accepts, p) <==> Parse(stream, accepts) == p
  {
    StopsExactly(stream, accepts);
    assert [] + p.rest == p.rest;
  }

  lemma {:induction false} ParsedIsMadeOf(stream: Bytes, accepts: Bytes -> bool)
    ensures MadeOf(stream, accepts, Parse(stream, accepts))
    decreases |stream|
  {
    match Take(stream, accepts)
    case Took(payload, rest) =>
      TookExactly(stream, accepts, payload, rest);
      ParsedIsMadeOf(rest, accepts);
      FrameAllMore(payload, Parse(rest, accepts).frames, Parse(rest, accepts).rest);
    case _ => RestParses(stream, accepts, Parse(stream, accepts));
  }

  lemma {:induction false} MadeOfMore(
    stream: Bytes, accepts: Bytes -> bool, p: Parsed, first: Bytes, tail: Parsed, rest: Bytes)
    requires MadeOf(stream, accepts, p) && p.frames == [first] + tail.frames
    requires tail.rest == p.rest && tail.error == p.error && rest == FrameAll(tail.frames) + tail.rest
    ensures MadeOf(rest, accepts, tail) && Take(stream, accepts) == Took(first, rest)
  {
    assert p.frames[0] == first && p.frames[1..] == tail.frames;
    FrameAllMore(first, tail.frames, p.rest);
    TookExactly(stream, accepts, first, rest);
  }

  lemma {:induction false} MadeOfParses(stream: Bytes, accepts: Bytes -> bool, p: Parsed)
    requires MadeOf(stream, accepts, p)
    ensures Parse(stream, accepts) == p
    decreases |p.frames|
  {
    if p.frames == [] {
      assert [] + p.rest == p.rest;
      StopsExactly(stream, accepts);
      RestParses(stream, accepts, p);
    } else {
      var first, tail := p.frames[0], Parsed(p.frames[1..], p.rest, p.error);
      var rest := FrameAll(tail.frames) + tail.rest;
      MadeOfMore(stream, accepts, p, first, tail, rest);
      MadeOfParses(rest, accepts, tail);
    }
  }

  lemma {:induction false} FrameAllMore(first: Bytes, tail: seq<Bytes>, rest: Bytes)
    requires |first| <= MAX_ENVELOPE && forall i | 0 <= i < |tail| :: |tail[i]| <= MAX_ENVELOPE
    ensures FrameAll([first] + tail) + rest == Frame(first) + (FrameAll(tail) + rest)
  {
    assert ([first] + tail)[1..] == tail;
  }

  /** Every stream is made up like this in one way only, and that is what it is parsed into. */
  lemma {:induction false} ParsedExactly(stream: Bytes, accepts: Bytes -> bool, p: Parsed)
    ensures Parse(stream, accepts) == p <==> MadeOf(stream, accepts, p)
  {
    ParsedIsMadeOf(stream, accepts);
    if MadeOf(stream, accepts, p) { MadeOfParses(stream, accepts, p); }
  }
}
