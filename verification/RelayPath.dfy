/** The whole path: frames, slices, sealed records, any re-chunking by the relay, and back. */
module RelayPath {
  import opened Frames
  import opened NoiseRecords

  datatype Delivered = Delivered(payloads: seq<Bytes>, failed: bool, buffer: Bytes)

  /** `receive` and `append` in turn until the socket has nothing more to give. */
  function ReceiveAll(c: Cipher, n: nat, wire: Bytes, inbox: seq<Message>, buffer: Bytes): Delivered
    decreases |wire| + |Stream(inbox)|
  {
    var r := ReceiveFrom(c, n, false, wire, inbox);
    match r.result
    case Waiting => Delivered([], false, buffer)
    case Failed(_) => Delivered([], true, buffer)
    case Got(plaintext) =>
      var p := Parse(buffer + plaintext, Everything);
      if p.error.Some? then Delivered([], true, p.rest)
      else
        var d := ReceiveAll(c, n + 1, r.buffer, r.inbox, p.rest);
        Delivered(p.frames + d.payloads, d.failed, d.buffer)
  }

  lemma {:induction false} StreamHasEveryMessage(inbox: seq<Message>)
    requires AllInLimit(inbox)
    ensures |inbox| <= |Stream(inbox)|
  {
    if inbox != [] {
      assert InLimit(inbox[0]);
      StreamHasEveryMessage(inbox[1..]);
    }
  }

  lemma {:induction false} NothingLeft(wire: Bytes, inbox: seq<Message>)
    requires AllInLimit(inbox) && wire + Stream(inbox) == []
    ensures wire == [] && inbox == []
  {
    StreamHasEveryMessage(inbox);
    assert |wire| + |Stream(inbox)| == |wire + Stream(inbox)|;
  }

  lemma {:induction false} ReceivesNext(
    c: Cipher, n: nat, wire: Bytes, inbox: seq<Message>, plaintext: Bytes, tail: Bytes)
    requires Ideal(c) && 0 < |plaintext| <= MAX_SLICE && AllInLimit(inbox)
    requires wire + Stream(inbox) == Record(c.seal(n, plaintext)) + tail
    ensures var r := ReceiveFrom(c, n, false, wire, inbox);
            r.result == Got(plaintext) && AllInLimit(r.inbox) && r.buffer + Stream(r.inbox) == tail
  {
    assert |c.seal(n, plaintext)| == |plaintext| + TAG;
    ReadsNextRecord(wire, inbox, c.seal(n, plaintext), tail);
  }

  lemma {:induction false} NothingMore(c: Cipher, n: nat, wire: Bytes, inbox: seq<Message>, buffer: Bytes)
    requires AllInLimit(inbox) && wire + Stream(inbox) == [] && Take(buffer, Everything) == NeedMore
    ensures var one := Parse(buffer + [], Everything);
      ReceiveAll(c, n, wire, inbox, buffer) == Delivered(one.frames, false, one.rest)
  {
    NothingLeft(wire, inbox);
    assert buffer + [] == buffer;
  }

  /** Whatever the relay does to message boundaries, the receiver decodes exactly the plaintext stream. */
  lemma {:induction false} ReceiverSeesStream(
    c: Cipher, n: nat, wire: Bytes, inbox: seq<Message>, buffer: Bytes, plaintexts: seq<Bytes>)
    requires Ideal(c) && Sendable(plaintexts) && AllInLimit(inbox)
    requires wire + Stream(inbox) == Wire(c, n, plaintexts)
    requires Take(buffer, Everything) == NeedMore
    requires Parse(buffer + Concat(plaintexts), Everything).error.None?
    ensures var one := Parse(buffer + Concat(plaintexts), Everything);
            ReceiveAll(c, n, wire, inbox, buffer) == Delivered(one.frames, false, one.rest)
    decreases |plaintexts|
  {
    hide Parse, Take, ReceiveFrom, ReadFrom;
    if plaintexts == [] {
      NothingMore(c, n, wire, inbox, buffer);
    } else {
      var p, later := plaintexts[0], Concat(plaintexts[1..]);
      ReceivesNext(c, n, wire, inbox, p, Wire(c, n + 1, plaintexts[1..]));
      var r := ReceiveFrom(c, n, false, wire, inbox);
      assert buffer + (p + later) == (buffer + p) + later;
      ParseAppend(buffer + p, later, Everything);
      RestIsIncomplete(buffer + p, Everything);
      ReceiverSeesStream(c, n + 1, r.buffer, r.inbox, Parse(buffer + p, Everything).rest, plaintexts[1..]);
    }
  }

  ghost predicate Encodable(payloads: seq<Bytes>) {
    forall i | 0 <= i < |payloads| :: 2 <= |payloads[i]| <= MAX_ENVELOPE
  }

  /**
   * End to end: cut the frames of any payloads into any sendable pieces, seal the pieces in order, re-chunk the wire
   * into any messages within the relay's limit; the receiver gets the payloads, in order, and no check fires.
   */
  lemma {:induction false} EndToEnd(c: Cipher, payloads: seq<Bytes>, pieces: seq<Bytes>, inbox: seq<Message>)
    requires Ideal(c) && Encodable(payloads) && Sendable(pieces) && Concat(pieces) == FrameAll(payloads)
    requires AllInLimit(inbox) && Stream(inbox) == Wire(c, 0, pieces)
    ensures ReceiveAll(c, 0, [], inbox, []) == Delivered(payloads, false, [])
  {
    FramesParse(payloads, Everything);
    assert [] + Stream(inbox) == Stream(inbox) && [] + Concat(pieces) == Concat(pieces);
    ReceiverSeesStream(c, 0, [], inbox, [], pieces);
  }

  lemma {:induction false} FrameAllAppend(a: seq<Bytes>, p: Bytes)
    requires (forall i | 0 <= i < |a| :: |a[i]| <= MAX_ENVELOPE) && |p| <= MAX_ENVELOPE
    ensures FrameAll(a + [p]) == FrameAll(a) + Frame(p)
  {
    if a == [] {
      assert a + [p] == [p] && [p][1..] == [];
      assert Frame(p) + [] == Frame(p);
    } else {
      assert (a + [p])[1..] == a[1..] + [p];
      FrameAllAppend(a[1..], p);
    }
  }

  lemma {:induction false} OneMorePiece(c: Cipher, n: nat, out: seq<Bytes>, done: seq<Bytes>, piece: Bytes, base: Bytes)
    requires Ideal(c) && Sendable(done) && 0 < |piece| <= MAX_SLICE
    requires Concat(out) == base + Wire(c, n, done)
    ensures Sendable(done + [piece])
    ensures Concat(out + [Record(c.seal(n + |done|, piece))]) == base + Wire(c, n, done + [piece])
  {
    var r := Record(c.seal(n + |done|, piece));
    ConcatAppend(out, [r]);
    ConcatOne(r);
    WireAppend(c, n, done, [piece]);
    OneRecord(c, n + |done|, piece);
    Regroup(base, Wire(c, n, done), r);
  }

  lemma {:induction false} OneRecord(c: Cipher, n: nat, piece: Bytes)
    requires Ideal(c) && 0 < |piece| <= MAX_SLICE
    ensures Wire(c, n, [piece]) == Record(c.seal(n, piece))
  {
    assert [piece][1..] == [];
    assert Wire(c, n, [piece]) == Record(c.seal(n, piece)) + [];
  }

  lemma {:induction false} Regroup(a: Bytes, b: Bytes, d: Bytes)
    ensures (a + b) + d == a + (b + d)
  {
  }

  method SendPieces(conn: NoiseConnection, pieces: seq<Bytes>)
    requires Ideal(conn.outgoing) && !conn.closed && Sendable(pieces)
    modifies conn`sent, conn`outbox
    ensures conn.sent == old(conn.sent) + |pieces|
    ensures Concat(conn.outbox) == old(Concat(conn.outbox)) + Wire(conn.outgoing, old(conn.sent), pieces)
  {
    ghost var n, base, c := conn.sent, Concat(conn.outbox), conn.outgoing;
    assert pieces[..0] == [] && base + [] == base;
    for i := 0 to |pieces|
      invariant conn.sent == n + i
      invariant Concat(conn.outbox) == base + Wire(c, n, pieces[..i])
    {
      OneMorePiece(c, n, conn.outbox, pieces[..i], pieces[i], base);
      assert pieces[..i + 1] == pieces[..i] + [pieces[i]];
      var r := conn.Send(pieces[i]);
    }
    assert pieces[..|pieces|] == pieces;
  }

  lemma {:induction false} OneMorePayload(
    c: Cipher, n: nat, payloads: seq<Bytes>, k: nat, pieces: seq<Bytes>, more: seq<Bytes>, base: Bytes)
    requires Ideal(c) && Encodable(payloads) && k < |payloads| && Sendable(pieces) && Sendable(more)
    requires Concat(pieces) == FrameAll(payloads[..k])
    requires Concat(more) == Frame(payloads[k])
    ensures Concat(pieces + more) == FrameAll(payloads[..k + 1])
    ensures (base + Wire(c, n, pieces)) + Wire(c, n + |pieces|, more) == base + Wire(c, n, pieces + more)
  {
    ConcatAppend(pieces, more);
    WireAppend(c, n, pieces, more);
    FrameAllAppend(payloads[..k], payloads[k]);
    assert payloads[..k + 1] == payloads[..k] + [payloads[k]];
    Regroup(base, Wire(c, n, pieces), Wire(c, n + |pieces|, more));
  }

  method SendPayload(conn: NoiseConnection, payload: Bytes) returns (ghost pieces: seq<Bytes>)
    requires Ideal(conn.outgoing) && 2 <= |payload| <= MAX_ENVELOPE && !conn.closed
    modifies conn`sent, conn`outbox
    ensures Sendable(pieces) && Concat(pieces) == Frame(payload)
    ensures conn.sent == old(conn.sent) + |pieces|
    ensures Concat(conn.outbox) == old(Concat(conn.outbox)) + Wire(conn.outgoing, old(conn.sent), pieces)
  {
    var encoded := EncodeFrame(payload, true);
    var cut := Slices(encoded.value);
    SendPieces(conn, cut);
    pieces := cut;
  }

  /** The sending side produces exactly such pieces. */
  method SendPayloads(conn: NoiseConnection, payloads: seq<Bytes>) returns (ghost pieces: seq<Bytes>)
    requires Ideal(conn.outgoing) && Encodable(payloads) && !conn.closed
    modifies conn`sent, conn`outbox
    ensures Sendable(pieces) && Concat(pieces) == FrameAll(payloads)
    ensures conn.sent == old(conn.sent) + |pieces|
    ensures Concat(conn.outbox) == old(Concat(conn.outbox)) + Wire(conn.outgoing, old(conn.sent), pieces)
  {
    pieces := [];
    ghost var n, base, c := conn.sent, Concat(conn.outbox), conn.outgoing;
    ghost var wire := base;
    assert payloads[..0] == [] && base + [] == base;
    assert Wire(c, n, []) == [] && FrameAll([]) == [] && Concat([]) == [];
    hide Wire, FrameAll, Concat;
    for k := 0 to |payloads|
      invariant Sendable(pieces) && Concat(pieces) == FrameAll(payloads[..k])
      invariant conn.sent == n + |pieces| && Concat(conn.outbox) == wire
      invariant wire == base + Wire(c, n, pieces)
    {
      ghost var more := SendPayload(conn, payloads[k]);
      OneMorePayload(c, n, payloads, k, pieces, more, base);
      wire := wire + Wire(c, n + |pieces|, more);
      pieces := pieces + more;
    }
    assert payloads[..|payloads|] == payloads;
  }

  /** One turn of the receiving loop, spelled out. */
  lemma {:induction false} ReceiveStep(
    c: Cipher, n: nat, wire: Bytes, inbox: seq<Message>, buffer: Bytes, r: Reading<Bytes>, d: Delivered)
    requires r == ReceiveFrom(c, n, false, wire, inbox) && d == ReceiveAll(c, n, wire, inbox, buffer)
    ensures r.result.Waiting? ==> d == Delivered([], false, buffer)
    ensures r.result.Failed? ==> d == Delivered([], true, buffer)
    ensures r.result.Got? ==>
      var p := Parse(buffer + r.result.value, Everything);
      && |r.buffer| + |Stream(r.inbox)| < |wire| + |Stream(inbox)|
      && (p.error.Some? ==> d == Delivered([], true, p.rest))
      && (p.error.None? ==>
            var later := ReceiveAll(c, n + 1, r.buffer, r.inbox, p.rest);
            d == Delivered(p.frames + later.payloads, later.failed, later.buffer))
  {
  }

  /** The receiving side: the request loop without its reply matching. */
  method ReceivePayloads(conn: NoiseConnection, codec: RelayApplicationCodec)
    returns (payloads: seq<Bytes>, failed: bool)
    requires !conn.closed
    modifies conn`wireBuffer, conn`inbox, conn`decrypted, codec
    ensures Delivered(payloads, failed, codec.buffer)
            == old(ReceiveAll(conn.incoming, conn.decrypted, conn.wireBuffer, conn.inbox, codec.buffer))
  {
    payloads, failed := [], false;
    ghost var c, n, wire, inbox, buffer := conn.incoming, conn.decrypted, conn.wireBuffer, conn.inbox, codec.buffer;
    ghost var goal := ReceiveAll(c, n, wire, inbox, buffer);
    ghost var left := goal;
    while true
      invariant !conn.closed
      invariant n == conn.decrypted && wire == conn.wireBuffer && inbox == conn.inbox && buffer == codec.buffer
      invariant left == ReceiveAll(c, n, wire, inbox, buffer)
      invariant goal == Delivered(payloads + left.payloads, left.failed, left.buffer)
      decreases |wire| + |Stream(inbox)|
    {
      var plaintext := conn.Receive();
      ghost var r := Reading(plaintext, conn.wireBuffer, conn.inbox);
      ReceiveStep(c, n, wire, inbox, buffer, r, left);
      if plaintext.Waiting? {
        return payloads, false;
      }
      if plaintext.Failed? {
        return payloads, true;
      }
      var frames := codec.Append(plaintext.value);
      if frames.Err? {
        return payloads, true;
      }
      n, wire, inbox, buffer := n + 1, r.buffer, r.inbox, codec.buffer;
      left := ReceiveAll(c, n, wire, inbox, buffer);
      Associate(payloads, frames.value, left.payloads);
      payloads := payloads + frames.value;
    }
  }
}
