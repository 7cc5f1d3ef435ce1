/** The encrypted connection: each slice is sealed in order and sent as a record with a 2-byte length. */
module NoiseRecords {
  import opened Wrappers
  import opened Frames

  const MAX_WIRE_MESSAGE := 70 * 1024
  const TAG := 16

  datatype ReceiveError = ZeroLength | TooLarge | NotData | Undecipherable | PlaintextSize | Closed
  /** Waiting: the socket has nothing more to give yet. */
  datatype Received<+T> = Got(value: T) | Failed(error: ReceiveError) | Waiting

  datatype Message = Data(bytes: Bytes) | Text

  /** An ideal cipher state: sealing is reversible in order and adds a tag. */
  datatype Cipher = Cipher(seal: (nat, Bytes) -> Bytes, open: (nat, Bytes) -> Option<Bytes>)

  ghost predicate Ideal(c: Cipher) {
    forall n: nat, p: Bytes :: |c.seal(n, p)| == |p| + TAG && c.open(n, c.seal(n, p)) == Some(p)
  }

  function Padding(): (padding: Bytes)
    ensures |padding| == TAG
  {
    [0, 0, 0, 0, 0, 0, 0, 0, 0, 0, 0, 0, 0, 0, 0, 0]
  }

  /** There are such cipher states. */
  lemma {:induction false} IdealExists()
    ensures exists c :: Ideal(c)
  {
    var c := Cipher((n, p) => p + Padding(), (n, q) => if |q| < TAG then None else Some(q[..|q| - TAG]));
    forall n: nat, p: Bytes ensures |c.seal(n, p)| == |p| + TAG && c.open(n, c.seal(n, p)) == Some(p) {
      assert (p + Padding())[..|p|] == p;
    }
    assert Ideal(c);
  }

  // ----- records -----

  function Record(ciphertext: Bytes): Bytes
    requires |ciphertext| <= 0xFFFF
  {
    [|ciphertext| / 0x100, |ciphertext| % 0x100] + ciphertext
  }

  function RecordLength(buffer: Bytes): nat
    requires |buffer| >= 2
  {
    var high: int, low: int := buffer[0], buffer[1];
    high * 0x100 + low
  }

  /** The records of a run of plaintexts, sealed from counter n on. */
  ghost function Wire(c: Cipher, n: nat, plaintexts: seq<Bytes>): Bytes
    requires Ideal(c) && Sendable(plaintexts)
    decreases |plaintexts|
  {
    if plaintexts == [] then [] else Record(c.seal(n, plaintexts[0])) + Wire(c, n + 1, plaintexts[1..])
  }

  predicate Sendable(plaintexts: seq<Bytes>) {
    forall i | 0 <= i < |plaintexts| :: 0 < |plaintexts[i]| <= MAX_SLICE
  }

  lemma {:induction false} WireAppend(c: Cipher, n: nat, a: seq<Bytes>, b: seq<Bytes>)
    requires Ideal(c) && Sendable(a) && Sendable(b)
    ensures Wire(c, n, a + b) == Wire(c, n, a) + Wire(c, n + |a|, b)
    decreases |a|
  {
    if a == [] {
      assert a + b == b;
    } else {
      assert (a + b)[1..] == a[1..] + b;
      WireAppend(c, n + 1, a[1..], b);
    }
  }

  // ----- what a reader does with the messages of the socket -----

  predicate InLimit(m: Message) { m.Data? && 0 < |m.bytes| <= MAX_WIRE_MESSAGE }

  predicate AllInLimit(inbox: seq<Message>) { forall i | 0 <= i < |inbox| :: InLimit(inbox[i]) }

  function Stream(inbox: seq<Message>): Bytes {
    if inbox == [] then [] else (if inbox[0].Data? then inbox[0].bytes else []) + Stream(inbox[1..])
  }

  datatype Reading<T> = Reading(result: Received<T>, buffer: Bytes, inbox: seq<Message>)

  function ReadFrom(buffer: Bytes, inbox: seq<Message>): (r: Reading<Bytes>)
    ensures r.result.Got? ==> |r.buffer| + |Stream(r.inbox)| < |buffer| + |Stream(inbox)|
    ensures r.result != Failed(PlaintextSize)
    decreases |inbox|
  {
    if |buffer| >= 2 && RecordLength(buffer) == 0 then Reading(Failed(ZeroLength), buffer, inbox)
    else if |buffer| >= 2 && |buffer| >= RecordLength(buffer) + 2 then
      Reading(Got(buffer[2..RecordLength(buffer) + 2]), buffer[RecordLength(buffer) + 2..], inbox)
    else if inbox == [] then Reading(Waiting, buffer, inbox)
    else if inbox[0].Text? then Reading(Failed(NotData), buffer, inbox[1..])
    else if !InLimit(inbox[0]) then Reading(Failed(TooLarge), buffer, inbox[1..])
    else if |buffer + inbox[0].bytes| > MAX_WIRE_MESSAGE * 2 then
      Reading(Failed(TooLarge), buffer + inbox[0].bytes, inbox[1..])
    else ReadFrom(buffer + inbox[0].bytes, inbox[1..])
  }

  /** The limit on the whole buffer cannot fire: an incomplete record and one more message always fit. */
  lemma {:induction false} BufferLimitUnreachable(buffer: Bytes, inbox: seq<Message>)
    requires AllInLimit(inbox)
    ensures ReadFrom(buffer, inbox).result != Failed(TooLarge)
    decreases |inbox|
  {
    if inbox != [] && (|buffer| < 2 || (RecordLength(buffer) > 0 && |buffer| < RecordLength(buffer) + 2)) {
      assert InLimit(inbox[0]);
      BufferLimitUnreachable(buffer + inbox[0].bytes, inbox[1..]);
    }
  }

  lemma {:induction false} RecordReads(ciphertext: Bytes, tail: Bytes)
    requires |ciphertext| <= 0xFFFF
    ensures var r := Record(ciphertext) + tail;
            RecordLength(r) == |ciphertext| && r[2..|ciphertext| + 2] == ciphertext && r[|ciphertext| + 2..] == tail
  {
  }

  /** A record comes out whole however the relay cut the stream into messages. */
  lemma {:induction false} ReadsNextRecord(buffer: Bytes, inbox: seq<Message>, ciphertext: Bytes, tail: Bytes)
    requires AllInLimit(inbox) && 0 < |ciphertext| <= 0xFFFF
    requires buffer + Stream(inbox) == Record(ciphertext) + tail
    ensures var r := ReadFrom(buffer, inbox);
            r.result == Got(ciphertext) && AllInLimit(r.inbox) && r.buffer + Stream(r.inbox) == tail
    decreases |inbox|
  {
    var all := Record(ciphertext) + tail;
    RecordReads(ciphertext, tail);
    var n := |ciphertext| + 2;
    if |buffer| >= n {
      assert buffer == all[..|buffer|];
      assert buffer[2..n] == all[2..n] == ciphertext;
      assert buffer[n..] + Stream(inbox) == all[n..];
      assert RecordLength(buffer) == RecordLength(all);
    } else {
      assert inbox != [] by { assert |all| >= n; }
      assert InLimit(inbox[0]);
      if |buffer| >= 2 { assert buffer == all[..|buffer|]; assert RecordLength(buffer) == RecordLength(all); }
      assert buffer + (inbox[0].bytes + Stream(inbox[1..])) == (buffer + inbox[0].bytes) + Stream(inbox[1..]);
      ReadsNextRecord(buffer + inbox[0].bytes, inbox[1..], ciphertext, tail);
    }
  }

  // ----- when a reader stops -----

  /** The length of the record at the front, most significant byte first. */
  function Heading(buffer: Bytes): int
    requires |buffer| >= 2
  {
    var high: int, low: int := buffer[0], buffer[1];
    256 * high + low
  }

  /** The bytes do not hold a whole record yet. */
  predicate Short(buffer: Bytes) {
    |buffer| < 2 || (Heading(buffer) > 0 && |buffer| < 2 + Heading(buffer))
  }

  predicate Fits(m: Message) { m.Data? && 1 <= |m.bytes| <= 71_680 }

  /** The first k messages were read, each because the bytes so far were short of a record; they make up these bytes. */
  ghost predicate Reads(buffer: Bytes, inbox: seq<Message>, k: int, bytes: Bytes) {
    && 0 <= k <= |inbox| && bytes == buffer + Stream(inbox[..k])
    && forall j | 0 <= j < k :: Fits(inbox[j]) && Short(buffer + Stream(inbox[..j]))
  }

  lemma {:induction false} ReadsNone(buffer: Bytes, inbox: seq<Message>)
    ensures Reads(buffer, inbox, 0, buffer)
  {
    assert buffer + [] == buffer;
  }

  lemma {:induction false} StreamStarts(m: Message, inbox: seq<Message>, j: nat)
    requires j <= |inbox| && m.Data?
    ensures Stream(([m] + inbox)[..j + 1]) == m.bytes + Stream(inbox[..j])
  {
    assert ([m] + inbox)[..j + 1][1..] == inbox[..j];
  }

  lemma {:induction false} ReadsMore(buffer: Bytes, m: Message, inbox: seq<Message>, k: int, bytes: Bytes)
    requires Short(buffer) && Fits(m) && Reads(buffer + m.bytes, inbox, k, bytes)
    ensures Reads(buffer, [m] + inbox, k + 1, bytes)
  {
    var all := [m] + inbox;
    forall j | 0 <= j < k + 1 ensures Fits(all[j]) && Short(buffer + Stream(all[..j])) {
      if j == 0 {
        assert buffer + [] == buffer;
      } else {
        StreamStarts(m, inbox, j - 1);
        assert buffer + (m.bytes + Stream(inbox[..j - 1])) == (buffer + m.bytes) + Stream(inbox[..j - 1]);
        assert Fits(inbox[j - 1]);
      }
    }
    StreamStarts(m, inbox, k);
    assert buffer + (m.bytes + Stream(inbox[..k])) == (buffer + m.bytes) + Stream(inbox[..k]);
  }

  /** Why reading stops after k messages, with the bytes left over. */
  ghost predicate Stops(buffer: Bytes, inbox: seq<Message>, k: int, result: Received<Bytes>, left: Bytes) {
    match result
    case Got(record) =>
      exists bytes :: Reads(buffer, inbox, k, bytes) && |bytes| >= 2 && Heading(bytes) == |record| > 0
        && bytes[2..] == record + left
    case Waiting => k == |inbox| && Reads(buffer, inbox, k, left) && Short(left)
    case Failed(e) =>
      if e.ZeroLength? then Reads(buffer, inbox, k, left) && |left| >= 2 && Heading(left) == 0
      else
        && 0 < k <= |inbox| && Reads(buffer, inbox, k - 1, left) && Short(left) && !Fits(inbox[k - 1])
        && e == if inbox[k - 1].Data? then TooLarge else NotData
  }

  lemma {:induction false} StopsMore(
    buffer: Bytes, m: Message, inbox: seq<Message>, k: int, result: Received<Bytes>, left: Bytes)
    requires Short(buffer) && Fits(m) && Stops(buffer + m.bytes, inbox, k, result, left)
    ensures Stops(buffer, [m] + inbox, k + 1, result, left)
  {
    match result
    case Got(record) =>
      var bytes :| Reads(buffer + m.bytes, inbox, k, bytes) && |bytes| >= 2 && Heading(bytes) == |record| > 0
        && bytes[2..] == record + left;
      ReadsMore(buffer, m, inbox, k, bytes);
    case Waiting => ReadsMore(buffer, m, inbox, k, left);
    case Failed(e) => ReadsMore(buffer, m, inbox, if e.ZeroLength? then k else k - 1, left);
  }

  lemma {:induction false} ReadsOn(buffer: Bytes, inbox: seq<Message>)
    requires Short(buffer) && inbox != [] && Fits(inbox[0])
    ensures ReadFrom(buffer, inbox) == ReadFrom(buffer + inbox[0].bytes, inbox[1..])
  {
  }

  lemma {:induction false} ReadAtOnce(buffer: Bytes, inbox: seq<Message>)
    requires Short(buffer) ==> inbox == [] || !Fits(inbox[0])
    ensures var r := ReadFrom(buffer, inbox);
      if Short(buffer) && inbox != []
      then r == Reading(Failed(if inbox[0].Data? then TooLarge else NotData), buffer, inbox[1..])
      else if Short(buffer) then r == Reading(Waiting, buffer, [])
      else if Heading(buffer) == 0 then r == Reading(Failed(ZeroLength), buffer, inbox)
      else r == Reading(Got(buffer[2..Heading(buffer) + 2]), buffer[Heading(buffer) + 2..], inbox)
  {
  }

  lemma {:induction false} StopsAtOnce(buffer: Bytes, inbox: seq<Message>)
    requires Short(buffer) ==> inbox == [] || !Fits(inbox[0])
    ensures var r := ReadFrom(buffer, inbox);
      Stops(buffer, inbox, if Short(buffer) && inbox != [] then 1 else 0, r.result, r.buffer)
  {
    ReadsNone(buffer, inbox);
    ReadAtOnce(buffer, inbox);
    if !Short(buffer) && Heading(buffer) > 0 {
      assert buffer[2..] == buffer[2..Heading(buffer) + 2] + buffer[Heading(buffer) + 2..];
    }
  }

  /**
   * The reader takes messages for as long as its bytes are short of a record. It stops with a whole record, a length
   * of zero, a message that is text or not of 1 to 71,680 bytes, or at the end of the messages; nothing else is
   * taken, and which of these it is follows from the bytes and the message.
   */
  lemma {:induction false} ReadExactly(buffer: Bytes, inbox: seq<Message>) returns (k: nat)
    ensures var r := ReadFrom(buffer, inbox);
      k <= |inbox| && r.inbox == inbox[k..] && Stops(buffer, inbox, k, r.result, r.buffer)
    decreases |inbox|, 0
  {
    if Short(buffer) && inbox != [] && Fits(inbox[0]) {
      ReadsOn(buffer, inbox);
      k := ReadOneMore(buffer, inbox[0], inbox[1..]);
      assert [inbox[0]] + inbox[1..] == inbox;
    } else {
      ReadAtOnce(buffer, inbox);
      StopsAtOnce(buffer, inbox);
      k := if Short(buffer) && inbox != [] then 1 else 0;
    }
  }

  lemma {:induction false} ReadOneMore(buffer: Bytes, m: Message, rest: seq<Message>) returns (k: nat)
    requires Short(buffer) && Fits(m)
    ensures var r := ReadFrom(buffer + m.bytes, rest);
      k <= |rest| + 1 && r.inbox == ([m] + rest)[k..] && Stops(buffer, [m] + rest, k, r.result, r.buffer)
    decreases |rest|, 1
  {
    var r := ReadFrom(buffer + m.bytes, rest);
    var j := ReadExactly(buffer + m.bytes, rest);
    k := j + 1;
    assert ([m] + rest)[j + 1..] == rest[j..];
    StopsMore(buffer, m, rest, j, r.result, r.buffer);
  }

  // ----- the connection -----

  function ReceiveFrom(c: Cipher, n: nat, closed: bool, buffer: Bytes, inbox: seq<Message>): (r: Reading<Bytes>)
    ensures r.result.Got? ==> |r.buffer| + |Stream(r.inbox)| < |buffer| + |Stream(inbox)|
  {
    if closed then Reading(Failed(Closed), buffer, inbox)
    else
      var r := ReadFrom(buffer, inbox);
      if !r.result.Got? then r
      else match c.open(n, r.result.value)
        case None => Reading(Failed(Undecipherable), r.buffer, r.inbox)
        case Some(p) =>
          if 0 < |p| <= MAX_SLICE then Reading(Got(p), r.buffer, r.inbox)
          else Reading(Failed(PlaintextSize), r.buffer, r.inbox)
  }

  /** A message is received exactly from a record that opens to 1 to 61,440 bytes on a connection that is not closed. */
  lemma {:induction false} ReceivedExactly(
    c: Cipher, n: nat, closed: bool, buffer: Bytes, inbox: seq<Message>, plaintext: Bytes)
    ensures var r, read := ReceiveFrom(c, n, closed, buffer, inbox), ReadFrom(buffer, inbox);
      && (r.result == Got(plaintext) <==>
            && !closed && read.result.Got? && c.open(n, read.result.value) == Some(plaintext)
            && 1 <= |plaintext| <= 61_440)
      && (closed ==> r == Reading(Failed(Closed), buffer, inbox))
      && (!closed ==> r.buffer == read.buffer && r.inbox == read.inbox)
      && (!closed && !read.result.Got? ==> r.result == read.result)
  {
  }

  class NoiseConnection {
    var wireBuffer: Bytes
    var closed: bool
    var sent: nat      // counter of the encryptor
    var decrypted: nat    // counter of the decryptor
    var inbox: seq<Message>
    var outbox: seq<Bytes>
    const outgoing: Cipher
    const incoming: Cipher

    constructor (outgoing: Cipher, incoming: Cipher)
      ensures this.outgoing == outgoing && this.incoming == incoming
      ensures wireBuffer == [] && !closed && sent == decrypted == 0 && inbox == [] && outbox == []
    {
      this.outgoing, this.incoming := outgoing, incoming;
      wireBuffer, closed, sent, decrypted, inbox, outbox := [], false, 0, 0, [], [];
    }

    method Send(plaintext: Bytes) returns (r: Received<()>)
      requires Ideal(outgoing)
      modifies this`sent, this`outbox
      ensures r == (if closed then Failed(Closed) else if 1 <= |plaintext| <= 61_440 then Got(())
        else Failed(PlaintextSize))
      ensures r.Got? ==> sent == old(sent) + 1 && outbox == old(outbox) + [Record(outgoing.seal(old(sent), plaintext))]
      ensures !r.Got? ==> sent == old(sent) && outbox == old(outbox)
    {
      if closed {
        return Failed(Closed);
      }
      if !(plaintext != [] && |plaintext| <= MAX_SLICE) {
        return Failed(PlaintextSize);
      }
      var ciphertext := outgoing.seal(sent, plaintext);
      assert |ciphertext| == |plaintext| + TAG;
      sent := sent + 1;
      if !(ciphertext != [] && |ciphertext| <= 0xFFFF) {
        return Failed(TooLarge);
      }
      outbox := outbox + [[|ciphertext| / 0x100, |ciphertext| % 0x100] + ciphertext];
      return Got(());
    }

    /** The next record; Waiting leaves the bytes seen so far in the buffer. */
    method ReadRecord() returns (r: Received<Bytes>)
      modifies this`wireBuffer, this`inbox
      ensures Reading(r, wireBuffer, inbox) == ReadFrom(old(wireBuffer), old(inbox))
    {
      while true
        invariant ReadFrom(wireBuffer, inbox) == ReadFrom(old(wireBuffer), old(inbox))
        decreases |inbox|
      {
        if |wireBuffer| >= 2 {
          var length := RecordLength(wireBuffer);
          if !(length > 0) {
            return Failed(ZeroLength);
          }
          if |wireBuffer| >= length + 2 {
            var record := wireBuffer[2..length + 2];
            wireBuffer := wireBuffer[length + 2..];
            return Got(record);
          }
        }
        if inbox == [] {
          return Waiting;
        }
        var message := inbox[0];
        inbox := inbox[1..];
        match message
        case Text =>
          return Failed(NotData);
        case Data(data) =>
          if !(data != [] && |data| <= MAX_WIRE_MESSAGE) {
            return Failed(TooLarge);
          }
          wireBuffer := wireBuffer + data;
          if !(|wireBuffer| <= MAX_WIRE_MESSAGE * 2) {
            return Failed(TooLarge);
          }
      }
    }

    method Receive() returns (r: Received<Bytes>)
      modifies this`wireBuffer, this`inbox, this`decrypted
      ensures Reading(r, wireBuffer, inbox) == ReceiveFrom(incoming, old(decrypted), closed, old(wireBuffer),
        old(inbox))
      ensures decrypted == old(decrypted) + (if r.Got? || r == Failed(PlaintextSize) then 1 else 0)
    {
      if closed {
        return Failed(Closed);
      }
      var ciphertext := ReadRecord();
      match ciphertext
      case Got(value) =>
        var plaintext := incoming.open(decrypted, value);
        if plaintext.None? {
          return Failed(Undecipherable);
        }
        decrypted := decrypted + 1;
        if !(plaintext.value != [] && |plaintext.value| <= MAX_SLICE) {
          return Failed(PlaintextSize);
        }
        return Got(plaintext.value);
      case Failed(e) =>
        return Failed(e);
      case Waiting =>
        return Waiting;
    }

    method Close()
      modifies this`closed
      ensures closed
    {
      closed := true;
    }
  }
}
