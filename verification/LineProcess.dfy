/** The bounded newline transport that reads a provider's standard output. */
module LineProcess {
  import opened Frames

  const LF: Byte := 0x0A
  const CR: Byte := 0x0D

  /** A line without one trailing carriage return. */
  function Trim(line: Bytes): Bytes {
    if line != [] && line[|line| - 1] == CR then line[..|line| - 1] else line
  }

  /** Lines emitted, the unfinished line, and whether a line went over the limit (after which nothing counts). */
  datatype Scanned = Scanned(lines: seq<Bytes>, pending: Bytes, over: bool)

  /** The whole stream read byte by byte. */
  function Scan(pending: Bytes, stream: Bytes, limit: nat): Scanned
    decreases |stream|
  {
    if |pending| > limit then Scanned([], pending, true)
    else if stream == [] then Scanned([], pending, false)
    else if stream[0] == LF then
      var s := Scan([], stream[1..], limit);
      Scanned([Trim(pending)] + s.lines, s.pending, s.over)
    else Scan(pending + [stream[0]], stream[1..], limit)
  }

  lemma {:induction false} Reassociate(a: seq<Bytes>, b: seq<Bytes>, c: seq<Bytes>)
    ensures (a + b) + c == a + (b + c)
  {
  }

  /** Reading a stream in two parts. */
  lemma {:induction false} ScanAppend(pending: Bytes, a: Bytes, b: Bytes, limit: nat)
    ensures var s, t := Scan(pending, a, limit), Scan(pending, a + b, limit);
            if s.over then t.over && t.lines == s.lines
            else var u := Scan(s.pending, b, limit); t == Scanned(s.lines + u.lines, u.pending, u.over)
    decreases |a|
  {
    if |pending| > limit {
    } else if a == [] {
      assert a + b == b;
      var u := Scan(pending, b, limit);
      assert [] + u.lines == u.lines;
    } else {
      assert (a + b)[1..] == a[1..] + b;
      if a[0] == LF {
        ScanAppend([], a[1..], b, limit);
        var s := Scan([], a[1..], limit);
        Reassociate([Trim(pending)], s.lines, Scan(s.pending, b, limit).lines);
      } else {
        ScanAppend(pending + [a[0]], a[1..], b, limit);
      }
    }
  }

  /** A stretch without a newline only extends the unfinished line. */
  lemma {:induction false} ScanSegment(pending: Bytes, segment: Bytes, rest: Bytes, limit: nat)
    requires LF !in segment
    ensures var s := Scan(pending, segment + rest, limit);
            if |pending| + |segment| > limit then s.over && s.lines == [] else s == Scan(pending + segment, rest, limit)
    decreases |segment|
  {
    if segment == [] {
      assert segment + rest == rest && pending + segment == pending;
    } else if |pending| <= limit {
      assert (segment + rest)[1..] == segment[1..] + rest;
      assert segment[0] in segment && forall x | x in segment[1..] :: x in segment;
      ScanSegment(pending + [segment[0]], segment[1..], rest, limit);
      assert pending + [segment[0]] + segment[1..] == pending + segment;
    }
  }

  /** `indexOf(0x0a, from)`, with the length for a missing newline. */
  function NewlineFrom(chunk: Bytes, from: nat): (i: nat)
    requires from <= |chunk|
    ensures from <= i <= |chunk| && (i < |chunk| ==> chunk[i] == LF)
    ensures LF !in chunk[from..i]
    decreases |chunk| - from
  {
    if from == |chunk| || chunk[from] == LF then from
    else
      var i := NewlineFrom(chunk, from + 1);
      assert chunk[from..i] == [chunk[from]] + chunk[from + 1..i];
      i
  }

  class ManagedLineProcess {
    const maxLineBytes: nat
    var stdoutChunks: seq<Bytes>
    var stdoutBytes: nat
    var emitted: seq<Bytes>   // "line" events
    var errors: nat           // "transportError" events

    ghost predicate Valid()
      reads this
    {
      stdoutBytes == |Concat(stdoutChunks)|
    }

    ghost function Pending(): Bytes
      reads this
    {
      Concat(stdoutChunks)
    }

    constructor (maxLineBytes: nat)
      ensures Valid() && Pending() == [] && emitted == [] && errors == 0 && this.maxLineBytes == maxLineBytes
    {
      this.maxLineBytes := maxLineBytes;
      stdoutChunks, stdoutBytes, emitted, errors := [], 0, [], 0;
    }

    method AddSegment(segment: Bytes)
      requires Valid()
      modifies this`stdoutChunks, this`stdoutBytes
      ensures Valid() && Pending() == old(Pending()) + segment
    {
      if |segment| > 0 {
        ConcatAppend(stdoutChunks, [segment]);
        ConcatOne(segment);
        stdoutChunks := stdoutChunks + [segment];
        stdoutBytes := stdoutBytes + |segment|;
      } else {
        assert Pending() + [] == Pending();
      }
    }

    method ConsumeStdout(chunk: Bytes)
      requires Valid()
      modifies this
      ensures Valid()
      ensures var s := Scan(old(Pending()), chunk, maxLineBytes);
              && emitted == old(emitted) + s.lines
              && (if s.over then |Pending()| > maxLineBytes else Pending() == s.pending)
              && errors == old(errors) + (if s.over && chunk != [] then 1 else 0)
    {
      hide NewlineFrom, Trim;
      var offset := 0;
      ghost var before, goal := emitted, Scan(Pending(), chunk, maxLineBytes);
      ghost var left := goal;
      assert chunk[0..] == chunk;
      while offset < |chunk|
        invariant Valid() && offset <= |chunk| && errors == old(errors)
        invariant left == Scan(Pending(), chunk[offset..], maxLineBytes)
        invariant before + goal.lines == emitted + left.lines && goal.pending == left.pending && goal.over == left.over
        invariant offset > 0 ==> Pending() == []
        decreases |chunk| - offset
      {
        var end := NewlineFrom(chunk, offset);
        ghost var pending, segment, rest := Pending(), chunk[offset..end], chunk[end..];
        assert chunk[offset..] == segment + rest;
        ScanSegment(pending, segment, rest, maxLineBytes);
        AddSegment(chunk[offset..end]);
        if stdoutBytes > maxLineBytes {
          errors := errors + 1;
          return;
        }
        if end == |chunk| {
          assert rest == [];
          return;
        }
        var line := Trim(Concat(stdoutChunks));
        assert rest[1..] == chunk[end + 1..];
        left := Scan([], chunk[end + 1..], maxLineBytes);
        Reassociate(emitted, [line], left.lines);
        stdoutChunks, stdoutBytes := [], 0;
        emitted := emitted + [line];
        offset := end + 1;
      }
      assert chunk[offset..] == [];
    }
  }

  // ----- the whole output -----

  /** What is left to scan after one chunk, whether or not a line went over the limit in it. */
  lemma {:induction false} AfterChunk(
    emitted: seq<Bytes>, pending: Bytes, chunk: Bytes, rest: Bytes, limit: nat, now: Bytes)
    requires var s := Scan(pending, chunk, limit); if s.over then |now| > limit else now == s.pending
    ensures var s, all, later := Scan(pending, chunk, limit), Scan(pending, chunk + rest, limit),
      Scan(now, rest, limit);
            emitted + all.lines == (emitted + s.lines) + later.lines && all.over == later.over
  {
    ScanAppend(pending, chunk, rest, limit);
    var s, later := Scan(pending, chunk, limit), Scan(now, rest, limit);
    Reassociate(emitted, s.lines, later.lines);
    assert s.lines + [] == s.lines;
  }

  /** What a process emits over a run does not depend on how its output arrived in chunks. */
  method ConsumeAll(p: ManagedLineProcess, chunks: seq<Bytes>)
    requires p.Valid()
    modifies p
    ensures p.Valid()
    ensures p.emitted == old(p.emitted) + old(Scan(p.Pending(), Concat(chunks), p.maxLineBytes)).lines
    ensures |p.Pending()| > p.maxLineBytes <==> old(Scan(p.Pending(), Concat(chunks), p.maxLineBytes)).over
  {
    ghost var before, limit := p.emitted, p.maxLineBytes;
    ghost var goal := Scan(p.Pending(), Concat(chunks), limit);
    assert chunks[0..] == chunks;
    for i := 0 to |chunks|
      invariant p.Valid()
      invariant var left := Scan(p.Pending(), Concat(chunks[i..]), limit);
                before + goal.lines == p.emitted + left.lines && goal.over == left.over
    {
      ghost var emitted, pending := p.emitted, p.Pending();
      assert chunks[i..][1..] == chunks[i + 1..];
      p.ConsumeStdout(chunks[i]);
      AfterChunk(emitted, pending, chunks[i], Concat(chunks[i + 1..]), limit, p.Pending());
    }
    assert chunks[|chunks|..] == [];
  }

  /** The lines of a text cut at its newlines, and the unfinished last one. */
  function Cut(pending: Bytes, stream: Bytes): (r: (seq<Bytes>, Bytes))
    decreases |stream|
  {
    if stream == [] then ([], pending)
    else if stream[0] == LF then
      var (lines, last) := Cut([], stream[1..]);
      ([pending] + lines, last)
    else Cut(pending + [stream[0]], stream[1..])
  }

  /** The lines, each with its newline, and what follows them. */
  function Joined(lines: seq<Bytes>, last: Bytes): Bytes {
    if lines == [] then last else lines[0] + [10] + Joined(lines[1..], last)
  }

  /** Cutting loses nothing, and no newline is left inside a line. */
  lemma {:induction false} CutRejoins(pending: Bytes, stream: Bytes)
    requires 10 !in pending
    ensures var (lines, last) := Cut(pending, stream);
            && Joined(lines, last) == pending + stream
            && 10 !in last && forall i | 0 <= i < |lines| :: 10 !in lines[i]
    decreases |stream|
  {
    if stream == [] {
      assert pending + [] == pending;
    } else if stream[0] == LF {
      CutRejoins([], stream[1..]);
      var (lines, last) := Cut([], stream[1..]);
      assert ([pending] + lines)[1..] == lines;
      assert pending + stream == pending + [10] + ([] + stream[1..]);
    } else {
      CutRejoins(pending + [stream[0]], stream[1..]);
      assert pending + [stream[0]] + stream[1..] == pending + stream;
    }
  }

  /** Trimming takes away exactly one carriage return at the end, if there is one. */
  lemma {:induction false} TrimmedExactly(line: Bytes, trimmed: Bytes)
    ensures Trim(line) == trimmed <==>
      line == trimmed + [13] || (line == trimmed && (line == [] || line[|line| - 1] != 13))
  {
    if line != [] && line[|line| - 1] == 13 { assert line == line[..|line| - 1] + [13]; }
  }

  /** How many leading lines stay within the limit. */
  function Within(lines: seq<Bytes>, limit: nat): (k: nat)
    ensures k <= |lines|
    ensures forall i | 0 <= i < k :: |lines[i]| <= limit
    ensures k < |lines| ==> |lines[k]| > limit
  {
    if lines == [] || |lines[0]| > limit then 0 else 1 + Within(lines[1..], limit)
  }

  function TrimAll(lines: seq<Bytes>): seq<Bytes> {
    seq(|lines|, i requires 0 <= i < |lines| => Trim(lines[i]))
  }

  lemma {:induction false} CutGrows(pending: Bytes, stream: Bytes)
    ensures var (lines, last) := Cut(pending, stream);
            if lines == [] then |pending| <= |last| else |pending| <= |lines[0]|
    decreases |stream|
  {
    if stream != [] && stream[0] != LF { CutGrows(pending + [stream[0]], stream[1..]); }
  }

  /** Exactly the complete lines before the first one over the limit are emitted, each less one trailing CR. */
  lemma {:induction false} EmitsLinesWithinLimit(pending: Bytes, stream: Bytes, limit: nat)
    ensures var (lines, last) := Cut(pending, stream);
            var s, k := Scan(pending, stream, limit), Within(lines, limit);
            && s.lines == TrimAll(lines[..k])
            && (s.over <==> k < |lines| || |last| > limit)
            && (!s.over ==> s.pending == last)
    decreases |stream|
  {
    var (lines, last) := Cut(pending, stream);
    var k := Within(lines, limit);
    CutGrows(pending, stream);
    if |pending| > limit {
    } else if stream == [] {
    } else if stream[0] == LF {
      EmitsLinesWithinLimit([], stream[1..], limit);
      assert lines == [pending] + lines[1..];
      assert TrimAll(lines[..k]) == [Trim(pending)] + TrimAll(lines[1..][..k - 1]);
    } else {
      EmitsLinesWithinLimit(pending + [stream[0]], stream[1..], limit);
    }
  }
}
