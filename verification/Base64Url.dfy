/** Base64url text of 32 bytes: 43 characters, whose last one carries two bits that decoding ignores. */
module Base64Url {
  import opened Radix

  predicate InAlphabet(c: char) {
    'A' <= c <= 'Z' || 'a' <= c <= 'z' || '0' <= c <= '9' || c == '-' || c == '_'
  }

  function Sextet(c: char): (n: int)
    ensures 0 <= n < 64
  {
    if 'A' <= c <= 'Z' then c as int - 'A' as int
    else if 'a' <= c <= 'z' then c as int - 'a' as int + 26
    else if '0' <= c <= '9' then c as int - '0' as int + 52
    else if c == '-' then 62
    else 63
  }

  function Letter(n: int): (c: char)
    requires 0 <= n < 64
    ensures InAlphabet(c) && Sextet(c) == n
  {
    if n < 26 then ('A' as int + n) as char
    else if n < 52 then ('a' as int + n - 26) as char
    else if n < 62 then ('0' as int + n - 52) as char
    else if n == 62 then '-'
    else '_'
  }

  lemma {:induction false} SextetInjective(a: char, b: char)
    requires InAlphabet(a) && InAlphabet(b) && Sextet(a) == Sextet(b)
    ensures a == b
  {
  }

  predicate Shaped(text: string) {
    |text| == 43 && forall i | 0 <= i < |text| :: InAlphabet(text[i])
  }

  function Sextets(text: string): (s: seq<int>)
    ensures |s| == |text| && InBase(s, 64)
  {
    seq(|text|, i requires 0 <= i < |text| => Sextet(text[i]))
  }

  function Letters(s: seq<int>): (text: string)
    requires InBase(s, 64)
    ensures |text| == |s|
  {
    seq(|s|, i requires 0 <= i < |s| => Letter(s[i]))
  }

  /** All 258 bits of a text as one number. */
  function Number(text: string): nat {
    ValueBounds(Sextets(text), 64);
    Value(Sextets(text), 64)
  }

  function Padded(n: nat, base: nat, width: nat): seq<int>
    requires 2 <= base
  {
    var digits := DigitsOf(n, base);
    seq(if |digits| <= width then width - |digits| else 0, _ => 0) + digits
  }

  function Read32(text: string): seq<int> { Padded(Number(text) / 4, 256, 32) }

  function Write32(bytes: seq<int>): string
    requires InBase(bytes, 256)
  {
    ValueBounds(bytes, 256);
    DigitsOfCanonical(Value(bytes, 256) * 4, 64);
    Letters(Padded(Value(bytes, 256) * 4, 64, 43))
  }

  /** The two bits decoding ignores. */
  function Spare(text: string): int { Number(text) % 4 }

  /** What writing produces: the spare bits are clear. */
  predicate Canonical43(text: string) { Shaped(text) && Spare(text) == 0 }

  // ----- fixed-width numbers -----

  lemma {:induction false} PaddedValue(n: nat, base: nat, width: nat)
    requires 2 <= base && n < Pow(base, width)
    ensures |Padded(n, base, width)| == width && InBase(Padded(n, base, width), base)
    ensures Value(Padded(n, base, width), base) == n
  {
    FitsIn(n, base, width);
    var digits := DigitsOf(n, base);
    DigitsOfCanonical(n, base);
    ValueDropsZeros(width - |digits|, digits, base);
  }

  lemma {:induction false} PaddedUnique(s: seq<int>, base: nat)
    requires 2 <= base && InBase(s, base)
    ensures 0 <= Value(s, base) && Padded(Value(s, base), base, |s|) == s
  {
    ValueBounds(s, base);
    if s == [] {
    } else if s[0] != 0 {
      CanonicalUnique(s, base);
    } else {
      var tail := s[1..];
      assert s == seq(1, _ => 0) + tail;
      ValueDropsZeros(1, tail, base);
      PaddedUnique(tail, base);
      FitsIn(Value(tail, base), base, |tail|) by { ValueBounds(tail, base); }
    }
  }

  lemma {:induction false} BitsAgree()
    ensures Pow(64, 43) == 4 * Pow(256, 32)
  {
    assert Pow(2, 2) == 4 && Pow(2, 6) == 64 && Pow(2, 8) == 256;
    PowMul(2, 6, 43);
    PowMul(2, 8, 32);
    PowAdd(2, 2, 256);
  }

  // ----- reading and writing -----

  lemma {:induction false} Read32Value(text: string)
    requires |text| == 43
    ensures |Read32(text)| == 32 && InBase(Read32(text), 256) && Value(Read32(text), 256) == Number(text) / 4
  {
    BitsAgree();
    ValueBounds(Sextets(text), 64);
    PaddedValue(Number(text) / 4, 256, 32);
  }

  lemma {:induction false} LettersRead(s: seq<int>)
    requires InBase(s, 64)
    ensures Sextets(Letters(s)) == s && forall i | 0 <= i < |s| :: InAlphabet(Letters(s)[i])
  {
  }

  lemma {:induction false} Fourfold(n: nat, p: nat, q: nat)
    requires n < q && p == 4 * q
    ensures n * 4 < p && n * 4 / 4 == n && n * 4 % 4 == 0
  {
  }

  lemma {:induction false} WrittenNumber(n: nat)
    requires n < Pow(256, 32)
    ensures InBase(Padded(n * 4, 64, 43), 64) && |Padded(n * 4, 64, 43)| == 43
    ensures var text := Letters(Padded(n * 4, 64, 43));
      Shaped(text) && Number(text) / 4 == n && Spare(text) == 0
  {
    BitsAgree();
    Fourfold(n, Pow(64, 43), Pow(256, 32));
    PaddedValue(n * 4, 64, 43);
    LettersRead(Padded(n * 4, 64, 43));
  }

  /** What is written is canonical and reads back. */
  lemma {:induction false} WriteReads(bytes: seq<int>)
    requires |bytes| == 32 && InBase(bytes, 256)
    ensures Canonical43(Write32(bytes)) && Read32(Write32(bytes)) == bytes
  {
    ValueBounds(bytes, 256);
    WrittenNumber(Value(bytes, 256));
    PaddedUnique(bytes, 256);
  }

  /** A text is determined by its number. */
  lemma {:induction false} NumberDetermines(a: string, b: string)
    requires Shaped(a) && Shaped(b) && Number(a) == Number(b)
    ensures a == b
  {
    PaddedUnique(Sextets(a), 64);
    PaddedUnique(Sextets(b), 64);
    forall i | 0 <= i < 43 ensures a[i] == b[i] {
      assert Sextets(a)[i] == Sextets(b)[i];
      SextetInjective(a[i], b[i]);
    }
  }

  /** Texts read alike exactly when they differ in the spare bits only. */
  lemma {:induction false} ReadAlike(a: string, b: string)
    requires Shaped(a) && Shaped(b)
    ensures Read32(a) == Read32(b) <==> Number(a) / 4 == Number(b) / 4
    ensures Read32(a) == Read32(b) && Spare(a) == Spare(b) <==> a == b
  {
    Read32Value(a);
    Read32Value(b);
    if Number(a) / 4 == Number(b) / 4 && Spare(a) == Spare(b) {
      assert Number(a) == Number(b);
      NumberDetermines(a, b);
    }
  }

  /** Writing what was read gives the text back exactly when its spare bits are clear. */
  lemma {:induction false} RewritesExactly(text: string)
    requires Shaped(text)
    ensures InBase(Read32(text), 256) && (Write32(Read32(text)) == text <==> Canonical43(text))
  {
    Read32Value(text);
    WriteReads(Read32(text));
    ReadAlike(Write32(Read32(text)), text);
  }

  /** The text with the spare bits set to k. */
  function Respelled(text: string, k: nat): string
    requires Canonical43(text) && k < 4
  {
    text[..42] + [Letter((Sextet(text[42]) + k) % 64)]
  }

  lemma {:induction false} LastSextet(high: nat, d: nat, k: nat)
    requires (high * 64 + d) % 4 == 0 && d < 64 && k < 4
    ensures (d + k) % 64 == d + k
    ensures (high * 64 + (d + k)) / 4 == (high * 64 + d) / 4 && (high * 64 + (d + k)) % 4 == k
  {
    assert high * 64 == 4 * (16 * high);
    assert d % 4 == 0;
  }

  lemma {:induction false} NumberSplits(text: string)
    requires |text| == 43
    ensures var high := Value(Sextets(text)[..42], 64);
      0 <= high && Number(text) == high * 64 + Sextet(text[42])
  {
    ValueBounds(Sextets(text)[..42], 64);
  }

  lemma {:induction false} RespelledReads(text: string, k: nat)
    requires Canonical43(text) && k < 4
    ensures Shaped(Respelled(text, k)) && Read32(Respelled(text, k)) == Read32(text) && Spare(Respelled(text, k)) == k
  {
    var other, high := Respelled(text, k), Value(Sextets(text)[..42], 64);
    NumberSplits(text);
    NumberSplits(other);
    LastSextet(high, Sextet(text[42]), k);
    assert Sextets(other)[..42] == Sextets(text)[..42];
    ReadAlike(other, text);
  }
}
