/** Base58 with the Bitcoin alphabet, and the libp2p peer identifiers written in it. */
module Base58 {
  import opened Radix

  type Byte = b: int | 0 <= b < 256

  datatype Result<+T> = Ok(value: T) | InvalidEncoding

  // ----- alphabet -----

  /** 123456789 ABCDEFGH JKLMN PQRSTUVWXYZ abcdefghijk mnopqrstuvwxyz */
  function Letter(i: nat): char
    requires i < 58
  {
    if i < 9 then ('1' as int + i) as char
    else if i < 17 then ('A' as int + i - 9) as char
    else if i < 22 then ('J' as int + i - 17) as char
    else if i < 33 then ('P' as int + i - 22) as char
    else if i < 44 then ('a' as int + i - 33) as char
    else ('m' as int + i - 44) as char
  }

  /** The reverse dictionary of the alphabet; -1 stands for a missing entry. */
  function IndexOf(c: char): (r: int)
    ensures -1 <= r < 58
    ensures 0 <= r ==> Letter(r) == c
    ensures forall i | 0 <= i < 58 && Letter(i) == c :: r == i
  {
    Search(c, 0)
  }

  function Search(c: char, from: nat): (r: int)
    requires from <= 58
    ensures r == -1 || from <= r < 58
    ensures 0 <= r ==> Letter(r) == c
    ensures forall i | from <= i < 58 && Letter(i) == c :: r == i
    decreases 58 - from
  {
    if from == 58 then -1 else if Letter(from) == c then from else Search(c, from + 1)
  }

  // ----- the carry loops -----

  /** The last `length` cells of the buffer hold the digits of v and every cell before them is zero. */
  ghost predicate Holds(cells: seq<int>, length: nat, radix: nat, v: int) {
    && length <= |cells|
    && (forall i | 0 <= i < |cells| - length :: cells[i] == 0)
    && Canonical(cells[|cells| - length..], radix)
    && Value(cells[|cells| - length..], radix) == v
  }

  /** One carry step keeps  low + radix^index * (carry + scale * high)  unchanged. */
  lemma {:induction false} CarryStep(
    low: int, power: int, sum: int, high: int, scale: int, carry: int, digit: int, radix: nat)
    requires 2 <= radix && sum == carry + scale * digit
    ensures (sum % radix) * power + low + radix * power * (sum / radix + scale * high)
            == low + power * (carry + scale * (high * radix + digit))
  {
    var q, r := sum / radix, sum % radix;
    assert sum == radix * q + r;
    var s := scale * high;
    assert radix * power * (q + s) == power * (radix * q) + power * (radix * s);
    assert r * power + power * (radix * q) == power * sum;
    assert power * sum + power * (radix * s) == power * (sum + radix * s);
    assert scale * (high * radix + digit) == radix * s + scale * digit;
  }

  /** The carry stays below the scale, so the source's machine integers cannot overflow. */
  lemma {:induction false} CarryStaysSmall(carry: nat, digit: nat, scale: nat, radix: nat)
    requires 2 <= radix && digit < radix && carry < scale
    ensures carry + scale * digit < scale * radix
    ensures (carry + scale * digit) / radix < scale
  {
    SumBound(carry, digit, scale, radix);
    QuotientBound(carry + scale * digit, scale, radix);
  }

  lemma {:induction false} SumBound(carry: nat, digit: nat, scale: nat, radix: nat)
    requires digit < radix && carry < scale
    ensures carry + scale * digit < scale * radix
  {
    assert scale * (digit + 1) <= scale * radix;
  }

  lemma {:induction false} QuotientBound(sum: nat, scale: nat, radix: nat)
    requires 2 <= radix && sum < scale * radix
    ensures sum / radix < scale
  {
    var q := sum / radix;
    assert q * radix <= sum;
    if q >= scale { MulMono(scale, q, radix, radix); }
  }

  /** The digit string grows on the left by one digit. */
  lemma {:induction false} PrependDigit(digit: int, low: seq<int>, radix: nat)
    ensures Value([digit] + low, radix) == digit * Pow(radix, |low|) + Value(low, radix)
  {
    ValueConcat([digit], low, radix);
  }

  /**
   * Mid-way through a carry pass: the last `index` cells are final, the cells from `edge` up to them are still
   * the old digits, and together with the carry they make up the total.
   */
  ghost predicate Carrying(
    cells: seq<int>, before: seq<int>, edge: nat, index: nat, radix: nat, scale: nat, carry: int, total: int)
  {
    && |cells| == |before|
    && index <= |cells| - edge
    && 0 <= carry < scale
    && cells[..|cells| - index] == before[..|cells| - index]
    && InBase(cells[|cells| - index..], radix)
    && Value(cells[|cells| - index..], radix)
       + Pow(radix, index) * (carry + scale * Value(before[edge..|cells| - index], radix)) == total
  }

  /** The same step with the sums given as they stand in the buffer. */
  lemma {:induction false} CarrySum(
    low: int, power: int, next: int, sum: int, high: int, scale: int, carry: int, digit: int, radix: nat, newLow: int,
    oldHigh: int)
    requires 2 <= radix && sum == carry + scale * digit && next == radix * power
    requires newLow == (sum % radix) * power + low && oldHigh == high * radix + digit
    ensures newLow + next * (sum / radix + scale * high) == low + power * (carry + scale * oldHigh)
  {
    CarryStep(low, power, sum, high, scale, carry, digit, radix);
  }

  lemma {:induction false} CarryingStep(
    cells: seq<int>, before: seq<int>, edge: nat, index: nat, radix: nat, scale: nat, carry: nat, total: int, sum: int)
    requires 2 <= radix && Carrying(cells, before, edge, index, radix, scale, carry, total)
    requires index < |cells| - edge
    requires 0 <= cells[|cells| - 1 - index] < radix
    requires sum == carry + scale * cells[|cells| - 1 - index]
    ensures 0 <= sum
    ensures Carrying(cells[|cells| - 1 - index := sum % radix], before, edge, index + 1, radix, scale, sum / radix,
      total)
  {
    hide Value, Pow;
    var at := |cells| - 1 - index;
    CarryStaysSmall(carry, cells[at], scale, radix);
    RemainderIsDigit(sum, radix);
    CarryingDigits(cells, before, edge, at, radix, sum % radix);
    CarryingValue(cells, before, edge, at, index, radix, scale, carry, total, sum);
  }

  lemma {:induction false} RemainderIsDigit(sum: nat, radix: nat)
    requires 2 <= radix
    ensures 0 <= sum % radix < radix && 0 <= sum / radix
  {
  }

  lemma {:induction false} CarryingValue(
    cells: seq<int>, before: seq<int>, edge: nat, at: nat, index: nat, radix: nat, scale: nat, carry: int, total: int,
    sum: nat)
    requires 2 <= radix && edge <= at && at + index + 1 == |cells| == |before| && InBase(cells[at + 1..], radix)
    requires cells[..at + 1] == before[..at + 1] && sum == carry + scale * cells[at]
    requires Value(cells[at + 1..], radix) + Pow(radix, index) * (carry + scale * Value(before[edge..at + 1], radix))
             == total
    ensures Value(cells[at := sum % radix][at..], radix)
            + Pow(radix, index + 1) * (sum / radix + scale * Value(before[edge..at], radix)) == total
  {
    hide Value, Pow;
    PowNext(radix, index);
    RemainderIsDigit(sum, radix);
    CarryingDigits(cells, before, edge, at, radix, sum % radix);
    CarrySum(Value(cells[at + 1..], radix), Pow(radix, index), Pow(radix, index + 1), sum,
      Value(before[edge..at], radix), scale, carry, cells[at], radix, Value(cells[at := sum % radix][at..], radix),
      Value(before[edge..at + 1], radix));
  }

  lemma {:induction false} CarryingDigits(
    cells: seq<int>, before: seq<int>, edge: nat, at: nat, radix: nat, digit: int)
    requires edge <= at < |cells| == |before| && 0 <= digit < radix
    requires cells[..at + 1] == before[..at + 1] && InBase(cells[at + 1..], radix)
    ensures var next := cells[at := digit];
            && next[..at] == before[..at] && InBase(next[at..], radix)
            && Value(next[at..], radix) == digit * Pow(radix, |cells| - 1 - at) + Value(cells[at + 1..], radix)
    ensures Value(before[edge..at + 1], radix) == Value(before[edge..at], radix) * radix + cells[at]
  {
    var low := cells[at + 1..];
    assert cells[at := digit][at..] == [digit] + low;
    PrependDigit(digit, low, radix);
    assert before[edge..at + 1][..at - edge] == before[edge..at];
    assert cells[..at + 1][at] == before[..at + 1][at];
  }

  /** Past the old digits only the carry is left. */
  ghost predicate Spilling(cells: seq<int>, index: nat, radix: nat, carry: int, total: int) {
    && index <= |cells|
    && 0 <= carry
    && (forall i | 0 <= i < |cells| - index :: cells[i] == 0)
    && InBase(cells[|cells| - index..], radix)
    && Value(cells[|cells| - index..], radix) + Pow(radix, index) * carry == total
  }

  lemma {:induction false} SpillHasRoom(cells: seq<int>, index: nat, radix: nat, carry: int, total: int)
    requires 2 <= radix && Spilling(cells, index, radix, carry, total) && 0 < carry
    requires total < Pow(radix, |cells|)
    ensures index < |cells|
  {
    ValueBounds(cells[|cells| - index..], radix);
    PowPositive(radix, index);
    MulMono(Pow(radix, index), Pow(radix, index), 1, carry);
  }

  lemma {:induction false} SpillDigits(cells: seq<int>, at: nat, digit: int, radix: nat)
    requires at < |cells| && 0 <= digit < radix && InBase(cells[at + 1..], radix)
    ensures var next := cells[at := digit];
      && InBase(next[at..], radix)
      && Value(next[at..], radix) == digit * Pow(radix, |cells| - 1 - at) + Value(cells[at + 1..], radix)
  {
    var low := cells[at + 1..];
    assert cells[at := digit][at..] == [digit] + low;
    PrependDigit(digit, low, radix);
  }

  lemma {:induction false} SpillSum(low: int, power: nat, next: nat, carry: nat, radix: nat, high: int)
    requires 2 <= radix && next == radix * power && high == (carry % radix) * power + low
    ensures high + next * (carry / radix) == low + power * carry
  {
    CarryStep(low, power, carry, 0, 0, carry, 0, radix);
  }

  lemma {:induction false} SpillValue(cells: seq<int>, at: nat, index: nat, radix: nat, carry: nat, total: int)
    requires 2 <= radix && at + index + 1 == |cells| && InBase(cells[at + 1..], radix)
    requires Value(cells[at + 1..], radix) + Pow(radix, index) * carry == total
    ensures Value(cells[at := carry % radix][at..], radix) + Pow(radix, index + 1) * (carry / radix) == total
  {
    hide Value, Pow;
    PowNext(radix, index);
    RemainderIsDigit(carry, radix);
    SpillDigits(cells, at, carry % radix, radix);
    SpillSum(Value(cells[at + 1..], radix), Pow(radix, index), Pow(radix, index + 1), carry, radix,
      Value(cells[at := carry % radix][at..], radix));
  }

  lemma {:induction false} SpillStep(cells: seq<int>, index: nat, radix: nat, carry: int, total: int)
    requires 2 <= radix && Spilling(cells, index, radix, carry, total)
    requires index < |cells|
    ensures Spilling(cells[|cells| - 1 - index := carry % radix], index + 1, radix, carry / radix, total)
  {
    hide Value, Pow;
    var at := |cells| - 1 - index;
    var digit, rest := carry % radix, carry / radix;
    SpillDigits(cells, at, digit, radix);
    SpillValue(cells, at, index, radix, carry, total);
    assert forall i | 0 <= i < at :: cells[at := digit][i] == cells[i];
    RemainderIsDigit(carry, radix);
  }

  lemma {:induction false} SpillPass(cells: seq<int>, index: nat, radix: nat, carry: int, total: int)
    requires 2 <= radix && Spilling(cells, index, radix, carry, total) && 0 < carry
    requires total < Pow(radix, |cells|)
    ensures index < |cells|
    ensures Spilling(cells[|cells| - 1 - index := carry % radix], index + 1, radix, carry / radix, total)
    ensures 0 <= carry / radix < carry
    ensures carry / radix == 0 ==> 0 < carry % radix
  {
    SpillHasRoom(cells, index, radix, carry, total);
    SpillStep(cells, index, radix, carry, total);
    DivisionShrinks(carry, radix);
  }

  lemma {:induction false} SpillEnds(cells: seq<int>, index: nat, radix: nat, total: int)
    requires 2 <= radix && 0 < index <= |cells| && Spilling(cells, index, radix, 0, total)
    requires cells[|cells| - index] > 0
    ensures Holds(cells, index, radix, total)
  {
    assert cells[|cells| - index..][0] == cells[|cells| - index];
    assert Pow(radix, index) * 0 == 0;
  }

  /**
   * buffer := scale * buffer + add, in place; returns how many cells now carry digits.
   * The source writes this out twice: with (256, 58) when encoding and (58, 256) when decoding.
   */
  method Accumulate(buffer: array<int>, length: nat, add: nat, scale: nat, radix: nat, ghost v: nat)
    returns (newLength: nat)
    requires 2 <= radix && add < scale && 0 < buffer.Length
    requires Holds(buffer[..], length, radix, v)
    requires 0 < v || 0 < add
    requires scale * v + add < Pow(radix, buffer.Length)
    modifies buffer
    ensures Holds(buffer[..], newLength, radix, scale * v + add)
  {
    var span := if length > 1 then length else 1;
    AccumulateStart(buffer[..], length, span, add, scale, radix, v);
    var index, carry := Rewrite(buffer, length, span, add, scale, radix, scale * v + add);
    newLength := Spill(buffer, index, carry, radix, scale * v + add);
  }

  /** The first loop: the digits already there, from the right. */
  method Rewrite(buffer: array<int>, length: nat, span: nat, add: nat, scale: nat, radix: nat, ghost total: int)
    returns (index: nat, carry: nat)
    requires 2 <= radix && span <= buffer.Length && span == (if length > 1 then length else 1)
    requires Carrying(buffer[..], buffer[..], buffer.Length - span, 0, radix, scale, add, total)
    requires InBase(buffer[..], radix)
    requires forall i | 0 <= i < buffer.Length - span :: buffer[i] == 0
    requires buffer[buffer.Length - span] > 0 || (span == 1 && add > 0)
    modifies buffer
    ensures index == span
    ensures Spilling(buffer[..], span, radix, carry, total)
    ensures carry == 0 ==> buffer[buffer.Length - span] > 0
  {
    hide Carrying, Spilling, Value, Pow;
    carry, index := add, 0;
    ghost var before, edge := buffer[..], buffer.Length - span;
    ghost var cells := before;
    while index < span
      invariant 0 <= index <= span
      invariant buffer[..] == cells
      invariant Carrying(cells, before, edge, index, radix, scale, carry, total)
      invariant index < span ==> before[edge] > 0 || carry > 0
      invariant index == span && carry == 0 ==> cells[edge] > 0
    {
      var position := buffer.Length - 1 - index;
      assert buffer[position] == cells[position];
      var sum := carry + scale * buffer[position];
      var digit, rest := sum % radix, sum / radix;
      PassStep(cells, before, edge, index, radix, scale, carry, total, sum, digit, rest);
      cells := cells[position := digit];
      buffer[position] := digit;
      assert buffer[..] == cells;
      carry := rest;
      index := index + 1;
      if carry == 0 && index >= length { break; }
    }
    SpillStart(cells, before, edge, radix, scale, carry, total);
  }

  /** The second loop: the digits that the carry adds on the left. */
  method Spill(buffer: array<int>, start: nat, overflow: nat, radix: nat, ghost total: nat) returns (index: nat)
    requires 2 <= radix && total < Pow(radix, buffer.Length)
    requires Spilling(buffer[..], start, radix, overflow, total)
    requires 0 < start <= buffer.Length && (overflow == 0 ==> buffer[buffer.Length - start] > 0)
    modifies buffer
    ensures Holds(buffer[..], index, radix, total)
  {
    hide Spilling, Holds, Value, Pow;
    index := start;
    var carry: nat := overflow;
    while carry > 0
      invariant 0 < index <= buffer.Length
      invariant Spilling(buffer[..], index, radix, carry, total)
      invariant carry == 0 ==> buffer[buffer.Length - index] > 0
    {
      ghost var cells := buffer[..];
      SpillPass(cells, index, radix, carry, total);
      var position := buffer.Length - 1 - index;
      buffer[position] := carry % radix;
      assert buffer[..] == cells[position := carry % radix];
      carry := carry / radix;
      index := index + 1;
    }
    SpillEnds(buffer[..], index, radix, total);
  }

  lemma {:induction false} PassStep(
    cells: seq<int>, before: seq<int>, edge: nat, index: nat, radix: nat, scale: nat, carry: int, total: int,
    sum: int, digit: int, rest: int)
    requires 2 <= radix && Carrying(cells, before, edge, index, radix, scale, carry, total)
    requires index < |cells| - edge && InBase(before, radix)
    requires before[edge] > 0 || carry > 0
    requires sum == carry + scale * cells[|cells| - 1 - index] && digit == sum % radix && rest == sum / radix
    ensures 0 <= digit && 0 <= rest
    ensures Carrying(cells[|cells| - 1 - index := digit], before, edge, index + 1, radix, scale, rest, total)
    ensures index + 1 == |cells| - edge && rest == 0 ==> 0 < digit
  {
    var at := |cells| - 1 - index;
    assert cells[at] == cells[..at + 1][at] == before[..at + 1][at] == before[at];
    CarryingStep(cells, before, edge, index, radix, scale, carry, total, sum);
    if at == edge { PositiveSum(carry, before[edge], scale); }
    CarryOrRest(sum, radix);
  }

  lemma {:induction false} PositiveSum(carry: nat, digit: nat, scale: nat)
    requires carry < scale && (0 < digit || 0 < carry)
    ensures 0 < carry + scale * digit
  {
    if 0 < digit { MulMono(scale, scale, 1, digit); }
  }

  lemma {:induction false} DivisionShrinks(carry: int, radix: nat)
    requires 2 <= radix && 0 < carry
    ensures 0 <= carry / radix < carry
    ensures carry / radix == 0 ==> carry % radix == carry
  {
    assert carry == radix * (carry / radix) + carry % radix;
  }

  lemma {:induction false} CarryOrRest(sum: nat, radix: nat)
    requires 2 <= radix
    ensures sum / radix == 0 ==> sum % radix == sum
  {
  }

  lemma {:induction false} SpillStart(
    cells: seq<int>, before: seq<int>, edge: nat, radix: nat, scale: nat, carry: int, total: int)
    requires edge <= |cells| && Carrying(cells, before, edge, |cells| - edge, radix, scale, carry, total)
    requires forall i | 0 <= i < edge :: before[i] == 0
    ensures Spilling(cells, |cells| - edge, radix, carry, total)
  {
    assert before[edge..edge] == [];
    assert forall i | 0 <= i < edge :: cells[i] == cells[..edge][i] == before[..edge][i];
  }

  /** The old digits, read as a block of `span` cells, start a carry pass. */
  lemma {:induction false} AccumulateStart(
    before: seq<int>, length: nat, span: nat, add: nat, scale: nat, radix: nat, v: nat)
    requires 2 <= radix && add < scale && 0 < |before| && span == (if length > 1 then length else 1)
    requires Holds(before, length, radix, v)
    ensures span <= |before|
    ensures Carrying(before, before, |before| - span, 0, radix, scale, add, scale * v + add)
    ensures InBase(before, radix)
    ensures before[|before| - span] > 0 || (span == 1 && v == 0)
    ensures forall i | 0 <= i < |before| - span :: before[i] == 0
  {
    var cut := |before| - span;
    assert before[|before|..] == [];
    assert before[cut..|before| - 0] == before[cut..];
    if length == 0 {
      assert before[cut..] == [0];
    } else {
      assert forall i | cut <= i < |before| :: before[i] == before[cut..][i - cut];
      assert before[cut] == before[cut..][0];
    }
  }

  // ----- encoding and decoding -----

  function LeadingZeros(s: seq<int>): (k: nat)
    ensures k <= |s| && (forall i | 0 <= i < k :: s[i] == 0)
    ensures k < |s| ==> s[k] != 0
  {
    if s == [] || s[0] != 0 then 0 else 1 + LeadingZeros(s[1..])
  }

  function Letters(digits: seq<int>): (text: string)
    requires InBase(digits, 58)
    ensures |text| == |digits|
  {
    seq(|digits|, i requires 0 <= i < |digits| => Letter(digits[i]))
  }

  predicate OverAlphabet(text: string) {
    forall i | 0 <= i < |text| :: IndexOf(text[i]) >= 0
  }

  function Indexes(text: string): (digits: seq<int>)
    requires OverAlphabet(text)
    ensures |digits| == |text| && InBase(digits, 58)
  {
    seq(|text|, i requires 0 <= i < |text| => IndexOf(text[i]))
  }

  /** What encoding means: one `1` for each leading zero byte, then the number in base 58. */
  ghost function Encoded(data: seq<Byte>): string {
    DigitsOfCanonical(NumberOf(data), 58);
    Letters(seq(LeadingZeros(data), _ => 0) + DigitsOf(NumberOf(data), 58))
  }

  ghost function NumberOf(data: seq<Byte>): nat {
    ValueBounds(data, 256);
    Value(data, 256)
  }

  /** What decoding means; the empty string and foreign characters are refused. */
  ghost function Decoded(text: string): Result<seq<Byte>> {
    if text == "" || !OverAlphabet(text) then InvalidEncoding
    else
      var digits := Indexes(text);
      ValueBounds(digits, 58);
      DigitsOfCanonical(Value(digits, 58), 256);
      Ok(seq(LeadingZeros(digits), _ => 0) + Bytes(DigitsOf(Value(digits, 58), 256)))
  }

  function Bytes(cells: seq<int>): (data: seq<Byte>)
    requires InBase(cells, 256)
    ensures data == cells
  {
    seq(|cells|, i requires 0 <= i < |cells| => cells[i])
  }

  /** n bytes never need more than n * 138 / 100 + 1 base-58 digits. */
  lemma {:induction false} EncodeBufferSuffices(n: nat)
    ensures Pow(256, n) < Pow(58, n * 138 / 100 + 1)
  {
    assert Pow(256, 8) <= Pow(58, 11);
    PowerBound(256, 58, 8, 11, n, n * 138 / 100 + 1);
  }

  /** n base-58 digits never need more than n * 733 / 1000 + 1 bytes. */
  lemma {:induction false} DecodeBufferSuffices(n: nat)
    ensures Pow(58, n) < Pow(256, n * 733 / 1000 + 1)
  {
    assert Pow(58, 10) == 430804206899405824;
    PowMul(58, 10, 7);
    PowAdd(58, 70, 1);
    PowMul(256, 13, 4);
    assert Pow(430804206899405824, 7) * 58 <= Pow(Pow(256, 13), 4);
    PowerBound(58, 256, 71, 52, n, n * 733 / 1000 + 1);
  }

  /** Reading one more symbol of a numeral, and why the result still fits. */
  lemma {:induction false} NextSymbol(source: seq<int>, from: nat, k: nat, base: nat, radix: nat, room: nat)
    requires 2 <= base && 2 <= radix && from <= k < |source| && InBase(source, base)
    requires from < |source| ==> source[from] != 0
    requires Pow(base, |source|) < Pow(radix, room)
    ensures Value(source[from..k + 1], base) == base * Value(source[from..k], base) + source[k]
    ensures 0 <= Value(source[from..k], base)
    ensures Value(source[from..k], base) > 0 || source[k] > 0
    ensures Value(source[from..k + 1], base) < Pow(radix, room)
  {
    assert source[from..k + 1][..k - from] == source[from..k];
    if from < k { NonZero(source[from..k], base); } else { assert source[from..k] == []; }
    SliceFits(source, from, k + 1, base);
  }

  lemma {:induction false} SliceFits(source: seq<int>, from: nat, to: nat, base: nat)
    requires 2 <= base && from <= to <= |source| && InBase(source, base)
    ensures 0 <= Value(source[from..to], base) < Pow(base, |source|)
  {
    ValueBounds(source[from..to], base);
    if to - from < |source| { PowStrict(base, to - from, |source|); }
  }

  lemma {:induction false} SkipZeros(source: seq<int>, base: nat)
    ensures Value(source[LeadingZeros(source)..], base) == Value(source, base)
  {
    var k := LeadingZeros(source);
    assert source == seq(k, _ => 0) + source[k..];
    ValueDropsZeros(k, source[k..], base);
  }

  /** The outer loop shared by both directions: every symbol after the leading zeros enters the buffer in turn. */
  method Convert(source: seq<int>, zeroes: nat, room: nat, base: nat, radix: nat) returns (digits: seq<int>)
    requires 2 <= base && 2 <= radix && InBase(source, base)
    requires zeroes == LeadingZeros(source)
    requires 0 < room && Pow(base, |source|) < Pow(radix, room)
    ensures InBase(digits, radix) && 0 <= Value(source, base)
    ensures digits == DigitsOf(Value(source, base), radix)
  {
    var buffer := new int[room](_ => 0);
    var length := 0;
    assert source[zeroes..zeroes] == [];
    for k := zeroes to |source|
      invariant Holds(buffer[..], length, radix, Value(source[zeroes..k], base))
    {
      NextSymbol(source, zeroes, k, base, radix, room);
      length := Accumulate(buffer, length, source[k], base, radix, Value(source[zeroes..k], base));
    }
    digits := buffer[room - length..];
    assert source[zeroes..|source|] == source[zeroes..];
    SkipZeros(source, base);
    CanonicalUnique(digits, radix);
    assert digits == buffer[..][room - length..];
  }

  method Encode(data: seq<Byte>) returns (text: string)
    ensures text == Encoded(data)
  {
    if data == [] {
      return "";
    }
    var zeroes := LeadingZeros(data);
    EncodeBufferSuffices(|data|);
    var digits := Convert(data, zeroes, |data| * 138 / 100 + 1, 256, 58);
    text := seq(zeroes, _ => '1') + Letters(digits);
  }

  method Decode(text: string) returns (data: Result<seq<Byte>>)
    ensures data == Decoded(text)
  {
    if text == "" || !OverAlphabet(text) {
      return InvalidEncoding;
    }
    var encoded := Indexes(text);
    var zeroes := LeadingZeros(encoded);
    DecodeBufferSuffices(|encoded|);
    var bytes := Convert(encoded, zeroes, |encoded| * 733 / 1000 + 1, 58, 256);
    data := Ok(seq(zeroes, _ => 0) + Bytes(bytes));
  }

  // ----- the two directions undo each other -----

  lemma {:induction false} LeadingZerosOfPadded(k: nat, s: seq<int>)
    requires s == [] || s[0] != 0
    ensures LeadingZeros(seq(k, _ => 0) + s) == k
  {
    var z, p := LeadingZeros(seq(k, _ => 0) + s), seq(k, _ => 0) + s;
    assert forall i | 0 <= i < k :: p[i] == 0;
    assert k < |p| ==> p[k] == s[0];
  }

  lemma {:induction false} IndexesUndoLetters(digits: seq<int>)
    requires InBase(digits, 58)
    ensures OverAlphabet(Letters(digits)) && Indexes(Letters(digits)) == digits
  {
  }

  lemma {:induction false} LettersUndoIndexes(text: string)
    requires OverAlphabet(text)
    ensures Letters(Indexes(text)) == text
  {
  }

  lemma {:induction false} TailIsCanonical(s: seq<int>, base: nat, tail: seq<int>)
    requires InBase(s, base) && tail == s[LeadingZeros(s)..]
    ensures Canonical(tail, base)
  {
  }

  /** The leading zeros and the number together determine a symbol string. */
  lemma {:induction false} SplitAtZeros(s: seq<int>, base: nat)
    requires 2 <= base && InBase(s, base)
    ensures 0 <= Value(s, base)
    ensures s == seq(LeadingZeros(s), _ => 0) + DigitsOf(Value(s, base), base)
  {
    hide Value, DigitsOf, LeadingZeros;
    var k := LeadingZeros(s);
    var tail := s[k..];
    TailIsCanonical(s, base, tail);
    SkipZeros(s, base);
    CanonicalUnique(tail, base);
    assert s == seq(k, _ => 0) + tail;
  }

  /** The encoding is the one text with the same number in base 58 and as many leading `1`s as there are zero bytes. */
  lemma {:induction false} EncodedExactly(data: seq<Byte>, text: string)
    ensures Encoded(data) == text <==>
      && OverAlphabet(text) && Value(Indexes(text), 58) == Value(data, 256)
      && LeadingZeros(Indexes(text)) == LeadingZeros(data)
  {
    var k, n := LeadingZeros(data), NumberOf(data);
    DigitsOfCanonical(n, 58);
    var digits := seq(k, _ => 0) + DigitsOf(n, 58);
    IndexesUndoLetters(digits);
    LeadingZerosOfPadded(k, DigitsOf(n, 58));
    ValueDropsZeros(k, DigitsOf(n, 58), 58);
    if OverAlphabet(text) {
      LettersUndoIndexes(text);
      SplitAtZeros(Indexes(text), 58);
    }
  }

  /** Decoding gives back every non-empty byte string, and no other encoding decodes to it. */
  lemma {:induction false} DecodeEncode(data: seq<Byte>)
    ensures Decoded(Encoded(data)) == (if data == [] then InvalidEncoding else Ok(data))
  {
    var k, n := LeadingZeros(data), NumberOf(data);
    DigitsOfCanonical(n, 58);
    var digits := seq(k, _ => 0) + DigitsOf(n, 58);
    IndexesUndoLetters(digits);
    LeadingZerosOfPadded(k, DigitsOf(n, 58));
    ValueDropsZeros(k, DigitsOf(n, 58), 58);
    SplitAtZeros(data, 256);
    if data == [] { assert n == 0; }
  }

  /** Encoding gives back every text that decodes. */
  lemma {:induction false} EncodeDecode(text: string)
    requires Decoded(text).Ok?
    ensures Encoded(Decoded(text).value) == text
  {
    var digits := Indexes(text);
    LettersUndoIndexes(text);
    SplitAtZeros(digits, 58);
    var k, n := LeadingZeros(digits), Value(digits, 58);
    DigitsOfCanonical(n, 256);
    LeadingZerosOfPadded(k, DigitsOf(n, 256));
    ValueDropsZeros(k, DigitsOf(n, 256), 256);
  }

  /** Exactly the non-empty texts over the alphabet are encodings. */
  lemma {:induction false} DecodableTexts(text: string)
    ensures Decoded(text).Ok? <==> text != "" && forall c | c in text :: InAlphabet(c)
  {
    assert forall c :: InAlphabet(c) <==> IndexOf(c) >= 0 by {
      forall c | IndexOf(c) >= 0 ensures InAlphabet(c) { assert Letter(IndexOf(c)) == c; }
    }
  }

  ghost predicate InAlphabet(c: char) {
    exists i: nat | i < 58 :: Letter(i) == c
  }

  // ----- peer identifiers -----

  const IDENTITY_MULTIHASH: seq<Byte> := [0x00, 0x24]
  const PUBLIC_KEY_PREFIX: seq<Byte> := [0x08, 0x01, 0x12, 0x20]

  ghost function PeerId(rawPublicKey: seq<Byte>): Result<string> {
    if |rawPublicKey| != 32 then InvalidEncoding
    else Ok(Encoded(IDENTITY_MULTIHASH + PUBLIC_KEY_PREFIX + rawPublicKey))
  }

  ghost function PublicKey(peerId: string): Result<seq<Byte>> {
    match Decoded(peerId)
    case InvalidEncoding => InvalidEncoding
    case Ok(bytes) =>
      var expected := IDENTITY_MULTIHASH + PUBLIC_KEY_PREFIX;
      if |bytes| == |expected| + 32 && bytes[..|expected|] == expected then Ok(bytes[|expected|..]) else InvalidEncoding
  }

  method PeerIdForRawPublicKey(rawPublicKey: seq<Byte>) returns (r: Result<string>)
    ensures r == PeerId(rawPublicKey)
  {
    if |rawPublicKey| != 32 { return InvalidEncoding; }
    var text := Encode(IDENTITY_MULTIHASH + PUBLIC_KEY_PREFIX + rawPublicKey);
    return Ok(text);
  }

  method PublicKeyFromPeerId(peerId: string) returns (r: Result<seq<Byte>>)
    ensures r == PublicKey(peerId)
  {
    r := Decode(peerId);
    if r.InvalidEncoding? { return; }
    var expected := IDENTITY_MULTIHASH + PUBLIC_KEY_PREFIX;
    if |r.value| != |expected| + 32 || r.value[..|expected|] != expected { return InvalidEncoding; }
    return Ok(r.value[|expected|..]);
  }

  /** Peer identifiers and 32-byte keys correspond one to one. */
  lemma {:induction false} PeerIdsNameKeys(key: seq<Byte>, peerId: string)
    ensures PeerId(key) == Ok(peerId) <==> PublicKey(peerId) == Ok(key)
  {
    var prefix := IDENTITY_MULTIHASH + PUBLIC_KEY_PREFIX;
    if PeerId(key) == Ok(peerId) {
      DecodeEncode(prefix + key);
      assert (prefix + key)[..6] == prefix && (prefix + key)[6..] == key;
    }
    if PublicKey(peerId) == Ok(key) {
      EncodeDecode(peerId);
      var bytes := Decoded(peerId).value;
      assert bytes == bytes[..6] + bytes[6..];
    }
  }

  /** A peer identifier spells an identity multihash of 36 bytes: the key with its type and length before it. */
  lemma {:induction false} PeerIdSpells(key: seq<Byte>, peerId: string)
    ensures PeerId(key) == Ok(peerId) <==> |key| == 32 && Decoded(peerId) == Ok([0, 36, 8, 1, 18, 32] + key)
  {
    var prefix := IDENTITY_MULTIHASH + PUBLIC_KEY_PREFIX;
    assert prefix == [0, 36, 8, 1, 18, 32];
    DecodeEncode(prefix + key);
    if Decoded(peerId) == Ok(prefix + key) { EncodeDecode(peerId); }
  }
}
