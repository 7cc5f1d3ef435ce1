/** UTF-8 text, the bytes that are signed and hashed. */
module Utf8 {
  import Utf16

  type Byte = b: int | 0 <= b < 256
  type Bytes = seq<Byte>

  /** The bytes of one code point. */
  function PointBytes(n: nat): (bytes: Bytes)
    requires n < 0x11_0000
    ensures 1 <= |bytes| <= 4
  {
    if n < 0x80 then [n]
    else if n < 0x800 then [0xC0 + n / 0x40, 0x80 + n % 0x40]
    else if n < 0x1_0000 then [0xE0 + n / 0x1000, 0x80 + n / 0x40 % 0x40, 0x80 + n % 0x40]
    else [0xF0 + n / 0x4_0000, 0x80 + n / 0x1000 % 0x40, 0x80 + n / 0x40 % 0x40, 0x80 + n % 0x40]
  }

  function Encode(s: string): Bytes {
    if s == "" then [] else PointBytes(s[0] as int) + Encode(s[1..])
  }

  lemma {:induction false} ThreeDigits(n: nat)
    ensures n == (n / 0x1000) * 0x1000 + (n / 0x40 % 0x40) * 0x40 + n % 0x40
  {
    assert n / 0x40 / 0x40 == n / 0x1000;
  }

  lemma {:induction false} FourDigits(n: nat)
    ensures n == (n / 0x4_0000) * 0x4_0000 + (n / 0x1000 % 0x40) * 0x1000 + (n / 0x40 % 0x40) * 0x40 + n % 0x40
  {
    ThreeDigits(n);
    assert n / 0x1000 / 0x40 == n / 0x4_0000;
  }

  /** One to four bytes, as few as the number needs: the first tells how many, the others carry six bits each. */
  lemma {:induction false} PointBytesSpell(n: nat)
    requires n < 0x11_0000
    ensures var b := PointBytes(n);
      var w: int, x: int, y: int, z: int := b[0], if |b| > 1 then b[1] else 128, if |b| > 2 then b[2] else 128,
        if |b| > 3 then b[3] else 128;
      && 128 <= x < 192 && 128 <= y < 192 && 128 <= z < 192
      && match |b|
         case 1 => n < 128 && w == n
         case 2 => 128 <= n < 2048 && n == (w - 192) * 64 + (x - 128)
         case 3 => 2048 <= n < 65536 && n == ((w - 224) * 64 + (x - 128)) * 64 + (y - 128)
         case _ => 65536 <= n && n == (((w - 240) * 64 + (x - 128)) * 64 + (y - 128)) * 64 + (z - 128)
  {
    ThreeDigits(n);
    FourDigits(n);
  }

  lemma {:induction false} PointBytesInjective(m: nat, n: nat)
    requires m < 0x11_0000 && n < 0x11_0000 && PointBytes(m) == PointBytes(n)
    ensures m == n
  {
    var x, y := PointBytes(m), PointBytes(n);
    assert |x| == |y|;
    assert forall i | 0 <= i < |x| :: x[i] == y[i];
    if |x| == 3 { ThreeDigits(m); ThreeDigits(n); }
    if |x| == 4 { FourDigits(m); FourDigits(n); }
  }

  /** How long one code point is shows from its first byte. */
  lemma {:induction false} FirstByteTells(m: nat, n: nat, x: Bytes, y: Bytes)
    requires m < 0x11_0000 && n < 0x11_0000 && PointBytes(m) + x == PointBytes(n) + y
    ensures |PointBytes(m)| == |PointBytes(n)|
  {
    assert (PointBytes(m) + x)[0] == PointBytes(m)[0] && (PointBytes(n) + y)[0] == PointBytes(n)[0];
  }

  lemma {:induction false} EncodeInjective(a: string, b: string)
    requires Encode(a) == Encode(b)
    ensures a == b
  {
    if a == "" || b == "" {
    } else {
      var x, y := Encode(a[1..]), Encode(b[1..]);
      var p, q := PointBytes(a[0] as int), PointBytes(b[0] as int);
      FirstByteTells(a[0] as int, b[0] as int, x, y);
      assert (p + x)[..|p|] == p && (p + x)[|p|..] == x;
      assert (q + y)[..|q|] == q && (q + y)[|q|..] == y;
      PointBytesInjective(a[0] as int, b[0] as int);
      EncodeInjective(a[1..], b[1..]);
      assert a == [a[0]] + a[1..] && b == [b[0]] + b[1..];
    }
  }

  // ----- from UTF-16 -----

  function Joined(lead: int, trail: int): (n: nat)
    requires Utf16.IsLead(lead) && Utf16.IsTrail(trail)
    ensures n < 0x11_0000
  {
    0x1_0000 + (lead - 0xD800) * 0x400 + (trail - 0xDC00)
  }

  /** What the laptop writes for its strings: pairs join, and a lone surrogate becomes U+FFFD. */
  function OfUnits(units: seq<Utf16.CodeUnit>): Bytes {
    if units == [] then []
    else if Utf16.IsLead(units[0]) && |units| > 1 && Utf16.IsTrail(units[1]) then
      PointBytes(Joined(units[0], units[1])) + OfUnits(units[2..])
    else if Utf16.IsLead(units[0]) || Utf16.IsTrail(units[0]) then PointBytes(0xFFFD) + OfUnits(units[1..])
    else PointBytes(units[0]) + OfUnits(units[1..])
  }

  lemma {:induction false} UnitsDecode(c: char, rest: seq<Utf16.CodeUnit>)
    ensures OfUnits(Utf16.Units(c) + rest) == PointBytes(c as int) + OfUnits(rest)
  {
    var units := Utf16.Units(c);
    var all := units + rest;
    if |units| == 1 {
      assert all[1..] == rest;
    } else {
      assert all[2..] == rest;
      var n := c as int - 0x1_0000;
      assert n == n / 0x400 * 0x400 + n % 0x400;
    }
  }

  /** Well-formed UTF-16 converts to the UTF-8 of the same string. */
  lemma {:induction false} OfUnitsEncodes(s: string)
    ensures OfUnits(Utf16.Encode(s)) == Encode(s)
  {
    if s != "" {
      UnitsDecode(s[0], Utf16.Encode(s[1..]));
      OfUnitsEncodes(s[1..]);
    }
  }
}
