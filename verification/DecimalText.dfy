/** Decimal numbers and their ECMAScript rendering (Number::toString, section 6.1.6.1.20 of ECMA-262). */
module DecimalText {
  // A finite double enters as the shortest digit text its `description` prints; arithmetic on digits is exact.

  import opened Wrappers
  import opened Radix

  // ----- digit strings -----

  predicate IsDigit(c: char) { '0' <= c <= '9' }

  predicate AllDigits(s: string) { forall i | 0 <= i < |s| :: IsDigit(s[i]) }

  function DigitValues(s: string): (ds: seq<int>)
    requires AllDigits(s)
    ensures |ds| == |s| && InBase(ds, 10)
  {
    seq(|s|, i requires 0 <= i < |s| => s[i] as int - '0' as int)
  }

  function DigitChars(ds: seq<int>): (s: string)
    requires InBase(ds, 10)
    ensures |s| == |ds| && AllDigits(s)
  {
    seq(|ds|, i requires 0 <= i < |ds| => ('0' as int + ds[i]) as char)
  }

  function NatOf(s: string): (n: nat)
    requires AllDigits(s)
  {
    ValueBounds(DigitValues(s), 10);
    Value(DigitValues(s), 10)
  }

  function NatText(n: nat): (s: string)
    ensures s != "" && AllDigits(s)
  {
    DigitsOfCanonical(n, 10);
    if n == 0 then "0" else DigitChars(DigitsOf(n, 10))
  }

  lemma {:induction false} NatTextReads(n: nat)
    ensures NatOf(NatText(n)) == n
  {
    DigitsOfCanonical(n, 10);
    if n == 0 {
      assert DigitValues("0") == [0];
    } else {
      assert DigitValues(NatText(n)) == DigitsOf(n, 10);
    }
  }

  function Zeros(k: nat): (s: string)
    ensures |s| == k && AllDigits(s)
  {
    seq(k, _ => '0')
  }

  // ----- numbers -----

  /** sign, significant digits and the position of the decimal point before them: 0.d1d2... * 10^point */
  datatype DecimalRep = Zero | Finite(negative: bool, digits: string, point: int)

  predicate Normal(d: DecimalRep) {
    d.Finite? ==> d.digits != "" && AllDigits(d.digits) && d.digits[0] != '0' && d.digits[|d.digits| - 1] != '0'
  }

  type Decimal = d: DecimalRep | Normal(d) witness Zero

  /** Section 6.1.6.1.20 of ECMA-262 with k = |digits| and n = point. */
  function Unsigned(digits: string, n: int): (text: string)
    requires digits != ""
  {
    var k := |digits|;
    if k <= n <= 21 then digits + Zeros(n - k)
    else if 0 < n <= 21 then digits[..n] + "." + digits[n..]
    else if -6 < n <= 0 then "0." + Zeros(-n) + digits
    else Scientific(digits, ExponentText(n - 1))
  }

  function ExponentText(e: int): string {
    if e >= 0 then "+" + NatText(e) else "-" + NatText(-e)
  }

  function Scientific(digits: string, exponent: string): string
    requires digits != ""
  {
    if |digits| == 1 then digits + "e" + exponent else digits[..1] + "." + digits[1..] + "e" + exponent
  }

  function EcmaText(d: Decimal): string {
    match d
    case Zero => "0"
    case Finite(negative, digits, n) => (if negative then "-" else "") + Unsigned(digits, n)
  }

  // ----- reading a number -----

  function FirstIndex(s: string, c: char, from: nat): (i: nat)
    requires from <= |s|
    ensures from <= i <= |s|
    ensures forall j | from <= j < i :: s[j] != c
    ensures i < |s| ==> s[i] == c
    decreases |s| - from
  {
    if from == |s| || s[from] == c then from else FirstIndex(s, c, from + 1)
  }

  /** Splits at the first occurrence of c. */
  function SplitAt(s: string, c: char): (string, Option<string>) {
    var i := FirstIndex(s, c, 0);
    if i == |s| then (s, None) else (s[..i], Some(s[i + 1..]))
  }

  lemma {:induction false} SplitFirst(left: string, c: char, right: string)
    requires c !in left
    ensures SplitAt(left + [c] + right, c) == (left, Some(right))
    ensures SplitAt(left, c) == (left, None)
  {
    var s := left + [c] + right;
    var i := FirstIndex(s, c, 0);
    assert s[|left|] == c;
    assert forall j | 0 <= j < |left| :: s[j] == left[j] && left[j] in left;
    assert s[..|left|] == left && s[|left| + 1..] == right;
    assert forall j | 0 <= j < |left| :: left[j] in left;
  }

  function IntOf(s: string): Option<int> {
    if s != "" && (s[0] == '+' || s[0] == '-') then
      if s[1..] != "" && AllDigits(s[1..]) then 
        var n: int := NatOf(s[1..]);
        Some(if s[0] == '-' then -n else n)
      else None
    else if s != "" && AllDigits(s) then Some(NatOf(s)) else None
  }

  /** integer [. fraction] [e exponent] */
  datatype Parts = Parts(integer: string, fraction: string, exponent: Option<int>)

  function PartsOf(raw: string): Option<Parts> {
    var (mantissa, tail) := SplitAt(raw, 'e');
    var (integer, fraction) := SplitAt(mantissa, '.');
    var frac := if fraction.Some? then fraction.value else "";
    if integer == "" || !AllDigits(integer) || !AllDigits(frac) then None
    else if tail.None? then Some(Parts(integer, frac, None))
    else match IntOf(tail.value)
      case None => None
      case Some(e) => Some(Parts(integer, frac, Some(e)))
  }

  function DropLeading(s: string): (r: string)
    ensures AllDigits(s) ==> AllDigits(r)
    ensures |r| <= |s| && (r != "" ==> r[0] != '0')
  {
    if s != "" && s[0] == '0' then DropLeading(s[1..]) else s
  }

  function DropTrailing(s: string): (r: string)
    ensures AllDigits(s) ==> AllDigits(r)
    ensures |r| <= |s| && (r != "" ==> r[0] == s[0] && r[|r| - 1] != '0')
  {
    if s != "" && s[|s| - 1] == '0' then DropTrailing(s[..|s| - 1]) else s
  }

  lemma {:induction false} DropLeadingShape(s: string)
    ensures s == Zeros(|s| - |DropLeading(s)|) + DropLeading(s)
  {
    if s != "" && s[0] == '0' {
      DropLeadingShape(s[1..]);
      assert s == "0" + s[1..];
    }
  }

  lemma {:induction false} DropTrailingShape(s: string)
    ensures s == DropTrailing(s) + Zeros(|s| - |DropTrailing(s)|)
  {
    if s != "" && s[|s| - 1] == '0' {
      DropTrailingShape(s[..|s| - 1]);
      assert s == s[..|s| - 1] + "0";
    }
  }

  /** The number 0.digits * 10^point, without superfluous zeros. */
  function Normalise(negative: bool, digits: string, point: int): Decimal
    requires AllDigits(digits)
  {
    var lead := DropLeading(digits);
    var core := DropTrailing(lead);
    if core == "" then Zero else Finite(negative, core, point - (|digits| - |lead|))
  }

  function Denotation(negative: bool, p: Parts): Decimal
    requires AllDigits(p.integer) && AllDigits(p.fraction)
  {
    Normalise(negative, p.integer + p.fraction, |p.integer| + (if p.exponent.Some? then p.exponent.value else 0))
  }

  function ParseNumber(text: string): Option<Decimal> {
    var negative := text != "" && text[0] == '-';
    match PartsOf(if negative then text[1..] else text)
    case None => None
    case Some(p) => Some(Denotation(negative, p))
  }

  // ----- the rendering reads back -----

  lemma {:induction false} DropLeadingZeros(k: nat, s: string)
    requires s != "" && s[0] != '0'
    ensures DropLeading(Zeros(k) + s) == s
  {
    if k > 0 {
      assert (Zeros(k) + s)[1..] == Zeros(k - 1) + s;
      DropLeadingZeros(k - 1, s);
    } else {
      assert Zeros(k) + s == s;
    }
  }

  lemma {:induction false} DropTrailingZeros(k: nat, s: string)
    requires s != "" && s[|s| - 1] != '0'
    ensures DropTrailing(s + Zeros(k)) == s
  {
    if k > 0 {
      assert (s + Zeros(k))[..|s| + k - 1] == s + Zeros(k - 1);
      DropTrailingZeros(k - 1, s);
    } else {
      assert s + Zeros(k) == s;
    }
  }

  lemma {:induction false} NormalisePadded(negative: bool, lead: nat, digits: string, trail: nat, point: int)
    requires digits != "" && AllDigits(digits) && digits[0] != '0' && digits[|digits| - 1] != '0'
    ensures Normalise(negative, Zeros(lead) + digits + Zeros(trail), point) == Finite(negative, digits, point - lead)
  {
    assert Zeros(lead) + digits + Zeros(trail) == Zeros(lead) + (digits + Zeros(trail));
    DropLeadingZeros(lead, digits + Zeros(trail));
    DropTrailingZeros(trail, digits);
  }

  lemma {:induction false} SplitWhole(s: string, c: char)
    requires c !in s
    ensures SplitAt(s, c) == (s, None)
  {
    SplitFirst(s, c, "");
  }

  lemma {:induction false} PartsOfPlain(integer: string, fraction: string)
    requires integer != "" && AllDigits(integer) && AllDigits(fraction)
    ensures PartsOf(integer + "." + fraction) == Some(Parts(integer, fraction, None))
    ensures PartsOf(integer) == Some(Parts(integer, "", None))
  {
    SplitWhole(integer + "." + fraction, 'e');
    SplitWhole(integer, 'e');
    SplitFirst(integer, '.', fraction);
  }

  lemma {:induction false} PartsOfScientific(integer: string, fraction: string, exponent: string)
    requires integer != "" && AllDigits(integer) && AllDigits(fraction) && IntOf(exponent).Some?
    ensures PartsOf(integer + "." + fraction + "e" + exponent) == Some(Parts(integer, fraction, IntOf(exponent)))
    ensures PartsOf(integer + "e" + exponent) == Some(Parts(integer, "", IntOf(exponent)))
  {
    var mantissa := integer + "." + fraction;
    SplitFirst(mantissa, 'e', exponent);
    SplitFirst(integer, 'e', exponent);
    SplitFirst(integer, '.', fraction);
    assert mantissa + "e" + exponent == mantissa + ['e'] + exponent;
  }

  lemma {:induction false} SignedExponent(e: int)
    ensures IntOf(ExponentText(e)) == Some(e)
  {
    hide NatOf, NatText;
    if e >= 0 {
      NatTextReads(e);
      assert ("+" + NatText(e))[1..] == NatText(e);
    } else {
      NatTextReads(-e);
      assert ("-" + NatText(-e))[1..] == NatText(-e);
    }
  }

  /** The unsigned text reads as the number, once the sign is put back. */
  ghost predicate Reads(text: string, negative: bool, d: Decimal) {
    && text != "" && text[0] != '-'
    && PartsOf(text).Some? && Denotation(negative, PartsOf(text).value) == d
  }

  lemma {:induction false} PlainReads(
    negative: bool, text: string, lead: nat, digits: string, trail: nat, integer: string, fraction: string)
    requires digits != "" && AllDigits(digits) && digits[0] != '0' && digits[|digits| - 1] != '0'
    requires integer != "" && AllDigits(integer) && AllDigits(fraction)
    requires integer + fraction == Zeros(lead) + digits + Zeros(trail)
    requires text == integer + "." + fraction || (fraction == "" && text == integer)
    ensures Reads(text, negative, Finite(negative, digits, |integer| - lead))
  {
    PartsOfPlain(integer, fraction);
    NormalisePadded(negative, lead, digits, trail, |integer|);
    assert text[0] == integer[0];
  }

  ghost predicate Significant(digits: string) {
    digits != "" && AllDigits(digits) && digits[0] != '0' && digits[|digits| - 1] != '0'
  }

  lemma {:induction false} ScientificDenotes(negative: bool, digits: string, e: int, integer: string, fraction: string)
    requires Significant(digits) && |integer| == 1 && integer + fraction == digits
    requires AllDigits(integer) && AllDigits(fraction)
    ensures Denotation(negative, Parts(integer, fraction, Some(e))) == Finite(negative, digits, e + 1)
  {
    NormalisedAlready(negative, digits, e + 1);
  }

  lemma {:induction false} NormalisedAlready(negative: bool, digits: string, point: int)
    requires Significant(digits)
    ensures Normalise(negative, digits, point) == Finite(negative, digits, point)
  {
    NormalisePadded(negative, 0, digits, 0, point);
    assert Zeros(0) + digits + Zeros(0) == digits;
  }

  lemma {:induction false} OneDigitReads(negative: bool, digits: string, e: int, exponent: string)
    requires Significant(digits) && IntOf(exponent) == Some(e) && |digits| == 1
    ensures Reads(digits + "e" + exponent, negative, Finite(negative, digits, e + 1))
  {
    assert digits + "" == digits;
    ScientificDenotes(negative, digits, e, digits, "");
    PartsOfScientific(digits, "", exponent);
    assert (digits + "e" + exponent)[0] == digits[0];
  }

  lemma {:induction false} ManyDigitsRead(
    negative: bool, digits: string, e: int, exponent: string, integer: string, fraction: string)
    requires Significant(digits) && IntOf(exponent) == Some(e) && |integer| == 1 && integer + fraction == digits
    requires AllDigits(integer) && AllDigits(fraction)
    ensures Reads(integer + "." + fraction + "e" + exponent, negative, Finite(negative, digits, e + 1))
  {
    ScientificDenotes(negative, digits, e, integer, fraction);
    PartsOfScientific(integer, fraction, exponent);
    assert (integer + "." + fraction + "e" + exponent)[0] == integer[0];
  }

  lemma {:induction false} ScientificReads(negative: bool, digits: string, e: int, exponent: string)
    requires Significant(digits) && IntOf(exponent) == Some(e)
    ensures Reads(Scientific(digits, exponent), negative, Finite(negative, digits, e + 1))
  {
    if |digits| == 1 {
      OneDigitReads(negative, digits, e, exponent);
    } else {
      assert digits[..1] + digits[1..] == digits;
      ManyDigitsRead(negative, digits, e, exponent, digits[..1], digits[1..]);
    }
  }

  lemma {:induction false} IntegerReads(negative: bool, digits: string, n: nat, text: string)
    requires Significant(digits) && |digits| <= n && text == digits + Zeros(n - |digits|)
    ensures Reads(text, negative, Finite(negative, digits, n))
  {
    var trail := n - |digits|;
    assert text + "" == Zeros(0) + digits + Zeros(trail);
    PlainReads(negative, text, 0, digits, trail, text, "");
  }

  lemma {:induction false} PointReads(negative: bool, digits: string, n: nat, text: string)
    requires Significant(digits) && 0 < n < |digits| && text == digits[..n] + "." + digits[n..]
    ensures Reads(text, negative, Finite(negative, digits, n))
  {
    assert digits[..n] + digits[n..] == Zeros(0) + digits + Zeros(0);
    PlainReads(negative, text, 0, digits, 0, digits[..n], digits[n..]);
  }

  lemma {:induction false} SmallReads(negative: bool, digits: string, n: int, text: string)
    requires Significant(digits) && n <= 0 && text == "0." + Zeros(-n) + digits
    ensures Reads(text, negative, Finite(negative, digits, n))
  {
    assert "0" + (Zeros(-n) + digits) == Zeros(1 - n) + digits + Zeros(0);
    assert text == "0" + "." + (Zeros(-n) + digits);
    PlainReads(negative, text, 1 - n, digits, 0, "0", Zeros(-n) + digits);
  }

  lemma {:induction false} ExponentReads(negative: bool, digits: string, n: int, text: string)
    requires Significant(digits) && text == Scientific(digits, ExponentText(n - 1))
    ensures Reads(text, negative, Finite(negative, digits, n))
  {
    SignedExponent(n - 1);
    ScientificReads(negative, digits, n - 1, ExponentText(n - 1));
  }

  lemma {:induction false} UnsignedReads(negative: bool, digits: string, n: int)
    requires Significant(digits)
    ensures Reads(Unsigned(digits, n), negative, Finite(negative, digits, n))
  {
    var text := Unsigned(digits, n);
    if |digits| <= n <= 21 {
      IntegerReads(negative, digits, n, text);
    } else if 0 < n <= 21 {
      PointReads(negative, digits, n, text);
    } else if -6 < n <= 0 {
      SmallReads(negative, digits, n, text);
    } else {
      ExponentReads(negative, digits, n, text);
    }
  }

  lemma {:induction false} SignedReads(negative: bool, text: string, d: Decimal)
    requires Reads(text, negative, d)
    ensures ParseNumber((if negative then "-" else "") + text) == Some(d)
  {
    if negative { assert ("-" + text)[1..] == text; } else { assert "" + text == text; }
  }

  /** Reading a rendered number gives the number back, whichever of the four forms was chosen. */
  lemma {:induction false} EcmaTextReads(d: Decimal)
    ensures ParseNumber(EcmaText(d)) == Some(d)
  {
    match d
    case Zero =>
      ZeroReads();
    case Finite(negative, digits, n) =>
      UnsignedReads(negative, digits, n);
      SignedReads(negative, Unsigned(digits, n), d);
  }

  lemma {:induction false} ZeroReads()
    ensures ParseNumber("0") == Some(Zero)
  {
    PartsOfPlain("0", "");
    ZeroDenotes(Parts("0", "", None));
  }

  lemma {:induction false} ZeroDenotes(p: Parts)
    requires p == Parts("0", "", None)
    ensures Denotation(false, p) == Zero
  {
    assert p.integer + p.fraction == "0";
    assert DropLeading("0") == "" by { assert "0"[1..] == ""; }
  }

  // ----- re-rendering a platform number -----

  /** What `Double.description` prints: plain or scientific, with a non-zero lead digit before an exponent. */
  predicate WellFormedRaw(raw: string) {
    && PartsOf(raw).Some?
    && (PartsOf(raw).value.exponent.Some? ==> PartsOf(raw).value.integer[0] != '0')
  }

  lemma {:induction false} DropLeadingOfConcat(a: string, b: string)
    ensures DropLeading(a) != "" ==> DropLeading(a + b) == DropLeading(a) + b
    ensures DropLeading(a) == "" ==> DropLeading(a + b) == DropLeading(b)
  {
    if a == "" {
      assert a + b == b;
    } else if a[0] == '0' {
      assert (a + b)[1..] == a[1..] + b;
      DropLeadingOfConcat(a[1..], b);
    } else {
      assert (a + b)[0] == a[0];
    }
  }

  /** The significant digits before trimming and the decimal exponent of the first of them, if the number is not 0. */
  method LeadingDigits(parts: Parts) returns (digits: string, exponent: int)
    requires AllDigits(parts.integer) && AllDigits(parts.fraction)
    requires parts.exponent.Some? ==> parts.integer != "" && parts.integer[0] != '0'
    ensures digits == DropLeading(parts.integer + parts.fraction)
    ensures digits != "" ==>
      exponent + 1 == |parts.integer| + (if parts.exponent.Some? then parts.exponent.value else 0)
                      - (|parts.integer + parts.fraction| - |digits|)
  {
    var Parts(integer, fraction, explicitExponent) := parts;
    DropLeadingOfConcat(integer, fraction);
    if explicitExponent.Some? {
      digits := integer + fraction;
      exponent := explicitExponent.value + |integer| - 1;
    } else if DropLeading(integer) != "" {
      var significantInteger := DropLeading(integer);
      digits := significantInteger + fraction;
      exponent := |significantInteger| - 1;
    } else if DropLeading(fraction) != "" {
      digits := DropLeading(fraction);
      exponent := -(|fraction| - |digits| + 1);
    } else {
      digits, exponent := "", 0;
    }
  }

  method TrimZeros(lead: string) returns (digits: string)
    requires lead != "" && lead[0] != '0'
    ensures digits != "" && digits == DropTrailing(lead)
  {
    digits := lead;
    while digits[|digits| - 1] == '0'
      invariant digits != "" && digits[0] != '0'
      invariant DropTrailing(digits) == DropTrailing(lead)
      decreases |digits|
    {
      digits := digits[..|digits| - 1];
    }
  }

  /** Re-renders the platform's shortest digits with ECMAScript's thresholds. */
  method EcmaScriptNumber(negative: bool, raw: string) returns (text: string)
    requires WellFormedRaw(raw)
    ensures text == EcmaText(Denotation(negative, PartsOf(raw).value))
  {
    var parts := PartsOf(raw).value;
    var digits, exponent := LeadingDigits(parts);
    if digits == "" {
      return "0";
    }
    ghost var lead := digits;
    digits := TrimZeros(digits);
    var unsigned := RenderDigits(digits, exponent);
    text := if negative then "-" + unsigned else unsigned;
    RenderedText(negative, parts, lead, digits, exponent + 1, text);
  }

  lemma {:induction false} RenderedText(
    negative: bool, p: Parts, lead: string, digits: string, n: int, text: string)
    requires AllDigits(p.integer) && AllDigits(p.fraction)
    requires lead == DropLeading(p.integer + p.fraction) && lead != ""
    requires digits != "" && digits == DropTrailing(lead)
    requires n == |p.integer| + (if p.exponent.Some? then p.exponent.value else 0) - (|p.integer + p.fraction| - |lead|)
    requires text == (if negative then "-" + Unsigned(digits, n) else Unsigned(digits, n))
    ensures text == EcmaText(Denotation(negative, p))
  {
    assert Denotation(negative, p) == Finite(negative, digits, n);
    assert "" + Unsigned(digits, n) == Unsigned(digits, n);
  }

  method RenderDigits(digits: string, exponent: int) returns (unsigned: string)
    requires digits != ""
    ensures unsigned == Unsigned(digits, exponent + 1)
  {
    var n, k := exponent + 1, |digits|;
    if k <= n && n <= 21 {
      unsigned := digits + Zeros(n - k);
    } else if 0 < n && n <= 21 {
      unsigned := digits[..n] + "." + digits[n..];
    } else if -6 < n && n <= 0 {
      unsigned := "0." + Zeros(-n) + digits;
    } else {
      unsigned := RenderScientific(digits, n - 1);
    }
  }

  method RenderScientific(digits: string, scientificExponent: int) returns (unsigned: string)
    requires digits != ""
    ensures unsigned == Scientific(digits, ExponentText(scientificExponent))
  {
    var tail := digits[1..];
    var coefficient := if tail == "" then digits[..1] else digits[..1] + "." + tail;
    var sign := if scientificExponent >= 0 then "+" else "-";
    var exponent := sign + NatText(if scientificExponent >= 0 then scientificExponent else -scientificExponent);
    if tail == "" { assert digits[..1] == digits; }
    unsigned := coefficient + "e" + exponent;
  }
}
