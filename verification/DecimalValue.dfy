/** The rational number behind a decimal text, and that re-rendering never changes it. */
module DecimalValue {
  import opened Wrappers
  import opened Radix
  import opened DecimalText

  function Ten(e: int): real
    decreases if e < 0 then -e else e
  {
    if e == 0 then 1.0 else if e > 0 then 10.0 * Ten(e - 1) else Ten(e + 1) / 10.0
  }

  /** digits * 10^scale */
  function Magnitude(digits: string, scale: int): real
    requires AllDigits(digits)
  {
    NatOf(digits) as real * Ten(scale)
  }

  function Signed(negative: bool, magnitude: real): real {
    if negative then -magnitude else magnitude
  }

  /** The value of integer.fraction e exponent, read off the text. */
  function PartsValue(negative: bool, p: Parts): real
    requires AllDigits(p.integer) && AllDigits(p.fraction)
  {
    var e := if p.exponent.Some? then p.exponent.value else 0;
    Signed(negative, Magnitude(p.integer + p.fraction, e - |p.fraction|))
  }

  function TextValue(text: string): Option<real> {
    var negative := text != "" && text[0] == '-';
    match PartsOf(if negative then text[1..] else text)
    case None => None
    case Some(p) => Some(PartsValue(negative, p))
  }

  function ValueOf(d: Decimal): real {
    match d
    case Zero => 0.0
    case Finite(negative, digits, n) => Signed(negative, Magnitude(digits, n - |digits|))
  }

  lemma {:induction false} LeadingZerosKeepNumber(k: nat, s: string)
    requires AllDigits(s)
    ensures NatOf(Zeros(k) + s) == NatOf(s)
  {
    assert DigitValues(Zeros(k) + s) == seq(k, _ => 0) + DigitValues(s);
    ValueDropsZeros(k, DigitValues(s), 10);
  }

  lemma {:induction false} TrailingZero(s: string, scale: int)
    requires AllDigits(s)
    ensures Magnitude(s + "0", scale) == Magnitude(s, scale + 1)
  {
    assert DigitValues(s + "0")[..|s|] == DigitValues(s);
    assert NatOf(s + "0") == NatOf(s) * 10;
    assert Ten(scale + 1) == 10.0 * Ten(scale);
    Shift(NatOf(s) as real, Ten(scale));
  }

  lemma {:induction false} Shift(n: real, t: real)
    ensures (n * 10.0) * t == n * (10.0 * t)
  {
  }

  lemma {:induction false} TrailingZeros(s: string, k: nat, scale: int)
    requires AllDigits(s)
    ensures Magnitude(s + Zeros(k), scale) == Magnitude(s, scale + k)
    decreases k
  {
    hide Ten, Magnitude;
    if k == 0 {
      assert s + Zeros(0) == s;
    } else {
      assert s + Zeros(k) == (s + Zeros(k - 1)) + "0";
      TrailingZero(s + Zeros(k - 1), scale);
      TrailingZeros(s, k - 1, scale + 1);
    }
  }

  lemma {:induction false} PaddingKeepsMagnitude(digits: string, lead: string, core: string, scale: int, coreScale: int)
    requires AllDigits(digits) && AllDigits(lead) && AllDigits(core)
    requires |core| <= |lead| <= |digits| && coreScale == scale + |lead| - |core|
    requires digits == Zeros(|digits| - |lead|) + lead && lead == core + Zeros(|lead| - |core|)
    ensures Magnitude(digits, scale) == Magnitude(core, coreScale)
  {
    hide Ten;
    LeadingZerosKeepNumber(|digits| - |lead|, lead);
    TrailingZeros(core, |lead| - |core|, scale);
  }

  lemma {:induction false} NormalisedValue(negative: bool, core: string, scale: int, d: Decimal)
    requires AllDigits(core) && d == if core == "" then Zero else Finite(negative, core, scale + |core|)
    ensures ValueOf(d) == Signed(negative, Magnitude(core, scale))
  {
    hide Ten, Magnitude;
    EmptyIsZero(scale);
  }

  lemma {:induction false} CoreKeepsMagnitude(digits: string, lead: string, core: string, scale: int, coreScale: int)
    requires AllDigits(digits) && lead == DropLeading(digits) && core == DropTrailing(lead)
    requires coreScale == scale + |lead| - |core|
    ensures Magnitude(digits, scale) == Magnitude(core, coreScale)
  {
    hide Ten, Magnitude, DropLeading, DropTrailing;
    DropLeadingShape(digits);
    DropTrailingShape(lead);
    PaddingKeepsMagnitude(digits, lead, core, scale, coreScale);
  }

  lemma {:induction false} NormaliseKeepsMagnitude(negative: bool, digits: string, point: int)
    requires AllDigits(digits)
    ensures ValueOf(Normalise(negative, digits, point)) == Signed(negative, Magnitude(digits, point - |digits|))
  {
    hide Ten, Magnitude;
    var lead := DropLeading(digits);
    var core := DropTrailing(lead);
    var scale := point - |digits| + |lead| - |core|;
    CoreKeepsMagnitude(digits, lead, core, point - |digits|, scale);
    NormalisedValue(negative, core, scale, Normalise(negative, digits, point));
  }

  lemma {:induction false} EmptyIsZero(scale: int)
    ensures Magnitude("", scale) == 0.0
  {
    assert DigitValues("") == [];
  }

  /** The normalised number has the value of the text. */
  lemma {:induction false} DenotationKeepsValue(negative: bool, p: Parts)
    requires AllDigits(p.integer) && AllDigits(p.fraction)
    ensures ValueOf(Denotation(negative, p)) == PartsValue(negative, p)
  {
    hide Ten, Magnitude;
    var e := if p.exponent.Some? then p.exponent.value else 0;
    var digits := p.integer + p.fraction;
    NormaliseKeepsMagnitude(negative, digits, |p.integer| + e);
    assert |p.integer| + e - |digits| == e - |p.fraction|;
  }

  lemma {:induction false} ReadValue(negative: bool, unsigned: string, d: Decimal, text: string)
    requires Reads(unsigned, negative, d) && text == (if negative then "-" else "") + unsigned
    ensures TextValue(text) == Some(ValueOf(d))
  {
    hide Ten, Magnitude;
    DenotationKeepsValue(negative, PartsOf(unsigned).value);
    if negative { assert text[1..] == unsigned; } else { assert text == unsigned; }
  }

  lemma {:induction false} EcmaTextValue(d: Decimal)
    ensures TextValue(EcmaText(d)) == Some(ValueOf(d))
  {
    hide Ten, Magnitude;
    match d
    case Zero =>
      PartsOfPlain("0", "");
      ZeroDenotes(Parts("0", "", None));
      DenotationKeepsValue(false, Parts("0", "", None));
    case Finite(negative, digits, n) =>
      UnsignedReads(negative, digits, n);
      ReadValue(negative, Unsigned(digits, n), d, EcmaText(d));
  }

  /** Re-rendering a platform number gives a text of exactly the same value, which reads as the same number. */
  lemma {:induction false} RerenderingIsExact(negative: bool, raw: string)
    requires WellFormedRaw(raw)
    ensures var p := PartsOf(raw).value;
            var text := EcmaText(Denotation(negative, p));
            TextValue(text) == Some(PartsValue(negative, p)) && ParseNumber(text) == Some(Denotation(negative, p))
  {
    hide Ten, Magnitude;
    var p := PartsOf(raw).value;
    EcmaTextReads(Denotation(negative, p));
    EcmaTextValue(Denotation(negative, p));
    DenotationKeepsValue(negative, p);
  }

  lemma {:induction false} TenPositive(e: int)
    ensures 0.0 < Ten(e)
    decreases if e < 0 then -e else e
  {
    if e > 0 { TenPositive(e - 1); } else if e < 0 { TenPositive(e + 1); }
  }

  lemma {:induction false} CancelFactor(x: real, y: real, t: real)
    requires x * t == y * t && 0.0 < t
    ensures x == y
  {
    assert (x - y) * t == 0.0;
  }

  lemma {:induction false} ProductPositive(x: real, t: real)
    requires 0.0 < x && 0.0 < t
    ensures 0.0 < x * t
  {
  }

  lemma {:induction false} DigitsDetermined(a: string, b: string)
    requires AllDigits(a) && a != "" && a[0] != '0' && AllDigits(b) && b != "" && b[0] != '0'
    requires NatOf(a) == NatOf(b)
    ensures a == b
  {
    var u, v := DigitValues(a), DigitValues(b);
    CanonicalUnique(u, 10);
    CanonicalUnique(v, 10);
    forall i | 0 <= i < |a| ensures a[i] == b[i] {
      assert u[i] == v[i];
    }
  }

  lemma {:induction false} SignificantMagnitude(digits: string, scale: int)
    requires Significant(digits)
    ensures 0.0 < Magnitude(digits, scale)
  {
    hide Ten;
    NonZero(DigitValues(digits), 10);
    TenPositive(scale);
    ProductPositive(NatOf(digits) as real, Ten(scale));
  }

  lemma {:induction false} SameScale(a: string, b: string, scale: int)
    requires AllDigits(a) && AllDigits(b) && Magnitude(a, scale) == Magnitude(b, scale)
    ensures NatOf(a) == NatOf(b)
  {
    hide Ten;
    TenPositive(scale);
    CancelFactor(NatOf(a) as real, NatOf(b) as real, Ten(scale));
  }

  /** Without zeros at either end the digits and their scale are determined by the number they denote. */
  lemma {:induction false} MagnitudeDetermines(a: string, s: int, b: string, t: int)
    requires Significant(a) && Significant(b) && Magnitude(a, s) == Magnitude(b, t)
    ensures a == b && s == t
    decreases t - s
  {
    hide Ten, Magnitude;
    if s < t {
      MagnitudeDetermines(b, t, a, s);
    } else {
      TrailingZeros(a, s - t, t);
      SameScale(a + Zeros(s - t), b, t);
      DigitsDetermined(a + Zeros(s - t), b);
    }
  }

  /** A decimal is determined by its value. */
  lemma {:induction false} ValueDetermines(d1: Decimal, d2: Decimal)
    ensures ValueOf(d1) == ValueOf(d2) <==> d1 == d2
  {
    hide Ten, Magnitude;
    if d1.Finite? { SignificantMagnitude(d1.digits, d1.point - |d1.digits|); }
    if d2.Finite? { SignificantMagnitude(d2.digits, d2.point - |d2.digits|); }
    if ValueOf(d1) == ValueOf(d2) && d1.Finite? && d2.Finite? {
      MagnitudeDetermines(d1.digits, d1.point - |d1.digits|, d2.digits, d2.point - |d2.digits|);
    }
  }

  /** Two plain or scientific texts of the same number render identically, and only those do. */
  lemma {:induction false} RenderingIsCanonical(negative1: bool, raw1: string, negative2: bool, raw2: string)
    requires WellFormedRaw(raw1) && WellFormedRaw(raw2)
    ensures var p1, p2 := PartsOf(raw1).value, PartsOf(raw2).value;
            EcmaText(Denotation(negative1, p1)) == EcmaText(Denotation(negative2, p2)) <==>
            PartsValue(negative1, p1) == PartsValue(negative2, p2)
  {
    hide Ten, Magnitude;
    var p1, p2 := PartsOf(raw1).value, PartsOf(raw2).value;
    DenotationKeepsValue(negative1, p1);
    DenotationKeepsValue(negative2, p2);
    ValueDetermines(Denotation(negative1, p1), Denotation(negative2, p2));
    EcmaTextReads(Denotation(negative1, p1));
    EcmaTextReads(Denotation(negative2, p2));
  }
}
