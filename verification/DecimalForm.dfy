/** Which text section 6.1.6.1.20 of ECMA-262 prescribes for a value, and that the rendering is that text. */
module DecimalForm {
  import opened Radix
  import opened DecimalText
  import opened DecimalValue

  // ----- the two forms, told from the value -----

  function Absolute(v: real): real { if v < 0.0 then -v else v }

  /** 10^21 and above, and below 10^-6, where exponents begin. */
  predicate NeedsExponent(m: real) {
    m >= 1_000_000_000_000_000_000_000.0 || 0.0 < m < 0.000001
  }

  /** The integer part without superfluous zeros, and the fraction, if there is any, without a zero at its end. */
  ghost predicate PlainForm(m: real, text: string) {
    0.0 <= m && exists fraction ::
      && text == NatText(m.Floor) + (if fraction == "" then "" else "." + fraction)
      && AllDigits(fraction) && (fraction != "" ==> fraction[|fraction| - 1] != '0')
      && (fraction == "" <==> m == m.Floor as real)
  }

  /** One non-zero digit, the other digits without a zero at their end, and the exponent with its sign. */
  predicate IsScientific(text: string, first: char, rest: string, e: int) {
    && '1' <= first <= '9' && AllDigits(rest) && (rest != "" ==> rest[|rest| - 1] != '0')
    && text == [first] + (if rest == "" then "" else "." + rest) + "e" +
         (if e >= 0 then "+" + NatText(e) else "-" + NatText(-e))
  }

  /** The exponent is that of the first digit. */
  ghost predicate ExponentForm(m: real, text: string) {
    exists first, rest, e :: IsScientific(text, first, rest, e) && Ten(e) <= m < Ten(e + 1)
  }

  ghost predicate FormOf(m: real, text: string) {
    if NeedsExponent(m) then ExponentForm(m, text) else PlainForm(m, text)
  }

  // ----- powers of ten -----

  lemma {:induction false} MoveTen(x: real, y: real)
    ensures x * (10.0 * y) == 10.0 * (x * y)
  {
  }

  lemma {:induction false} BothTenfold(x: real, y: real, tenY: real, product: real, tenProduct: real)
    requires tenY == 10.0 * y && tenProduct == 10.0 * product
    ensures product == x * y <==> tenProduct == x * tenY
  {
    MoveTen(x, y);
  }

  lemma {:induction false} TenUp(e: int)
    ensures Ten(e + 1) == 10.0 * Ten(e)
  {
  }

  /** Whatever grows tenfold with each step turns sums into products. */
  lemma {:induction false} PowersAdd(power: int -> real, a: int, b: int)
    requires power(0) == 1.0 && forall e, f | f == e + 1 :: power(f) == 10.0 * power(e)
    ensures power(a + b) == power(a) * power(b)
    decreases if b < 0 then -b else b
  {
    if b > 0 {
      PowersAdd(power, a, b - 1);
      BothTenfold(power(a), power(b - 1), power(b), power(a + (b - 1)), power(a + b));
    } else if b < 0 {
      PowersAdd(power, a, b + 1);
      BothTenfold(power(a), power(b), power(b + 1), power(a + b), power(a + (b + 1)));
    }
  }

  lemma {:induction false} PowersProduct(power: int -> real, a: int, b: int, x: real, y: real, product: real)
    requires power(0) == 1.0 && forall e, f | f == e + 1 :: power(f) == 10.0 * power(e)
    requires x == power(a) && y == power(b) && product == power(a + b)
    ensures product == x * y
  {
    PowersAdd(power, a, b);
  }

  lemma {:induction false} TenIsTenfold()
    ensures Ten(0) == 1.0 && forall e, f | f == e + 1 :: Ten(f) == 10.0 * Ten(e)
  {
    forall e, f | f == e + 1 ensures Ten(f) == 10.0 * Ten(e) { TenUp(e); }
  }

  lemma {:induction false} TenAdd(a: int, b: int)
    ensures Ten(a + b) == Ten(a) * Ten(b)
  {
    hide Ten;
    TenIsTenfold();
    PowersProduct(Ten, a, b, Ten(a), Ten(b), Ten(a + b));
  }

  lemma {:induction false} TenSum(a: int, b: int, c: int)
    requires a + b == c
    ensures Ten(c) == Ten(a) * Ten(b)
  {
    hide Ten;
    TenAdd(a, b);
  }

  lemma {:induction false} TenRises(a: int, b: int)
    requires a <= b
    ensures 0.0 < Ten(a) <= Ten(b)
    decreases b - a
  {
    hide Ten;
    TenPositive(a);
    if a < b {
      TenUp(a);
      TenRises(a + 1, b);
    }
  }

  lemma {:induction false} TenIsPower(k: nat)
    ensures Ten(k) == Pow(10, k) as real
  {
    if k > 0 { TenIsPower(k - 1); }
  }

  lemma {:induction false} Thresholds()
    ensures Ten(21) == 1_000_000_000_000_000_000_000.0 && Ten(-6) == 0.000001 && Ten(0) == 1.0
  {
    assert Ten(3) == 1_000.0 && Ten(-3) == 0.001;
    TenAdd(3, 3);
    TenAdd(6, 6);
    TenAdd(12, 6);
    TenAdd(18, 3);
    TenAdd(-3, -3);
  }

  // ----- digits and their number -----

  lemma {:induction false} DigitsBetween(digits: string)
    requires digits != "" && AllDigits(digits) && digits[0] != '0'
    ensures Ten(|digits| - 1) <= NatOf(digits) as real < Ten(|digits|)
  {
    hide Ten, Pow;
    LeadingPlace(DigitValues(digits), 10);
    ValueBounds(DigitValues(digits), 10);
    TenIsPower(|digits| - 1);
    TenIsPower(|digits|);
  }

  lemma {:induction false} Mono(a: real, b: real, t: real, at: real, bt: real)
    requires at == a * t && bt == b * t && 0.0 < t
    ensures a <= b ==> at <= bt
    ensures a < b ==> at < bt
  {
    if a < b { ProductPositive(b - a, t); }
  }

  lemma {:induction false} TimesTen(digits: string, scale: int)
    requires AllDigits(digits)
    ensures Magnitude(digits, scale + 1) == 10.0 * Magnitude(digits, scale)
  {
    hide Ten;
    TenUp(scale);
    MoveTen(NatOf(digits) as real, Ten(scale));
  }

  lemma {:induction false} UnitMagnitude(digits: string)
    requires AllDigits(digits)
    ensures Magnitude(digits, 0) == NatOf(digits) as real
  {
  }

  lemma {:induction false} ScaledBetween(digits: string, scale: int)
    requires Significant(digits)
    ensures Ten(|digits| + scale - 1) <= Magnitude(digits, scale) < Ten(|digits| + scale)
    decreases if scale < 0 then -scale else scale
  {
    hide Ten, Magnitude;
    if scale == 0 {
      UnitMagnitude(digits);
      DigitsBetween(digits);
    } else {
      var before := if scale > 0 then scale - 1 else scale + 1;
      var lower := if scale > 0 then before else scale;
      ScaledBetween(digits, before);
      TimesTen(digits, lower);
      TenUp(|digits| + lower - 1);
      TenUp(|digits| + lower);
    }
  }

  /** A decimal lies between the powers of ten around its first digit. */
  lemma {:induction false} MagnitudeBetween(digits: string, n: int)
    requires Significant(digits)
    ensures Ten(n - 1) <= Magnitude(digits, n - |digits|) < Ten(n)
  {
    hide Ten, Magnitude;
    ScaledBetween(digits, n - |digits|);
  }

  /** Digits without a superfluous zero are the text of their number. */
  lemma {:induction false} DigitsAreText(digits: string)
    requires digits != "" && AllDigits(digits) && digits[0] != '0'
    ensures NatText(NatOf(digits)) == digits
  {
    var ds := DigitValues(digits);
    CanonicalUnique(ds, 10);
    NonZero(ds, 10);
    assert DigitChars(ds) == digits;
  }

  lemma {:induction false} SplitNumber(a: string, b: string)
    requires AllDigits(a) && AllDigits(b)
    ensures NatOf(a + b) == NatOf(a) * Pow(10, |b|) + NatOf(b)
  {
    assert DigitValues(a + b) == DigitValues(a) + DigitValues(b);
    ValueConcat(DigitValues(a), DigitValues(b), 10);
  }

  lemma {:induction false} LastDigitCounts(b: string)
    requires AllDigits(b) && b != "" && b[|b| - 1] != '0'
    ensures 0 < NatOf(b)
  {
    var ds := DigitValues(b);
    ValueBounds(ds[..|b| - 1], 10);
    assert Value(ds, 10) == Value(ds[..|b| - 1], 10) * 10 + ds[|b| - 1];
  }

  lemma {:induction false} CutNumber(a: string, b: string)
    requires AllDigits(a) && AllDigits(b) && b != "" && b[|b| - 1] != '0'
    ensures NatOf(a + b) == NatOf(a) * Pow(10, |b|) + NatOf(b) && 0 < NatOf(b) < Pow(10, |b|)
  {
    SplitNumber(a, b);
    LastDigitCounts(b);
    ValueBounds(DigitValues(b), 10);
  }

  lemma {:induction false} TenInverse(k: nat)
    ensures 0.0 < Ten(0 - k) && Pow(10, k) as real * Ten(0 - k) == 1.0
  {
    hide Ten;
    TenPositive(0 - k);
    TenIsPower(k);
    TenIsTenfold();
    TenSum(k, 0 - k, 0);
  }

  lemma {:induction false} SmallFraction(x: real, p: real, t: real)
    requires 0.0 < x < p && 0.0 < t && p * t == 1.0
    ensures 0.0 < x * t < 1.0
  {
    Mono(x, p, t, x * t, 1.0);
    ProductPositive(x, t);
  }

  lemma {:induction false} Distribute(a: real, p: real, b: real, t: real)
    requires p * t == 1.0
    ensures (a * p + b) * t == a + b * t
  {
    assert (a * p) * t == a * (p * t);
    assert (a * p + b) * t == (a * p) * t + b * t;
  }

  lemma {:induction false} BetweenIntegers(m: real, a: int, f: real)
    requires m == a as real + f && 0.0 < f < 1.0
    ensures m.Floor == a && m != m.Floor as real
  {
  }

  lemma {:induction false} CutValue(m: real, n: nat, x: nat, y: nat, p: nat, t: real)
    requires m == n as real * t && n == x * p + y && 0 < y < p && 0.0 < t && p as real * t == 1.0
    ensures m.Floor == x && m != m.Floor as real
  {
    SmallFraction(y as real, p as real, t);
    Distribute(x as real, p as real, y as real, t);
    assert n as real == x as real * p as real + y as real;
    BetweenIntegers(m, x, y as real * t);
  }

  /** Cut at the point, the digits are the integer part and a fraction that is not zero. */
  lemma {:induction false} CutAtPoint(a: string, b: string)
    requires AllDigits(a) && AllDigits(b) && b != "" && b[|b| - 1] != '0'
    ensures var m := Magnitude(a + b, 0 - |b|); m.Floor == NatOf(a) && m != m.Floor as real
  {
    hide Ten;
    CutNumber(a, b);
    TenInverse(|b|);
    CutValue(Magnitude(a + b, 0 - |b|), NatOf(a + b), NatOf(a), NatOf(b), Pow(10, |b|), Ten(0 - |b|));
  }

  // ----- the rendering has the form of its value -----

  lemma {:induction false} WholeForm(digits: string, n: int)
    requires Significant(digits) && |digits| <= n
    ensures PlainForm(Magnitude(digits, n - |digits|), digits + Zeros(n - |digits|))
  {
    var text := digits + Zeros(n - |digits|);
    hide Ten, Magnitude;
    TrailingZeros(digits, n - |digits|, 0);
    DigitsAreText(text);
    UnitMagnitude(text);
    assert text == NatText(NatOf(text)) + (if "" == "" then "" else "." + "");
  }

  lemma {:induction false} FractionForm(m: real, whole: nat, b: string, text: string)
    requires m.Floor == whole && m != m.Floor as real
    requires AllDigits(b) && b != "" && b[|b| - 1] != '0' && text == NatText(whole) + ("." + b)
    ensures PlainForm(m, text)
  {
  }

  lemma {:induction false} PointForm(digits: string, n: int)
    requires Significant(digits) && 0 < n < |digits|
    ensures PlainForm(Magnitude(digits, n - |digits|), digits[..n] + "." + digits[n..])
  {
    hide Ten, Magnitude;
    var a, b := digits[..n], digits[n..];
    assert digits == a + b && n - |digits| == 0 - |b|;
    CutAtPoint(a, b);
    DigitsAreText(a);
    assert digits[..n] + "." + digits[n..] == a + ("." + b);
    FractionForm(Magnitude(digits, n - |digits|), NatOf(a), b, digits[..n] + "." + digits[n..]);
  }

  lemma {:induction false} NoDigitsNothing()
    ensures NatOf("") == 0 && NatText(0) == "0"
  {
    assert DigitValues("") == [];
  }

  lemma {:induction false} PaddedMagnitude(k: nat, digits: string, scale: int)
    requires AllDigits(digits)
    ensures Magnitude(Zeros(k) + digits, scale) == Magnitude(digits, scale)
  {
    hide Ten;
    LeadingZerosKeepNumber(k, digits);
  }

  lemma {:induction false} SmallForm(digits: string, n: int)
    requires Significant(digits) && n <= 0
    ensures PlainForm(Magnitude(digits, n - |digits|), "0." + Zeros(-n) + digits)
  {
    hide Ten, Magnitude;
    var b, text := Zeros(-n) + digits, "0." + Zeros(-n) + digits;
    PaddedMagnitude(-n, digits, n - |digits|);
    CutAtPoint("", b);
    assert "" + b == b;
    NoDigitsNothing();
    assert text == "0" + ("." + b);
    FractionForm(Magnitude(digits, n - |digits|), 0, b, text);
  }

  lemma {:induction false} FirstIsNoZero(digits: string)
    requires Significant(digits)
    ensures '1' <= digits[0] <= '9' && AllDigits(digits[1..]) && digits == [digits[0]] + digits[1..]
    ensures digits[1..] != "" ==> digits[1..][|digits[1..]| - 1] != '0'
  {
  }

  lemma {:induction false} Regroup(first: string, tail: string, exponent: string)
    ensures first + "." + tail + "e" + exponent == first + ("." + tail) + "e" + exponent
  {
    assert first + "." + tail == first + ("." + tail);
  }

  lemma {:induction false} ScientificText(digits: string, e: int)
    requires digits != ""
    ensures Scientific(digits, ExponentText(e)) ==
      [digits[0]] + (if digits[1..] == "" then "" else "." + digits[1..]) + "e" +
      (if e >= 0 then "+" + NatText(e) else "-" + NatText(-e))
  {
    assert digits[..1] == [digits[0]];
    if |digits| == 1 {
      assert digits == [digits[0]] + "";
    } else {
      Regroup([digits[0]], digits[1..], ExponentText(e));
    }
  }

  lemma {:induction false} ScientificForm(digits: string, n: int)
    requires Significant(digits)
    ensures ExponentForm(Magnitude(digits, n - |digits|), Scientific(digits, ExponentText(n - 1)))
  {
    hide Ten, Magnitude;
    MagnitudeBetween(digits, n);
    FirstIsNoZero(digits);
    ScientificText(digits, n - 1);
    assert IsScientific(Scientific(digits, ExponentText(n - 1)), digits[0], digits[1..], n - 1);
  }

  // ----- the form follows from the value -----

  /** Below 10^21 and from 10^-6 on the point is no further right than 21 places and no further left than six. */
  lemma {:induction false} PointOfMagnitude(digits: string, n: int)
    requires Significant(digits)
    ensures 0.0 < Magnitude(digits, n - |digits|)
    ensures NeedsExponent(Magnitude(digits, n - |digits|)) <==> !(-6 < n <= 21)
  {
    hide Ten, Magnitude;
    MagnitudeBetween(digits, n);
    TenPositive(n - 1);
    Thresholds();
    if n <= 21 { TenRises(n, 21); } else { TenRises(21, n - 1); }
    if n <= -6 { TenRises(n, -6); } else { TenRises(-6, n - 1); }
  }

  lemma {:induction false} UnsignedForm(digits: string, n: int)
    requires Significant(digits)
    ensures FormOf(Magnitude(digits, n - |digits|), Unsigned(digits, n))
  {
    hide Ten, Magnitude;
    PointOfMagnitude(digits, n);
    if |digits| <= n <= 21 {
      WholeForm(digits, n);
    } else if 0 < n <= 21 {
      PointForm(digits, n);
    } else if -6 < n <= 0 {
      SmallForm(digits, n);
    } else {
      ScientificForm(digits, n);
    }
  }

  lemma {:induction false} ZeroForm()
    ensures PlainForm(0.0, "0")
  {
    NoDigitsNothing();
    assert "0" == NatText(0.0.Floor) + (if "" == "" then "" else "." + "");
  }

  lemma {:induction false} SignedForm(negative: bool, m: real, text: string)
    requires 0.0 < m && FormOf(m, text)
    ensures FormOf(Absolute(Signed(negative, m)), text) && (Signed(negative, m) < 0.0 <==> negative)
  {
    assert Absolute(Signed(negative, m)) == m;
  }

  lemma {:induction false} FiniteForm(negative: bool, digits: string, n: int)
    requires Significant(digits)
    ensures var v := Signed(negative, Magnitude(digits, n - |digits|));
      FormOf(Absolute(v), Unsigned(digits, n)) && (v < 0.0 <==> negative)
  {
    hide Ten, Magnitude;
    UnsignedForm(digits, n);
    PointOfMagnitude(digits, n);
    SignedForm(negative, Magnitude(digits, n - |digits|), Unsigned(digits, n));
  }

  /** Every number is rendered as the sign of its value and the form of its magnitude. */
  lemma {:induction false} FormFollowsValue(d: Decimal) returns (text: string)
    ensures EcmaText(d) == (if ValueOf(d) < 0.0 then "-" else "") + text && FormOf(Absolute(ValueOf(d)), text)
  {
    hide Ten, Magnitude;
    match d
    case Zero =>
      text := "0";
      ZeroForm();
    case Finite(negative, digits, n) =>
      text := Unsigned(digits, n);
      FiniteForm(negative, digits, n);
  }

  lemma {:induction false} NoLetters(s: string)
    requires AllDigits(s)
    ensures 'e' !in s && '.' !in s
  {
  }

  lemma {:induction false} PlainCharacters(m: real, text: string)
    requires PlainForm(m, text)
    ensures 'e' !in text && ('.' in text <==> m != m.Floor as real)
  {
    var fraction :|
      && text == NatText(m.Floor) + (if fraction == "" then "" else "." + fraction) && AllDigits(fraction)
      && (fraction != "" ==> fraction[|fraction| - 1] != '0') && (fraction == "" <==> m == m.Floor as real);
    NoLetters(NatText(m.Floor));
    NoLetters(fraction);
  }

  lemma {:induction false} ExponentCharacters(m: real, text: string)
    requires ExponentForm(m, text)
    ensures 'e' in text
  {
    hide Ten;
    var first, rest, e :| IsScientific(text, first, rest, e) && Ten(e) <= m < Ten(e + 1);
  }

  /** The text has an exponent exactly when the magnitude needs one. */
  lemma {:induction false} ExponentExactly(d: Decimal)
    ensures 'e' in EcmaText(d) <==> NeedsExponent(Absolute(ValueOf(d)))
  {
    hide Ten, Magnitude;
    var m := Absolute(ValueOf(d));
    var text := FormFollowsValue(d);
    if NeedsExponent(m) { ExponentCharacters(m, text); } else { PlainCharacters(m, text); }
  }

  lemma {:induction false} IntegersKeepSign(v: real)
    ensures Absolute(v) == Absolute(v).Floor as real <==> v == v.Floor as real
  {
    if v < 0.0 {
      var k := v.Floor;
      if v == k as real { assert Absolute(v) == (-k) as real; }
      if Absolute(v) == Absolute(v).Floor as real { assert v == (-Absolute(v).Floor) as real; }
    }
  }

  /** Without an exponent it has a point exactly when the value is no integer. */
  lemma {:induction false} PointExactly(d: Decimal)
    requires !NeedsExponent(Absolute(ValueOf(d)))
    ensures '.' in EcmaText(d) <==> ValueOf(d) != ValueOf(d).Floor as real
  {
    hide Ten, Magnitude;
    var text := FormFollowsValue(d);
    PlainCharacters(Absolute(ValueOf(d)), text);
    IntegersKeepSign(ValueOf(d));
  }

  /** Digits of natural numbers begin with no zero but that of 0. */
  lemma {:induction false} NoLeadingZero(n: nat)
    ensures NatText(n)[0] == '0' <==> n == 0
  {
    DigitsOfCanonical(n, 10);
  }

  /** Every natural number below 10^21 prints as its decimal digits. */
  lemma {:induction false} NaturalsPrintPlainly(d: Decimal, n: nat)
    requires ValueOf(d) == n as real && n < 1_000_000_000_000_000_000_000
    ensures EcmaText(d) == NatText(n)
  {
    hide Ten, Magnitude, Unsigned;
    var text := FormFollowsValue(d);
    assert !NeedsExponent(n as real);
    assert (n as real).Floor == n;
    assert "" + text == text;
  }

  /** So a thousand is 1000. */
  lemma {:induction false} ThousandPrints()
    ensures EcmaText(Finite(false, "1", 4)) == "1000"
  {
  }
}
