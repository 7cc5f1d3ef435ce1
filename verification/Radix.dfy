/** Positional notation in an arbitrary base, most significant digit first. */
module Radix {
  function Pow(b: nat, e: nat): nat
  {
    if e == 0 then 1 else b * Pow(b, e - 1)
  }

  ghost predicate InBase(s: seq<int>, base: nat) {
    forall i | 0 <= i < |s| :: 0 <= s[i] < base
  }

  /** The number a digit string stands for. */
  function Value(s: seq<int>, base: nat): int {
    if s == [] then 0 else Value(s[..|s| - 1], base) * base + s[|s| - 1]
  }

  /** The digits of n, without leading zeros. */
  function DigitsOf(n: nat, base: nat): seq<int>
    requires 2 <= base
  {
    if n == 0 then [] else DigitsOf(n / base, base) + [n % base]
  }

  ghost predicate Canonical(s: seq<int>, base: nat) {
    InBase(s, base) && (s != [] ==> s[0] != 0)
  }

  lemma {:induction false} PowPositive(b: nat, e: nat)
    requires 0 < b
    ensures 0 < Pow(b, e)
  {
    if e > 0 { PowPositive(b, e - 1); }
  }

  lemma {:induction false} PowNext(b: nat, e: nat)
    ensures Pow(b, e + 1) == b * Pow(b, e)
  {
  }

  lemma {:induction false} PowAdd(b: nat, x: nat, y: nat)
    ensures Pow(b, x + y) == Pow(b, x) * Pow(b, y)
  {
    if x > 0 {
      PowAdd(b, x - 1, y);
      MulAssociates(b, Pow(b, x - 1), Pow(b, y));
    }
  }

  lemma {:induction false} MulAssociates(x: int, y: int, z: int)
    ensures x * (y * z) == (x * y) * z
  {
  }

  lemma {:induction false} PowMul(b: nat, x: nat, y: nat)
    ensures Pow(Pow(b, x), y) == Pow(b, x * y)
  {
    if y > 0 {
      PowMul(b, x, y - 1);
      PowAdd(b, x, x * (y - 1));
      assert x + x * (y - 1) == x * y;
    } else {
      assert x * y == 0;
    }
  }

  lemma {:induction false} PowStrict(b: nat, x: nat, y: nat)
    requires 2 <= b && x < y
    ensures Pow(b, x) < Pow(b, y)
    decreases y
  {
    PowPositive(b, y - 1);
    if x < y - 1 { PowStrict(b, x, y - 1); }
  }

  /** Raising to a fixed power keeps order. */
  lemma {:induction false} PowBase(a: nat, b: nat, e: nat)
    requires a <= b
    ensures Pow(a, e) <= Pow(b, e)
  {
    if e > 0 {
      PowBase(a, b, e - 1);
      MulMono(a, b, Pow(a, e - 1), Pow(b, e - 1));
    }
  }

  lemma {:induction false} MulMono(a: nat, b: nat, x: nat, y: nat)
    requires a <= b && x <= y
    ensures a * x <= b * y
  {
    assert a * x <= a * y;
    assert a * y <= b * y;
  }

  /**
   * A single numeric fact a^p <= b^q bounds every power of a by a power of b:
   * m digits of base b are enough for n digits of base a whenever q/p < m/n.
   */
  lemma {:induction false} PowerBound(a: nat, b: nat, p: nat, q: nat, n: nat, m: nat)
    requires 2 <= b && Pow(a, p) <= Pow(b, q) && q * n < p * m
    ensures Pow(a, n) < Pow(b, m)
  {
    LowerPower(a, b, p, q, n);
    UpperPower(b, p, q * n, m);
    PowReflects(Pow(a, n), Pow(b, m), p);
  }

  lemma {:induction false} LowerPower(a: nat, b: nat, p: nat, q: nat, n: nat)
    requires Pow(a, p) <= Pow(b, q)
    ensures Pow(Pow(a, n), p) <= Pow(b, q * n)
  {
    SwapExponents(a, n, p);
    PowBase(Pow(a, p), Pow(b, q), n);
    PowMul(b, q, n);
  }

  lemma {:induction false} UpperPower(b: nat, p: nat, k: nat, m: nat)
    requires 2 <= b && k < p * m
    ensures Pow(b, k) < Pow(Pow(b, m), p)
  {
    PowStrict(b, k, p * m);
    SwapExponents(b, m, p);
    PowMul(b, p, m);
  }

  lemma {:induction false} SwapExponents(b: nat, x: nat, y: nat)
    ensures Pow(Pow(b, x), y) == Pow(Pow(b, y), x)
  {
    PowMul(b, x, y);
    PowMul(b, y, x);
    assert x * y == y * x;
  }

  lemma {:induction false} PowReflects(x: nat, y: nat, e: nat)
    requires Pow(x, e) < Pow(y, e)
    ensures x < y
  {
    if y <= x { PowBase(y, x, e); }
  }

  lemma {:induction false} ValueConcat(x: seq<int>, y: seq<int>, base: nat)
    ensures Value(x + y, base) == Value(x, base) * Pow(base, |y|) + Value(y, base)
    decreases |y|
  {
    if y == [] {
      assert x + y == x;
    } else {
      var y' := y[..|y| - 1];
      assert (x + y)[..|x + y| - 1] == x + y';
      ValueConcat(x, y', base);
      var v, p := Value(x, base), Pow(base, |y'|);
      assert v * p * base == v * (base * p);
    }
  }

  lemma {:induction false} ValueBounds(s: seq<int>, base: nat)
    requires InBase(s, base) && 2 <= base
    ensures 0 <= Value(s, base) < Pow(base, |s|)
  {
    if s != [] {
      ValueBounds(s[..|s| - 1], base);
      AppendDigitBound(Value(s[..|s| - 1], base), s[|s| - 1], Pow(base, |s| - 1), base);
    }
  }

  lemma {:induction false} AppendDigitBound(v: int, d: int, p: int, base: nat)
    requires 0 <= v < p && 0 <= d < base
    ensures 0 <= v * base + d < base * p
  {
    assert 0 <= v * base;
    assert (v + 1) * base <= p * base;
  }

  lemma {:induction false} ValueOfZeros(k: nat, base: nat)
    ensures Value(seq(k, _ => 0), base) == 0
  {
    if k > 0 {
      assert seq(k, _ => 0)[..k - 1] == seq(k - 1, _ => 0);
      ValueOfZeros(k - 1, base);
    }
  }

  lemma {:induction false} ValueDropsZeros(k: nat, s: seq<int>, base: nat)
    ensures Value(seq(k, _ => 0) + s, base) == Value(s, base)
  {
    ValueConcat(seq(k, _ => 0), s, base);
    ValueOfZeros(k, base);
  }

  lemma {:induction false} DivisionUnique(q: int, r: int, base: nat)
    requires 2 <= base && 0 <= r < base
    ensures (q * base + r) / base == q && (q * base + r) % base == r
  {
    var n := q * base + r;
    assert n == (n / base) * base + n % base;
    assert (n / base - q) * base == r - n % base;
    SmallMultiple(n / base - q, base);
  }

  lemma {:induction false} SmallMultiple(d: int, base: nat)
    ensures 0 - base < d * base < base ==> d == 0
  {
    assert d >= 1 ==> d * base >= base;
    assert d <= -1 ==> d * base <= 0 - base;
  }

  lemma {:induction false} DigitsOfCanonical(n: nat, base: nat)
    requires 2 <= base
    ensures Canonical(DigitsOf(n, base), base) && Value(DigitsOf(n, base), base) == n
  {
    if n > 0 {
      DivMod(n, base);
      DigitsOfCanonical(n / base, base);
      AppendDigit(DigitsOf(n / base, base), n % base, base);
    }
  }

  lemma {:induction false} DivMod(n: nat, base: nat)
    requires 2 <= base
    ensures n == (n / base) * base + n % base && 0 <= n % base < base
    ensures n / base == 0 ==> n % base == n
    ensures 0 < n ==> n / base < n
  {
  }

  lemma {:induction false} AppendDigit(s: seq<int>, d: int, base: nat)
    requires Canonical(s, base) && 0 <= d < base && (s == [] ==> d != 0)
    ensures Canonical(s + [d], base) && Value(s + [d], base) == Value(s, base) * base + d
  {
    assert (s + [d])[..|s|] == s;
  }

  /** A number has only one digit string without leading zeros. */
  lemma {:induction false} CanonicalUnique(s: seq<int>, base: nat)
    requires 2 <= base && Canonical(s, base)
    ensures 0 <= Value(s, base) && DigitsOf(Value(s, base), base) == s
  {
    ValueBounds(s, base);
    if s != [] {
      var s' := s[..|s| - 1];
      CanonicalUnique(s', base);
      var v := Value(s', base);
      DivisionUnique(v, s[|s| - 1], base);
      assert s == s' + [s[|s| - 1]];
      assert Value(s, base) != 0 by { NonZero(s, base); }
    }
  }

  lemma {:induction false} NonZero(s: seq<int>, base: nat)
    requires 2 <= base && Canonical(s, base) && s != []
    ensures 0 < Value(s, base)
  {
    LeadingPlace(s, base);
    PowPositive(base, |s| - 1);
  }

  /** A number with no leading zero is at least the power of its top place. */
  lemma {:induction false} LeadingPlace(s: seq<int>, base: nat)
    requires 2 <= base && Canonical(s, base) && s != []
    ensures Pow(base, |s| - 1) <= Value(s, base)
  {
    var top, rest := s[..1], s[1..];
    assert s == top + rest;
    ValueConcat(top, rest, base);
    ValueBounds(rest, base);
    assert top[..0] == [];
    assert Value(top, base) == Value(top[..0], base) * base + s[0] == s[0];
    MulMono(1, s[0], Pow(base, |rest|), Pow(base, |rest|));
  }

  /** Numbers below a power of the base fit in that many places. */
  lemma {:induction false} FitsIn(n: nat, base: nat, places: nat)
    requires 2 <= base && n < Pow(base, places)
    ensures |DigitsOf(n, base)| <= places
  {
    var digits := DigitsOf(n, base);
    DigitsOfCanonical(n, base);
    if |digits| > places {
      LeadingPlace(digits, base);
      if |digits| - 1 > places { PowStrict(base, places, |digits| - 1); }
    }
  }
}
