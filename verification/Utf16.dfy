/** UTF-16 views of strings and the key order both canonical writers use. */
module Utf16 {
  type CodeUnit = u: int | 0 <= u < 0x1_0000

  predicate IsLead(u: int) { 0xD800 <= u < 0xDC00 }
  predicate IsTrail(u: int) { 0xDC00 <= u < 0xE000 }

  /** The code units of one scalar value. */
  function Units(c: char): (units: seq<CodeUnit>)
    ensures |units| == 1 ==> !IsLead(units[0]) && !IsTrail(units[0]) && units[0] == c as int
    ensures |units| == 2 ==> IsLead(units[0]) && IsTrail(units[1])
    ensures 1 <= |units| <= 2
  {
    var n := c as int;
    if n < 0x1_0000 then [n] else [0xD800 + (n - 0x1_0000) / 0x400, 0xDC00 + (n - 0x1_0000) % 0x400]
  }

  function Encode(s: string): (units: seq<CodeUnit>) {
    if s == "" then [] else Units(s[0]) + Encode(s[1..])
  }

  lemma {:induction false} EncodeConcat(a: string, b: string)
    ensures Encode(a + b) == Encode(a) + Encode(b)
  {
    if a == "" {
      assert a + b == b;
    } else {
      assert (a + b)[1..] == a[1..] + b;
      EncodeConcat(a[1..], b);
    }
  }

  lemma {:induction false} UnitsInjective(c: char, d: char)
    requires Units(c) == Units(d)
    ensures c == d
  {
  }

  lemma {:induction false} EncodeInjective(a: string, b: string)
    requires Encode(a) == Encode(b)
    ensures a == b
  {
    if a == "" || b == "" {
    } else {
      var x, y := Encode(a), Encode(b);
      assert x[..|Units(a[0])|] == Units(a[0]) && x[|Units(a[0])|..] == Encode(a[1..]);
      assert y[..|Units(b[0])|] == Units(b[0]) && y[|Units(b[0])|..] == Encode(b[1..]);
      assert |Units(a[0])| == |Units(b[0])| by { assert x[0] == Units(a[0])[0] == Units(b[0])[0]; }
      UnitsInjective(a[0], b[0]);
      EncodeInjective(a[1..], b[1..]);
      assert a == [a[0]] + a[1..] && b == [b[0]] + b[1..];
    }
  }

  // ----- order -----

  /** Lexicographic order on code units, a proper prefix first. */
  predicate Precedes(x: seq<CodeUnit>, y: seq<CodeUnit>) {
    if y == [] then false
    else if x == [] then true
    else if x[0] != y[0] then x[0] < y[0]
    else Precedes(x[1..], y[1..])
  }

  /** Equal heads do not matter. */
  lemma {:induction false} PrecedesSkip(x: seq<CodeUnit>, y: seq<CodeUnit>, k: nat)
    requires k <= |x| && k <= |y| && x[..k] == y[..k]
    ensures Precedes(x, y) == Precedes(x[k..], y[k..])
  {
    if k > 0 {
      assert x[..k][0] == y[..k][0];
      assert x[1..][..k - 1] == x[..k][1..] && y[1..][..k - 1] == y[..k][1..];
      PrecedesSkip(x[1..], y[1..], k - 1);
      assert x[1..][k - 1..] == x[k..] && y[1..][k - 1..] == y[k..];
    }
  }

  lemma {:induction false} PrecedesIrreflexive(x: seq<CodeUnit>)
    ensures !Precedes(x, x)
  {
    if x != [] { PrecedesIrreflexive(x[1..]); }
  }

  lemma {:induction false} PrecedesTransitive(x: seq<CodeUnit>, y: seq<CodeUnit>, z: seq<CodeUnit>)
    requires Precedes(x, y) && Precedes(y, z)
    ensures Precedes(x, z)
  {
    if x != [] && x[0] == y[0] == z[0] { PrecedesTransitive(x[1..], y[1..], z[1..]); }
  }

  lemma {:induction false} PrecedesTotal(x: seq<CodeUnit>, y: seq<CodeUnit>)
    ensures x == y || Precedes(x, y) || Precedes(y, x)
  {
    if x != [] && y != [] && x[0] == y[0] {
      PrecedesTotal(x[1..], y[1..]);
      assert x == [x[0]] + x[1..] && y == [y[0]] + y[1..];
    }
  }

  predicate KeyBefore(a: string, b: string) {
    Precedes(Encode(a), Encode(b))
  }

  /** The comparison loop: two iterators stepped together. */
  method PrecedesInUtf16Order(left: string, right: string) returns (r: bool)
    ensures r == KeyBefore(left, right)
  {
    var l, s := Encode(left), Encode(right);
    var i := 0;
    while true
      invariant i <= |l| && i <= |s| && l[..i] == s[..i]
      decreases |l| - i
    {
      PrecedesSkip(l, s, i);
      if i == |l| && i == |s| {
        return false;
      } else if i == |l| {
        return true;
      } else if i == |s| {
        return false;
      } else if l[i] != s[i] {
        return l[i] < s[i];
      }
      assert l[..i + 1] == l[..i] + [l[i]] && s[..i + 1] == s[..i] + [s[i]];
      i := i + 1;
    }
  }

  ghost predicate StrictTotalOrder(less: (string, string) -> bool) {
    && (forall a :: !less(a, a))
    && (forall a, b, c :: less(a, b) && less(b, c) ==> less(a, c))
    && (forall a, b :: a == b || less(a, b) || less(b, a))
  }

  lemma {:induction false} KeyBeforeIsStrictTotalOrder()
    ensures StrictTotalOrder(KeyBefore)
  {
    forall a: string ensures !KeyBefore(a, a) { PrecedesIrreflexive(Encode(a)); }
    forall a: string, b: string, c: string | KeyBefore(a, b) && KeyBefore(b, c) ensures KeyBefore(a, c) {
      PrecedesTransitive(Encode(a), Encode(b), Encode(c));
    }
    forall a: string, b: string ensures a == b || KeyBefore(a, b) || KeyBefore(b, a) {
      PrecedesTotal(Encode(a), Encode(b));
      if Encode(a) == Encode(b) { EncodeInjective(a, b); }
    }
  }
}
