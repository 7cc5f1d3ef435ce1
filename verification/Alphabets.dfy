/** The letters of both encodings, as their standards write them down. */
module Alphabets {
  import Base58
  import Base64Url

  // ----- Base58 -----

  const HEAD58 := "123456789" + "ABCDEFGH" + "JKLMN" + "PQRSTUVWXYZ"
  const TAIL58 := "abcdefghijk" + "mnopqrstuvwxyz"
  const BASE58 := HEAD58 + TAIL58

  lemma {:induction false} HeadAt(i: nat)
    requires i < 33
    ensures |HEAD58| == 33 && Base58.Letter(i) == HEAD58[i]
  {
    var digits, first, second, third := "123456789", "ABCDEFGH", "JKLMN", "PQRSTUVWXYZ";
    if i < 9 {
      assert digits[i] as int == '1' as int + i;
    } else if i < 17 {
      assert first[i - 9] as int == 'A' as int + i - 9;
    } else if i < 22 {
      assert second[i - 17] as int == 'J' as int + i - 17;
    } else {
      assert third[i - 22] as int == 'P' as int + i - 22;
    }
  }

  lemma {:induction false} TailAt(i: nat)
    requires i < 25
    ensures |TAIL58| == 25 && Base58.Letter(33 + i) == TAIL58[i]
  {
    var first, second := "abcdefghijk", "mnopqrstuvwxyz";
    if i < 11 {
      assert first[i] as int == 'a' as int + i;
    } else {
      assert second[i - 11] as int == 'm' as int + i - 11;
    }
  }

  lemma {:induction false} LetterAt(i: nat)
    requires i < 58
    ensures |BASE58| == 58 && Base58.Letter(i) == BASE58[i]
  {
    HeadAt(if i < 33 then i else 0);
    TailAt(if i < 33 then 0 else i - 33);
  }

  /** The alphabet in full; a letter's index is its place there. */
  lemma {:induction false} Base58Exactly(c: char)
    ensures |BASE58| == 58 && forall i: nat | i < 58 :: Base58.Letter(i) == BASE58[i]
    ensures (Base58.IndexOf(c) == -1 <==> c !in BASE58)
    ensures Base58.IndexOf(c) >= 0 ==> BASE58[Base58.IndexOf(c)] == c
  {
    LetterAt(0);
    forall i: nat | i < 58 ensures Base58.Letter(i) == BASE58[i] { LetterAt(i); }
    if c in BASE58 {
      var i :| 0 <= i < |BASE58| && BASE58[i] == c;
      assert Base58.Letter(i) == c;
    }
  }

  // ----- base64url -----

  const UPPER := "ABCDEFGHIJKLMNOPQRSTUVWXYZ"
  const LOWER := "abcdefghijklmnopqrstuvwxyz"
  const REST := "0123456789" + "-_"
  const BASE64URL := UPPER + LOWER + REST

  lemma {:induction false} UpperAt(n: nat)
    requires n < 26
    ensures |UPPER| == 26 && Base64Url.Letter(n) == UPPER[n]
  {
    assert UPPER[n] as int == 'A' as int + n;
  }

  lemma {:induction false} LowerAt(n: nat)
    requires n < 26
    ensures |LOWER| == 26 && Base64Url.Letter(26 + n) == LOWER[n]
  {
    assert LOWER[n] as int == 'a' as int + n;
  }

  lemma {:induction false} RestAt(n: nat)
    requires n < 12
    ensures |REST| == 12 && Base64Url.Letter(52 + n) == REST[n]
  {
    var digits := "0123456789";
    if n < 10 { assert digits[n] as int == '0' as int + n; }
  }

  lemma {:induction false} Sextet64(n: nat)
    requires n < 64
    ensures |BASE64URL| == 64 && Base64Url.Letter(n) == BASE64URL[n]
  {
    UpperAt(if n < 26 then n else 0);
    LowerAt(if 26 <= n < 52 then n - 26 else 0);
    RestAt(if 52 <= n then n - 52 else 0);
  }

  /** The alphabet in full; the number of a letter is its place there. */
  lemma {:induction false} Base64UrlExactly(c: char)
    ensures |BASE64URL| == 64 && (Base64Url.InAlphabet(c) <==> c in BASE64URL)
    ensures Base64Url.InAlphabet(c) ==> BASE64URL[Base64Url.Sextet(c)] == c
  {
    Sextet64(0);
    if Base64Url.InAlphabet(c) {
      Sextet64(Base64Url.Sextet(c));
      Base64Url.SextetInjective(c, Base64Url.Letter(Base64Url.Sextet(c)));
    }
    if c in BASE64URL {
      var i :| 0 <= i < |BASE64URL| && BASE64URL[i] == c;
      Sextet64(i);
    }
  }
}
