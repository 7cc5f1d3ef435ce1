/** The laptop's canonical writer: `JSON.stringify` over an object whose keys were inserted in sorted order. */
module TsCanonicalJson {
  // Its text is a sequence of UTF-16 code units.

  import Utf8
  import opened Radix
  import opened Utf16
  import opened KeySort
  import opened DecimalText
  import opened CanonicalJson
  import opened JsonReader
  import opened JsonUnambiguous

  // ----- enumeration order of object keys (section 10.1.11.1 of ECMA-262) -----

  /** A canonical numeric string below 2^32 - 1. */
  predicate IsArrayIndex(key: string) {
    key != "" && AllDigits(key) && (key[0] != '0' || key == "0") && NatOf(key) < 0xFFFF_FFFF
  }

  lemma {:induction false} ArrayIndexesAreNumbers(a: string, b: string)
    requires IsArrayIndex(a) && IsArrayIndex(b) && NatOf(a) == NatOf(b)
    ensures a == b
  {
    var x, y := DigitValues(a), DigitValues(b);
    assert DigitValues("0") == [0];
    assert Value([0], 10) == 0;
    if a != "0" { CanonicalUnique(x, 10); NonZero(x, 10); }
    if b != "0" { CanonicalUnique(y, 10); NonZero(y, 10); }
    if a != "0" && b != "0" {
      assert x == y;
      SameDigitsSameText(a, b);
    }
  }

  lemma {:induction false} SameDigitsSameText(a: string, b: string)
    requires AllDigits(a) && AllDigits(b) && DigitValues(a) == DigitValues(b)
    ensures a == b
  {
    assert |a| == |b|;
    forall i | 0 <= i < |a| ensures a[i] == b[i] {
      assert DigitValues(a)[i] == DigitValues(b)[i];
    }
  }

  /** Array indexes are exactly the decimal texts of the numbers below 2^32 - 1. */
  lemma {:induction false} ArrayIndexesExactly(key: string)
    ensures IsArrayIndex(key) <==> exists n: nat :: n < 4_294_967_295 && key == NatText(n)
  {
    if IsArrayIndex(key) {
      var n := NatOf(key);
      TextOfIndex(n);
      ArrayIndexesAreNumbers(key, NatText(n));
    }
    if n: nat :| n < 4_294_967_295 && key == NatText(n) { TextOfIndex(n); }
  }

  lemma {:induction false} TextOfIndex(n: nat)
    requires n < 4_294_967_295
    ensures IsArrayIndex(NatText(n)) && NatOf(NatText(n)) == n
  {
    NatTextReads(n);
    DigitsOfCanonical(n, 10);
  }

  /** Array indexes first, in numeric order; other strings as KeyBefore has them. */
  predicate NumericBefore(a: string, b: string) {
    if IsArrayIndex(a) && IsArrayIndex(b) then NatOf(a) < NatOf(b)
    else if IsArrayIndex(a) != IsArrayIndex(b) then IsArrayIndex(a)
    else KeyBefore(a, b)
  }

  lemma {:induction false} NumericBeforeIsStrictTotalOrder()
    ensures StrictTotalOrder(NumericBefore)
  {
    KeyBeforeIsStrictTotalOrder();
    forall a: string, b: string ensures a == b || NumericBefore(a, b) || NumericBefore(b, a) {
      if IsArrayIndex(a) && IsArrayIndex(b) && NatOf(a) == NatOf(b) { ArrayIndexesAreNumbers(a, b); }
    }
  }

  function NonIndexes(keys: seq<string>): (r: seq<string>)
  {
    if keys == [] then []
    else if IsArrayIndex(keys[0]) then NonIndexes(keys[1..])
    else [keys[0]] + NonIndexes(keys[1..])
  }

  function IndexesOf(keys: seq<string>): set<string> {
    set k | k in keys && IsArrayIndex(k)
  }

  /** The keys of an ordinary object created by inserting `inserted` in that order. */
  ghost function OwnPropertyKeys(inserted: seq<string>): seq<string> {
    NumericBeforeIsStrictTotalOrder();
    Sorted(IndexesOf(inserted), NumericBefore) + NonIndexes(inserted)
  }

  /** `Object.keys(record).sort()`, then insertion in that order, then enumeration. */
  ghost function ScriptOrder(keys: set<string>): seq<string> {
    OwnPropertyKeys(Utf16Order(keys))
  }

  lemma {:induction false} NonIndexesOf(keys: seq<string>)
    requires StrictlySorted(keys, KeyBefore)
    ensures StrictlySorted(NonIndexes(keys), KeyBefore)
    ensures forall k :: k in NonIndexes(keys) <==> k in keys && !IsArrayIndex(k)
  {
    if keys != [] {
      NonIndexesOf(keys[1..]);
      assert forall k :: k in keys <==> k == keys[0] || k in keys[1..];
      assert forall k | k in NonIndexes(keys[1..]) :: KeyBefore(keys[0], k) by {
        forall k | k in NonIndexes(keys[1..]) ensures KeyBefore(keys[0], k) {
          var i :| 0 <= i < |keys[1..]| && keys[1..][i] == k;
          assert keys[i + 1] == k;
        }
      }
    }
  }

  /** Enumeration order is itself a sort: by NumericBefore. */
  lemma {:induction false} ScriptOrderSorts(keys: set<string>)
    ensures StrictTotalOrder(NumericBefore)
    ensures ScriptOrder(keys) == Sorted(keys, NumericBefore)
  {
    NumericBeforeIsStrictTotalOrder();
    KeyBeforeIsStrictTotalOrder();
    var inserted := Utf16Order(keys);
    NonIndexesOf(inserted);
    var front := Sorted(IndexesOf(inserted), NumericBefore);
    var ks := front + NonIndexes(inserted);
    assert forall k | k in front :: IsArrayIndex(k);
    forall i, j | 0 <= i < j < |ks| ensures NumericBefore(ks[i], ks[j]) {
      if i < |front| { assert ks[i] in front; }
      if j >= |front| { assert ks[j] in NonIndexes(inserted); }
      if i >= |front| { assert ks[i] in NonIndexes(inserted); }
    }
    assert Lists(ks, keys);
    SortedIsUnique(ks, keys, NumericBefore);
  }

  lemma {:induction false} ScriptOrderEnumerates()
    ensures Enumerates(ScriptOrder)
  {
    NumericBeforeIsStrictTotalOrder();
    forall keys: set<string> ensures Lists(ScriptOrder(keys), keys) && NoRepeats(ScriptOrder(keys)) {
      ScriptOrderSorts(keys);
    }
  }

  // ----- QuoteJSONString (section 25.5.2.3 of ECMA-262) on code units -----

  function HexUnits(u: CodeUnit): seq<CodeUnit> {
    ['\\' as int, 'u' as int, HexDigit(u / 0x1000) as int, HexDigit(u / 0x100 % 16) as int,
     HexDigit(u / 16 % 16) as int, HexDigit(u % 16) as int]
  }

  function ScriptEscape(u: CodeUnit): seq<CodeUnit> {
    if u == 0x08 then ['\\' as int, 'b' as int]
    else if u == 0x09 then ['\\' as int, 't' as int]
    else if u == 0x0A then ['\\' as int, 'n' as int]
    else if u == 0x0C then ['\\' as int, 'f' as int]
    else if u == 0x0D then ['\\' as int, 'r' as int]
    else if u == 0x22 then ['\\' as int, '"' as int]
    else if u == 0x5C then ['\\' as int, '\\' as int]
    else if u < 0x20 || IsLead(u) || IsTrail(u) then HexUnits(u)
    else [u]
  }

  /** The escaped code units and the closing quote; a lone surrogate is escaped, a pair is kept. */
  function ScriptQuoteRest(units: seq<CodeUnit>): seq<CodeUnit> {
    if units == [] then ['"' as int]
    else if IsLead(units[0]) && |units| > 1 && IsTrail(units[1]) then [units[0], units[1]] + ScriptQuoteRest(units[2..])
    else ScriptEscape(units[0]) + ScriptQuoteRest(units[1..])
  }

  function ScriptQuote(units: seq<CodeUnit>): seq<CodeUnit> { ['"' as int] + ScriptQuoteRest(units) }

  function ScriptPrint(n: Node): seq<CodeUnit>
    decreases n, 1
  {
    match n
    case NNull => Encode("null")
    case NBool(b) => if b then Encode("true") else Encode("false")
    case NNumber(text) => Encode(text)
    case NString(s) => ScriptQuote(Encode(s))
    case NArray(items) => Encode("[") + ScriptItems(items, true)
    case NObject(members) => Encode("{") + ScriptMembers(members, true)
  }

  function ScriptItems(items: seq<Node>, first: bool): seq<CodeUnit>
    decreases items, 0
  {
    if items == [] then Encode("]")
    else Encode(if first then "" else ",") + ScriptPrint(items[0]) + ScriptItems(items[1..], false)
  }

  function ScriptMembers(members: seq<Member>, first: bool): seq<CodeUnit>
    decreases members, 0
  {
    if members == [] then Encode("}")
    else Encode(if first then "" else ",") + ScriptQuote(Encode(members[0].key)) + Encode(":")
         + ScriptPrint(members[0].value) + ScriptMembers(members[1..], false)
  }

  /** What the laptop signs. */
  ghost function ScriptText(v: Json): seq<CodeUnit> {
    ScriptOrderEnumerates();
    ScriptPrint(Arrange(v, ScriptOrder))
  }

  // ----- the two writers print every tree alike -----

  lemma {:induction false} EncodeAscii(s: string)
    requires forall i | 0 <= i < |s| :: s[i] as int < 0x80
    ensures |Encode(s)| == |s| && forall i | 0 <= i < |s| :: Encode(s)[i] == s[i] as int
  {
    if s != "" { EncodeAscii(s[1..]); }
  }

  lemma {:induction false} EscapeUnits(c: char)
    requires !IsLead(c as int) && !IsTrail(c as int) && c as int < 0x1_0000
    ensures ScriptEscape(c as int) == Encode(Escape(c))
  {
    if c as int < 0x80 { EncodeAscii(Escape(c)); } else { EncodeOne(c); }
  }

  lemma {:induction false} EncodeOne(c: char)
    ensures Encode([c]) == Units(c)
  {
    assert [c][1..] == "";
    assert Units(c) + [] == Units(c);
  }

  lemma {:induction false} EscapesAgree(c: char, rest: seq<CodeUnit>)
    ensures ScriptQuoteRest(Units(c) + rest) == Encode(Escape(c)) + ScriptQuoteRest(rest)
  {
    var u := Units(c);
    assert (u + rest)[|u|..] == rest;
    if |u| == 1 {
      EscapeUnits(c);
    } else {
      EncodeOne(c);
      assert (u + rest)[2..] == rest;
    }
  }

  lemma {:induction false} QuotesAgree(s: string)
    ensures ScriptQuoteRest(Encode(s)) == Encode(QuoteRest(s))
  {
    if s == "" {
      EncodeAscii("\"");
    } else {
      EscapesAgree(s[0], Encode(s[1..]));
      QuotesAgree(s[1..]);
      EncodeConcat(Escape(s[0]), QuoteRest(s[1..]));
    }
  }

  lemma {:induction false} QuoteAgrees(s: string)
    ensures ScriptQuote(Encode(s)) == Encode(Quote(s))
  {
    QuotesAgree(s);
    EncodeAscii("\"");
    EncodeConcat("\"", QuoteRest(s));
  }

  lemma {:induction false} EncodeThree(a: string, b: string, c: string)
    ensures Encode(a + b + c) == Encode(a) + Encode(b) + Encode(c)
  {
    EncodeConcat(a + b, c);
    EncodeConcat(a, b);
  }

  lemma {:induction false} EncodeFive(a: string, b: string, c: string, d: string, e: string)
    ensures Encode(a + b + c + d + e) == Encode(a) + Encode(b) + Encode(c) + Encode(d) + Encode(e)
  {
    EncodeThree(a + b + c, d, e);
    EncodeThree(a, b, c);
  }

  lemma {:induction false} PrintersAgree(n: Node)
    ensures ScriptPrint(n) == Encode(Print(n))
    decreases n, 1
  {
    match n
    case NNull =>
    case NBool(_) =>
    case NNumber(_) =>
    case NString(s) => QuoteAgrees(s);
    case NArray(items) =>
      ItemsAgree(items, true);
      EncodeConcat("[", Items(items, true));
    case NObject(members) =>
      MembersAgree(members, true);
      EncodeConcat("{", Members(members, true));
  }

  lemma {:induction false} ItemsAgree(items: seq<Node>, first: bool)
    ensures ScriptItems(items, first) == Encode(Items(items, first))
    decreases items, 0
  {
    if items != [] {
      PrintersAgree(items[0]);
      ItemsAgree(items[1..], false);
      EncodeThree(if first then "" else ",", Print(items[0]), Items(items[1..], false));
    }
  }

  lemma {:induction false} MembersAgree(members: seq<Member>, first: bool)
    ensures ScriptMembers(members, first) == Encode(Members(members, first))
    decreases members, 0
  {
    if members != [] {
      PrintersAgree(members[0].value);
      MembersAgree(members[1..], false);
      QuoteAgrees(members[0].key);
      EncodeFive(if first then "" else ",", Quote(members[0].key), ":", Print(members[0].value),
                 Members(members[1..], false));
    }
  }

  // ----- exactly when the texts are the same -----

  /** No array-index key is moved past a key that sorts before it. */
  predicate SafeKeys(keys: set<string>) {
    forall a, b | a in keys && b in keys && IsArrayIndex(a) && NumericBefore(a, b) :: KeyBefore(a, b)
  }

  predicate OrderSafe(v: Json)
    decreases v
  {
    match v
    case Null => true
    case Bool(_) => true
    case Number(_) => true
    case String(_) => true
    case Array(items) => forall i | 0 <= i < |items| :: OrderSafe(items[i])
    case Object(members) => SafeKeys(members.Keys) && forall k | k in members :: OrderSafe(members[k])
  }

  lemma {:induction false} SafeMeansSorted(ks: seq<string>, keys: set<string>)
    requires StrictTotalOrder(KeyBefore) && StrictTotalOrder(NumericBefore)
    requires Lists(ks, keys) && StrictlySorted(ks, KeyBefore) && SafeKeys(keys)
    ensures StrictlySorted(ks, NumericBefore)
  {
    forall i, j | 0 <= i < j < |ks| ensures NumericBefore(ks[i], ks[j]) {
      var a, b := ks[i], ks[j];
      assert a in ks && b in ks;
      assert KeyBefore(a, b) && !KeyBefore(b, a);
      assert a == b || NumericBefore(a, b) || NumericBefore(b, a);
    }
  }

  lemma {:induction false} SortedMeansSafe(ks: seq<string>, keys: set<string>)
    requires StrictTotalOrder(NumericBefore)
    requires Lists(ks, keys) && StrictlySorted(ks, KeyBefore) && StrictlySorted(ks, NumericBefore)
    ensures SafeKeys(keys)
  {
    forall a, b | a in keys && b in keys && NumericBefore(a, b) ensures KeyBefore(a, b) {
      assert a in ks && b in ks;
      var i :| 0 <= i < |ks| && ks[i] == a;
      var j :| 0 <= j < |ks| && ks[j] == b;
      assert !NumericBefore(b, a) && !NumericBefore(a, a);
    }
  }

  lemma {:induction false} OrdersAgree(keys: set<string>)
    ensures ScriptOrder(keys) == Utf16Order(keys) <==> SafeKeys(keys)
  {
    KeyBeforeIsStrictTotalOrder();
    ScriptOrderSorts(keys);
    var ks := Utf16Order(keys);
    if SafeKeys(keys) {
      SafeMeansSorted(ks, keys);
      SortedIsUnique(ks, keys, NumericBefore);
    } else if ScriptOrder(keys) == ks {
      SortedMeansSafe(ks, keys);
    }
  }

  /** The two orders coincide on every object inside the value. */
  ghost predicate SameOrders(v: Json, o: KeyOrder, p: KeyOrder)
    decreases v
  {
    match v
    case Null => true
    case Bool(_) => true
    case Number(_) => true
    case String(_) => true
    case Array(items) => forall i | 0 <= i < |items| :: SameOrders(items[i], o, p)
    case Object(members) => o(members.Keys) == p(members.Keys) && forall k | k in members ::
      SameOrders(members[k], o, p)
  }

  lemma {:induction false} SameArrangement(v: Json, o: KeyOrder, p: KeyOrder)
    requires Enumerates(o) && Enumerates(p)
    ensures Arrange(v, o) == Arrange(v, p) <==> SameOrders(v, o, p)
    decreases v
  {
    match v
    case Null =>
    case Bool(_) =>
    case Number(_) =>
    case String(_) =>
    case Array(items) =>
      var x, y := Arrange(v, o).items, Arrange(v, p).items;
      forall i | 0 <= i < |items|
        ensures x[i] == y[i] <==> SameOrders(items[i], o, p)
      {
        SameArrangement(items[i], o, p);
      }
    case Object(members) =>
      forall k | k in members
        ensures Arrange(members[k], o) == Arrange(members[k], p) <==> SameOrders(members[k], o, p)
      {
        SameArrangement(members[k], o, p);
      }
      var s, u := o(members.Keys), p(members.Keys);
      var x, y := ArrangeMembers(v, s, o), ArrangeMembers(v, u, p);
      assert x == y ==> s == u by { SameMemberKeys(v, s, u, x, y); }
      forall k | k in members ensures exists i :: 0 <= i < |s| && s[i] == k { assert k in s; }
      assert forall i | 0 <= i < |s| :: s[i] in s;
  }

  lemma {:induction false} SameMemberKeys(v: Json, s: seq<string>, u: seq<string>, x: seq<Member>, y: seq<Member>)
    requires |x| == |s| && |y| == |u|
    requires forall i | 0 <= i < |s| :: x[i].key == s[i]
    requires forall i | 0 <= i < |u| :: y[i].key == u[i]
    ensures x == y ==> s == u
  {
    if x == y {
      forall i | 0 <= i < |s| ensures s[i] == u[i] { assert x[i].key == y[i].key; }
    }
  }

  lemma {:induction false} SameOrdersMeansSafe(v: Json)
    ensures SameOrders(v, ScriptOrder, Utf16Order) <==> OrderSafe(v)
    decreases v
  {
    match v
    case Null =>
    case Bool(_) =>
    case Number(_) =>
    case String(_) =>
    case Array(items) =>
      forall i | 0 <= i < |items| ensures SameOrders(items[i], ScriptOrder, Utf16Order) <==> OrderSafe(items[i]) {
        SameOrdersMeansSafe(items[i]);
      }
    case Object(members) =>
      OrdersAgree(members.Keys);
      forall k | k in members ensures SameOrders(members[k], ScriptOrder, Utf16Order) <==> OrderSafe(members[k]) {
        SameOrdersMeansSafe(members[k]);
      }
  }

  /** Both writers print the same text exactly for the values whose array-index keys already sort first. */
  lemma {:induction false} WritersAgree(v: Json)
    ensures ScriptText(v) == Encode(CanonicalText(v)) <==> OrderSafe(v)
  {
    ScriptOrderEnumerates();
    Utf16OrderEnumerates();
    var x, y := Arrange(v, ScriptOrder), Arrange(v, Utf16Order);
    PrintersAgree(x);
    SameArrangement(v, ScriptOrder, Utf16Order);
    SameOrdersMeansSafe(v);
    if Encode(Print(x)) == Encode(Print(y)) {
      EncodeInjective(Print(x), Print(y));
      ArrangedTokens(v, ScriptOrder);
      ArrangedTokens(v, Utf16Order);
      PrintReads(x);
      PrintReads(y);
    }
  }

  /** The laptop's text, too, determines the value, whatever its keys. */
  lemma {:induction false} ScriptTextIsUnambiguous(v: Json, w: Json)
    ensures ScriptText(v) == ScriptText(w) <==> v == w
  {
    ScriptOrderEnumerates();
    PrintersAgree(Arrange(v, ScriptOrder));
    PrintersAgree(Arrange(w, ScriptOrder));
    PrintedReadsBack(v, ScriptOrder);
    PrintedReadsBack(w, ScriptOrder);
    if ScriptText(v) == ScriptText(w) {
      EncodeInjective(Print(Arrange(v, ScriptOrder)), Print(Arrange(w, ScriptOrder)));
    }
  }

  // ----- the bytes -----

  /** What the laptop signs and hashes. */
  ghost function ScriptBytes(v: Json): Utf8.Bytes { Utf8.OfUnits(ScriptText(v)) }

  lemma {:induction false} ScriptBytesEncode(v: Json)
    ensures Enumerates(ScriptOrder) && ScriptBytes(v) == Utf8.Encode(Print(Arrange(v, ScriptOrder)))
  {
    ScriptOrderEnumerates();
    PrintersAgree(Arrange(v, ScriptOrder));
    Utf8.OfUnitsEncodes(Print(Arrange(v, ScriptOrder)));
  }

  /** The laptop's bytes determine the value. */
  lemma {:induction false} ScriptBytesAreUnambiguous(v: Json, w: Json)
    ensures ScriptBytes(v) == ScriptBytes(w) <==> v == w
  {
    ScriptBytesEncode(v);
    ScriptBytesEncode(w);
    if ScriptBytes(v) == ScriptBytes(w) {
      Utf8.EncodeInjective(Print(Arrange(v, ScriptOrder)), Print(Arrange(w, ScriptOrder)));
      PrintedReadsBack(v, ScriptOrder);
      PrintedReadsBack(w, ScriptOrder);
    }
  }

  /** Both sides write the same bytes for a value exactly when the two key orders agree throughout it. */
  lemma {:induction false} WritersAgreeOnBytes(v: Json)
    ensures ScriptBytes(v) == CanonicalBytes(v) <==> OrderSafe(v)
  {
    WritersAgree(v);
    ScriptBytesEncode(v);
    PrintersAgree(Arrange(v, ScriptOrder));
    if ScriptBytes(v) == CanonicalBytes(v) {
      Utf8.EncodeInjective(Print(Arrange(v, ScriptOrder)), CanonicalText(v));
    }
    if ScriptText(v) == Encode(CanonicalText(v)) {
      EncodeInjective(Print(Arrange(v, ScriptOrder)), CanonicalText(v));
    }
  }

  // ----- values whose keys are not array indexes -----

  predicate NoIndexKeys(v: Json)
    decreases v
  {
    match v
    case Null => true
    case Bool(_) => true
    case Number(_) => true
    case String(_) => true
    case Array(items) => forall i | 0 <= i < |items| :: NoIndexKeys(items[i])
    case Object(members) => forall k | k in members :: !IsArrayIndex(k) && NoIndexKeys(members[k])
  }

  lemma {:induction false} NoIndexKeysIsSafe(v: Json)
    requires NoIndexKeys(v)
    ensures OrderSafe(v)
    decreases v
  {
    match v
    case Null =>
    case Bool(_) =>
    case Number(_) =>
    case String(_) =>
    case Array(items) =>
      forall i | 0 <= i < |items| ensures OrderSafe(items[i]) { NoIndexKeysIsSafe(items[i]); }
    case Object(members) =>
      forall k | k in members ensures OrderSafe(members[k]) { NoIndexKeysIsSafe(members[k]); }
  }

  lemma {:induction false} TenAndNine()
    ensures IsArrayIndex("9") && IsArrayIndex("10") && NatOf("9") == 9 && NatOf("10") == 10
  {
    assert DigitValues("9") == [9] && DigitValues("10") == [1, 0];
    assert Value([9], 10) == 9;
    assert [1, 0][..1] == [1] && Value([1], 10) == 1;
  }

  lemma {:induction false} NineIsNotBeforeTen()
    ensures !KeyBefore("9", "10")
  {
    EncodeAscii("9");
    EncodeAscii("10");
  }

  /** The exception is real: keys "10" and "9" come out in the other order. */
  lemma {:induction false} IndexKeysDisagree(v: Json)
    requires v == Object(map["10" := Null, "9" := Null])
    ensures ScriptText(v) != Encode(CanonicalText(v))
  {
    WritersAgree(v);
    TenAndNine();
    NineIsNotBeforeTen();
    assert "9" in v.members.Keys && "10" in v.members.Keys && NumericBefore("9", "10");
  }
}
