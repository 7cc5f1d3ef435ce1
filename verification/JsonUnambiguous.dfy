/** Equal canonical bytes mean equal values, whatever order the members were printed in. */
module JsonUnambiguous {
  import opened Wrappers
  import Utf8
  import opened DecimalText
  import opened CanonicalJson
  import opened JsonReader

  // ----- printed numbers are tokens -----

  lemma {:induction false} ScientificChars(digits: string, exponent: string, text: string)
    requires digits != "" && AllDigits(digits) && NumberText(exponent) && text == Scientific(digits, exponent)
    ensures NumberText(text)
  {
  }

  lemma {:induction false} UnsignedChars(digits: string, n: int, text: string)
    requires digits != "" && AllDigits(digits) && text == Unsigned(digits, n)
    ensures NumberText(text)
  {
    if !(|digits| <= n <= 21) && !(0 < n <= 21) && !(-6 < n <= 0) {
      assert NumberText(ExponentText(n - 1));
      ScientificChars(digits, ExponentText(n - 1), text);
    }
  }

  lemma {:induction false} EcmaTextIsToken(d: Decimal)
    ensures NumberText(EcmaText(d))
  {
    match d
    case Zero =>
    case Finite(negative, digits, n) =>
      UnsignedChars(digits, n, Unsigned(digits, n));
  }

  lemma {:induction false} ArrangedTokens(v: Json, order: KeyOrder)
    requires Enumerates(order)
    ensures Tokens(Arrange(v, order))
    decreases v
  {
    match v
    case Null =>
    case Bool(_) =>
    case Number(d) => EcmaTextIsToken(d);
    case String(_) =>
    case Array(items) =>
      forall i | 0 <= i < |items| ensures Tokens(Arrange(v, order).items[i]) { ArrangedTokens(items[i], order); }
    case Object(members) =>
      var keys := order(members.Keys);
      forall i | 0 <= i < |keys| ensures Tokens(Arrange(v, order).members[i].value) {
        assert keys[i] in keys;
        ArrangedTokens(members[keys[i]], order);
      }
  }

  // ----- back to values -----

  /** Later members win, as in every JSON reader. */
  function LastWith(members: seq<Member>, key: string): (i: nat)
    requires exists j | 0 <= j < |members| :: members[j].key == key
    ensures i < |members| && members[i].key == key
  {
    if members[|members| - 1].key == key then |members| - 1 else LastWith(members[..|members| - 1], key)
  }

  function Keys(members: seq<Member>): set<string> {
    set i | 0 <= i < |members| :: members[i].key
  }

  function Forget(n: Node): Json
    decreases n
  {
    match n
    case NNull => Null
    case NBool(b) => Bool(b)
    case NNumber(text) => (match ParseNumber(text) case None => Null case Some(d) => Number(d))
    case NString(s) => String(s)
    case NArray(items) => Array(seq(|items|, i requires 0 <= i < |items| => Forget(items[i])))
    case NObject(members) => Object(map k | k in Keys(members) :: Forget(members[LastWith(members, k)].value))
  }

  function ReadJson(text: string): Option<Json> {
    match ReadNode(text)
    case None => None
    case Some((n, rest)) => if rest == "" then Some(Forget(n)) else None
  }

  lemma {:induction false} ForgetArranged(v: Json, order: KeyOrder)
    requires Enumerates(order)
    ensures Forget(Arrange(v, order)) == v
    decreases v
  {
    match v
    case Null =>
    case Bool(_) =>
    case Number(d) => EcmaTextReads(d);
    case String(_) =>
    case Array(items) =>
      forall i | 0 <= i < |items|
        ensures Forget(Arrange(v, order)).items[i] == items[i] { ForgetArranged(items[i], order); }
    case Object(members) =>
      ForgetMembers(v, order);
  }

  lemma {:induction false} ForgetMembers(v: Json, order: KeyOrder)
    requires Enumerates(order) && v.Object?
    ensures Forget(Arrange(v, order)) == v
    decreases v, 0
  {
    var keys, ms := order(v.members.Keys), Arrange(v, order).members;
    forall k ensures k in Keys(ms) <==> k in v.members {
      if k in Keys(ms) { var i :| 0 <= i < |ms| && ms[i].key == k; assert keys[i] in keys; }
      if k in v.members { assert k in keys; var i :| 0 <= i < |keys| && keys[i] == k; assert ms[i].key == k; }
    }
    forall k | k in v.members ensures Forget(ms[LastWith(ms, k)].value) == v.members[k] {
      ForgetArranged(v.members[k], order);
    }
  }

  /** Reading what any of the writers printed gives the value back. */
  lemma {:induction false} PrintedReadsBack(v: Json, order: KeyOrder)
    requires Enumerates(order)
    ensures ReadJson(Print(Arrange(v, order))) == Some(v)
  {
    ArrangedTokens(v, order);
    PrintReads(Arrange(v, order));
    ForgetArranged(v, order);
  }

  /** Equal canonical texts mean equal values. */
  lemma {:induction false} CanonicalTextIsUnambiguous(v: Json, w: Json)
    ensures ReadJson(CanonicalText(v)) == Some(v)
    ensures CanonicalText(v) == CanonicalText(w) <==> v == w
  {
    Utf16OrderEnumerates();
    PrintedReadsBack(v, Utf16Order);
    PrintedReadsBack(w, Utf16Order);
  }

  /** What the native side signs. */
  ghost function CanonicalBytes(v: Json): Utf8.Bytes { Utf8.Encode(CanonicalText(v)) }

  /** Equal canonical bytes mean equal values. */
  lemma {:induction false} CanonicalBytesAreUnambiguous(v: Json, w: Json)
    ensures CanonicalBytes(v) == CanonicalBytes(w) <==> v == w
  {
    CanonicalTextIsUnambiguous(v, w);
    if CanonicalBytes(v) == CanonicalBytes(w) {
      Utf8.EncodeInjective(CanonicalText(v), CanonicalText(w));
    }
  }
}
