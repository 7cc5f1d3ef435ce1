/** The canonical JSON printer that signatures are computed over. */
module CanonicalJson {
  import opened Utf16
  import opened KeySort
  import opened DecimalText

  datatype Json =
    | Null
    | Bool(b: bool)
    | Number(d: Decimal)
    | String(s: string)
    | Array(items: seq<Json>)
    | Object(members: map<string, Json>)

  /** A value with its numbers rendered and its object members in printing order. */
  datatype Node =
    | NNull
    | NBool(b: bool)
    | NNumber(text: string)
    | NString(s: string)
    | NArray(items: seq<Node>)
    | NObject(members: seq<Member>)
  datatype Member = Member(key: string, value: Node)

  // ----- text -----

  function HexDigit(n: nat): char
    requires n < 16
  {
    if n < 10 then ('0' as int + n) as char else ('a' as int + n - 10) as char
  }

  function Escape(c: char): string {
    if c == '"' then "\\\""
    else if c == '\\' then "\\\\"
    else if c == 8 as char then "\\b"
    else if c == 12 as char then "\\f"
    else if c == '\n' then "\\n"
    else if c == '\r' then "\\r"
    else if c == '\t' then "\\t"
    else if c as int < 0x20 then "\\u00" + [HexDigit(c as int / 16), HexDigit(c as int % 16)]
    else [c]
  }

  /**
   * Only the quote, the backslash and the control characters are escaped: those with a short escape by it, the others
   * by their code in four hexadecimal digits of lower case.
   */
  lemma {:induction false} EscapesExactly(c: char)
    ensures var short, letters, hex := ['"', '\\', 8 as char, 12 as char, '\n', '\r', '\t'], "\"\\bfnrt",
              "0123456789abcdef";
            && (Escape(c) == [c] <==> ' ' <= c && c != '"' && c != '\\')
            && (forall i | 0 <= i < 7 :: short[i] == c ==> Escape(c) == ['\\', letters[i]])
            && (c < ' ' && c !in short ==>
                  Escape(c) == ['\\', 'u', '0', '0', hex[c as int / 16], hex[c as int % 16]])
  {
    var hex := "0123456789abcdef";
    assert forall n: nat | n < 16 :: HexDigit(n) == hex[n];
  }

  /** The escaped characters and the closing quote. */
  function QuoteRest(s: string): string {
    if s == "" then "\"" else Escape(s[0]) + QuoteRest(s[1..])
  }

  function Quote(s: string): string { "\"" + QuoteRest(s) }

  function Print(n: Node): string
    decreases n, 1
  {
    match n
    case NNull => "null"
    case NBool(b) => if b then "true" else "false"
    case NNumber(text) => text
    case NString(s) => Quote(s)
    case NArray(items) => "[" + Items(items, true)
    case NObject(members) => "{" + Members(members, true)
  }

  /** What remains to be printed of an array whose elements from here on are `items`. */
  function Items(items: seq<Node>, first: bool): string
    decreases items, 0
  {
    if items == [] then "]"
    else (if first then "" else ",") + Print(items[0]) + Items(items[1..], false)
  }

  function Members(members: seq<Member>, first: bool): string
    decreases members, 0
  {
    if members == [] then "}"
    else
      (if first then "" else ",") + Quote(members[0].key) + ":" + Print(members[0].value)
      + Members(members[1..], false)
  }

  // ----- ordering the members of every object -----

  type KeyOrder = set<string> -> seq<string>

  ghost predicate NoRepeats(ks: seq<string>) {
    forall i, j | 0 <= i < j < |ks| :: ks[i] != ks[j]
  }

  /** The order lists each key of an object exactly once. */
  ghost predicate Enumerates(order: KeyOrder) {
    forall keys :: Lists(order(keys), keys) && NoRepeats(order(keys))
  }

  ghost function Arrange(v: Json, order: KeyOrder): Node
    requires Enumerates(order)
    decreases v, 1
  {
    match v
    case Null => NNull
    case Bool(b) => NBool(b)
    case Number(d) => NNumber(EcmaText(d))
    case String(s) => NString(s)
    case Array(items) => NArray(seq(|items|, i requires 0 <= i < |items| => Arrange(items[i], order)))
    case Object(members) => NObject(ArrangeMembers(v, order(members.Keys), order))
  }

  ghost function ArrangeMembers(v: Json, keys: seq<string>, order: KeyOrder): (ms: seq<Member>)
    requires Enumerates(order) && v.Object? && forall k | k in keys :: k in v.members
    ensures |ms| == |keys|
    ensures forall i | 0 <= i < |keys| :: ms[i] == Member(keys[i], Arrange(v.members[keys[i]], order))
    decreases v, 0
  {
    seq(|keys|, i requires 0 <= i < |keys| => Member(keys[i], Arrange(v.members[keys[i]], order)))
  }

  /** Keys by UTF-16 code unit. */
  ghost function Utf16Order(keys: set<string>): seq<string> {
    KeyBeforeIsStrictTotalOrder();
    Sorted(keys, KeyBefore)
  }

  lemma {:induction false} Utf16OrderEnumerates()
    ensures Enumerates(Utf16Order)
  {
    KeyBeforeIsStrictTotalOrder();
    forall keys: set<string> ensures Lists(Utf16Order(keys), keys) && NoRepeats(Utf16Order(keys)) {
      var ks := Utf16Order(keys);
      assert StrictlySorted(ks, KeyBefore);
    }
  }

  /** The text the native writer signs. */
  ghost function CanonicalText(v: Json): string {
    Utf16OrderEnumerates();
    Print(Arrange(v, Utf16Order))
  }

  // ----- the writer -----

  /** What the platform prints for the magnitude of a finite number. */
  ghost predicate Describes(describe: Decimal -> string) {
    forall d: Decimal | d.Finite? ::
      WellFormedRaw(describe(d)) && Denotation(d.negative, PartsOf(describe(d)).value) == d
  }

  function Describe(d: Decimal): string {
    if d.Finite? then Scientific(d.digits, ExponentText(d.point - 1)) else "0"
  }

  lemma {:induction false} DescribesOne(integer: string, fraction: string, exponent: string)
    requires integer != "" && integer[0] != '0' && AllDigits(integer) && AllDigits(fraction) && IntOf(exponent).Some?
    ensures WellFormedRaw(integer + "." + fraction + "e" + exponent) && WellFormedRaw(integer + "e" + exponent)
  {
    PartsOfScientific(integer, fraction, exponent);
  }

  /** Printing every number in scientific form is one way to do so. */
  lemma {:induction false} DescribingExists()
    ensures Describes(Describe)
  {
    forall d: Decimal | d.Finite?
      ensures WellFormedRaw(Describe(d)) && Denotation(d.negative, PartsOf(Describe(d)).value) == d
    {
      DescribeReads(d);
    }
  }

  lemma {:induction false} DescribeReads(d: Decimal)
    requires d.Finite?
    ensures WellFormedRaw(Describe(d)) && Denotation(d.negative, PartsOf(Describe(d)).value) == d
  {
    hide Denotation, PartsOf, Scientific, ExponentText;
    SignedExponent(d.point - 1);
    var text := Describe(d);
    assert WellFormedRaw(text) by { ScientificIsWellFormed(d.digits, ExponentText(d.point - 1)); }
    assert Reads(text, d.negative, d) by {
      ScientificReads(d.negative, d.digits, d.point - 1, ExponentText(d.point - 1));
    }
  }

  lemma {:induction false} ScientificIsWellFormed(digits: string, exponent: string)
    requires Significant(digits) && IntOf(exponent).Some?
    ensures WellFormedRaw(Scientific(digits, exponent))
  {
    if |digits| == 1 {
      DescribesOne(digits, "", exponent);
    } else {
      DescribesOne(digits[..1], digits[1..], exponent);
    }
  }

  method CanonicalNumber(d: Decimal, describe: Decimal -> string) returns (text: string)
    requires Describes(describe)
    ensures text == EcmaText(d)
  {
    if d == Zero {
      return "0";
    }
    text := EcmaScriptNumber(d.negative, describe(d));
  }

  method WriteString(value: string, into: string) returns (output: string)
    ensures output == into + Quote(value)
  {
    output := into + "\"";
    assert value[0..] == value;
    for i := 0 to |value|
      invariant output + QuoteRest(value[i..]) == into + Quote(value)
    {
      assert value[i..][1..] == value[i + 1..];
      output := output + Escape(value[i]);
    }
    output := output + "\"";
  }

  /** Sorts keys that come in any enumeration order, with the writer's comparison. */
  method SortKeys(keys: set<string>) returns (sorted: seq<string>)
    ensures sorted == Utf16Order(keys)
  {
    KeyBeforeIsStrictTotalOrder();
    sorted := [];
    var rest := keys;
    while rest != {}
      invariant rest <= keys && StrictlySorted(sorted, KeyBefore) && Lists(sorted, keys - rest)
    {
      var key :| key in rest;
      sorted := InsertKey(sorted, key);
      rest := rest - {key};
    }
    SortedIsUnique(sorted, keys, KeyBefore);
  }

  method InsertKey(sorted: seq<string>, key: string) returns (r: seq<string>)
    requires StrictlySorted(sorted, KeyBefore) && key !in sorted && StrictTotalOrder(KeyBefore)
    ensures StrictlySorted(r, KeyBefore)
    ensures forall k :: k in r <==> k in sorted || k == key
  {
    var i := 0;
    while i < |sorted|
      invariant i <= |sorted|
      invariant forall j | 0 <= j < i :: KeyBefore(sorted[j], key)
    {
      var before := PrecedesInUtf16Order(sorted[i], key);
      if !before { break; }
      i := i + 1;
    }
    r := sorted[..i] + [key] + sorted[i..];
    assert i < |sorted| ==> KeyBefore(key, sorted[i]);
  }

  lemma {:induction false} ItemsAdvance(nodes: seq<Node>, index: nat, output: string, printed: string, whole: string)
    requires index < |nodes| && output + Items(nodes[index..], index == 0) == whole
    requires printed == output + (if index > 0 then "," else "") + Print(nodes[index])
    ensures printed + Items(nodes[index + 1..], false) == whole
  {
    assert nodes[index..][1..] == nodes[index + 1..];
    Append(output, if index == 0 then "" else ",", Print(nodes[index]), Items(nodes[index + 1..], false));
  }

  lemma {:induction false} Append(a: string, b: string, c: string, d: string)
    ensures a + (b + c + d) == a + b + c + d
  {
  }

  /** The text of an object's members from the given one on. */
  ghost function MembersText(value: Json, keys: seq<string>, index: nat): string
    requires value.Object? && index <= |keys| && forall k | k in keys :: k in value.members
  {
    Utf16OrderEnumerates();
    Members(ArrangeMembers(value, keys, Utf16Order)[index..], index == 0)
  }

  lemma {:induction false} MembersTextStarts(value: Json, keys: seq<string>)
    requires value.Object? && keys == Utf16Order(value.members.Keys)
    ensures forall k | k in keys :: k in value.members
    ensures CanonicalText(value) == "{" + MembersText(value, keys, 0)
  {
    Utf16OrderEnumerates();
    assert Lists(keys, value.members.Keys);
    var nodes := ArrangeMembers(value, keys, Utf16Order);
    assert nodes[0..] == nodes;
  }

  lemma {:induction false} MembersTextAdvances(value: Json, keys: seq<string>, index: nat)
    requires value.Object? && index < |keys| && forall k | k in keys :: k in value.members
    ensures MembersText(value, keys, index) ==
      (if index > 0 then "," else "") + Quote(keys[index]) + ":" + CanonicalText(value.members[keys[index]])
      + MembersText(value, keys, index + 1)
  {
    Utf16OrderEnumerates();
    var nodes := ArrangeMembers(value, keys, Utf16Order);
    assert nodes[index..][1..] == nodes[index + 1..] && nodes[index..][0] == nodes[index];
  }

  lemma {:induction false} AppendMember(a: string, b: string, c: string, d: string, e: string)
    ensures a + (b + c + ":" + d + e) == a + b + c + ":" + d + e
  {
  }

  method WriteArray(value: Json, into: string, describe: Decimal -> string) returns (output: string)
    requires Describes(describe) && value.Array?
    ensures output == into + CanonicalText(value)
    decreases value, 0
  {
    Utf16OrderEnumerates();
    ghost var nodes, whole := Arrange(value, Utf16Order).items, into + CanonicalText(value);
    output := into + "[";
    assert nodes[0..] == nodes && output + Items(nodes, true) == whole;
    for index := 0 to |value.items|
      invariant output + Items(nodes[index..], index == 0) == whole
    {
      ghost var before := output;
      if index > 0 { output := output + ","; } else { assert output == output + ""; }
      output := Write(value.items[index], output, describe);
      ItemsAdvance(nodes, index, before, output, whole);
    }
    output := output + "]";
  }

  method WriteObject(value: Json, into: string, describe: Decimal -> string) returns (output: string)
    requires Describes(describe) && value.Object?
    ensures output == into + CanonicalText(value)
    decreases value, 0
  {
    output := into + "{";
    var keys := SortKeys(value.members.Keys);
    MembersTextStarts(value, keys);
    ghost var whole := into + CanonicalText(value);
    for index := 0 to |keys|
      invariant output + MembersText(value, keys, index) == whole
    {
      var key := keys[index];
      MembersTextAdvances(value, keys, index);
      AppendMember(output, if index > 0 then "," else "", Quote(key), CanonicalText(value.members[key]),
                   MembersText(value, keys, index + 1));
      output := WriteMember(index > 0, key, value.members[key], output, describe);
    }
    output := output + "}";
  }

  method WriteMember(comma: bool, key: string, member: Json, into: string, describe: Decimal -> string)
    returns (output: string)
    requires Describes(describe)
    ensures output == into + (if comma then "," else "") + Quote(key) + ":" + CanonicalText(member)
    decreases member, 2
  {
    if comma { output := into + ","; } else { output := into + ""; }
    output := WriteString(key, output);
    output := output + ":";
    output := Write(member, output, describe);
  }

  /** Appends the canonical text of a value. */
  method Write(value: Json, into: string, describe: Decimal -> string) returns (output: string)
    requires Describes(describe)
    ensures output == into + CanonicalText(value)
    decreases value, 1
  {
    match value
    case Null =>
      output := into + "null";
    case Bool(b) =>
      output := into + (if b then "true" else "false");
    case Number(d) =>
      var text := CanonicalNumber(d, describe);
      output := into + text;
    case String(s) =>
      output := WriteString(s, into);
    case Array(_) =>
      output := WriteArray(value, into, describe);
    case Object(_) =>
      output := WriteObject(value, into, describe);
  }
}
