/** A reader for canonical JSON; it shows that the printed text determines the printed value. */
module JsonReader {
  import opened Wrappers
  import opened DecimalText
  import opened CanonicalJson

  // ----- strings -----

  function HexValue(c: char): int {
    if '0' <= c <= '9' then c as int - '0' as int
    else if 'a' <= c <= 'f' then c as int - 'a' as int + 10
    else -1
  }

  /** One character of a string literal and the text after it; None at the closing quote or on bad input. */
  function ReadChar(t: string): (r: Option<(char, string)>)
    ensures r.Some? ==> |r.value.1| < |t|
  {
    if t == "" || t[0] == '"' then None
    else if t[0] != '\\' then Some((t[0], t[1..]))
    else if |t| < 2 then None
    else if t[1] == '"' || t[1] == '\\' then Some((t[1], t[2..]))
    else if t[1] == 'b' then Some((8 as char, t[2..]))
    else if t[1] == 'f' then Some((12 as char, t[2..]))
    else if t[1] == 'n' then Some(('\n', t[2..]))
    else if t[1] == 'r' then Some(('\r', t[2..]))
    else if t[1] == 't' then Some(('\t', t[2..]))
    else if t[1] == 'u' && |t| >= 6 && t[2] == '0' && t[3] == '0' && HexValue(t[4]) >= 0 && HexValue(t[5]) >= 0 then
      Some(((HexValue(t[4]) * 16 + HexValue(t[5])) as char, t[6..]))
    else None
  }

  /** The rest of a string literal, up to and including the closing quote. */
  function ReadString(t: string): (r: Option<(string, string)>)
    ensures r.Some? ==> |r.value.1| < |t|
    decreases |t|
  {
    if t != "" && t[0] == '"' then Some(("", t[1..]))
    else match ReadChar(t)
      case None => None
      case Some((c, t1)) =>
        match ReadString(t1)
        case None => None
        case Some((s, t2)) => Some(([c] + s, t2))
  }

  lemma {:induction false} ReadEscaped(c: char, rest: string)
    ensures ReadChar(Escape(c) + rest) == Some((c, rest))
    ensures (Escape(c) + rest)[0] != '"'
  {
    var e := Escape(c);
    assert (e + rest)[|e|..] == rest;
  }

  lemma {:induction false} ReadQuoted(s: string, rest: string)
    ensures ReadString(QuoteRest(s) + rest) == Some((s, rest))
  {
    if s == "" {
      assert ("\"" + rest)[1..] == rest;
    } else {
      var t := QuoteRest(s) + rest;
      assert t == Escape(s[0]) + (QuoteRest(s[1..]) + rest);
      ReadEscaped(s[0], QuoteRest(s[1..]) + rest);
      ReadQuoted(s[1..], rest);
      assert [s[0]] + s[1..] == s;
    }
  }

  // ----- numbers -----

  predicate NumberChar(c: char) { IsDigit(c) || c == '-' || c == '+' || c == '.' || c == 'e' }

  function NumberEnd(t: string, from: nat): (i: nat)
    requires from <= |t|
    ensures from <= i <= |t|
    ensures forall j | from <= j < i :: NumberChar(t[j])
    ensures i < |t| ==> !NumberChar(t[i])
    decreases |t| - from
  {
    if from < |t| && NumberChar(t[from]) then NumberEnd(t, from + 1) else from
  }

  predicate NumberText(text: string) { text != "" && forall i | 0 <= i < |text| :: NumberChar(text[i]) }

  predicate Ends(rest: string) { rest == "" || !NumberChar(rest[0]) }

  lemma {:induction false} NumberEndsAt(text: string, rest: string)
    requires NumberText(text) && Ends(rest)
    ensures NumberEnd(text + rest, 0) == |text|
  {
    var t := text + rest;
    var i := NumberEnd(t, 0);
    assert forall j | 0 <= j < |text| :: t[j] == text[j];
    assert rest != "" ==> t[|text|] == rest[0];
  }

  // ----- values -----

  function ReadNode(t: string): (r: Option<(Node, string)>)
    ensures r.Some? ==> |r.value.1| < |t|
    decreases |t|, 0
  {
    if t == "" then None
    else if t[0] == 'n' then if "null" <= t then Some((NNull, t[4..])) else None
    else if t[0] == 't' then if "true" <= t then Some((NBool(true), t[4..])) else None
    else if t[0] == 'f' then if "false" <= t then Some((NBool(false), t[5..])) else None
    else if t[0] == '"' then
      match ReadString(t[1..])
      case None => None
      case Some((s, t1)) => Some((NString(s), t1))
    else if t[0] == '[' then
      match ReadItems(t[1..], true)
      case None => None
      case Some((items, t1)) => Some((NArray(items), t1))
    else if t[0] == '{' then
      match ReadMembers(t[1..], true)
      case None => None
      case Some((members, t1)) => Some((NObject(members), t1))
    else
      var i := NumberEnd(t, 0);
      if i == 0 then None else Some((NNumber(t[..i]), t[i..]))
  }

  function ReadItems(t: string, first: bool): (r: Option<(seq<Node>, string)>)
    ensures r.Some? ==> |r.value.1| < |t|
    decreases |t|, 1
  {
    if t == "" then None
    else if t[0] == ']' then Some(([], t[1..]))
    else if !first && t[0] != ',' then None
    else
      match ReadNode(if first then t else t[1..])
      case None => None
      case Some((x, t1)) =>
        match ReadItems(t1, false)
        case None => None
        case Some((xs, t2)) => Some(([x] + xs, t2))
  }

  function ReadMembers(t: string, first: bool): (r: Option<(seq<Member>, string)>)
    ensures r.Some? ==> |r.value.1| < |t|
    decreases |t|, 1
  {
    if t == "" then None
    else if t[0] == '}' then Some(([], t[1..]))
    else if !first && t[0] != ',' then None
    else
      match ReadMember(if first then t else t[1..])
      case None => None
      case Some((m, t1)) =>
        match ReadMembers(t1, false)
        case None => None
        case Some((ms, t2)) => Some(([m] + ms, t2))
  }

  function ReadMember(t: string): (r: Option<(Member, string)>)
    ensures r.Some? ==> |r.value.1| < |t|
    decreases |t|, 0
  {
    if t == "" || t[0] != '"' then None
    else
      match ReadString(t[1..])
      case None => None
      case Some((key, t1)) =>
        if t1 == "" || t1[0] != ':' then None
        else
          match ReadNode(t1[1..])
          case None => None
          case Some((v, t2)) => Some((Member(key, v), t2))
  }

  // ----- reading back what was printed -----

  /** Every number in the tree is a number token. */
  predicate Tokens(n: Node) {
    match n
    case NNull => true
    case NBool(_) => true
    case NNumber(text) => NumberText(text)
    case NString(_) => true
    case NArray(items) => forall i | 0 <= i < |items| :: Tokens(items[i])
    case NObject(members) => forall i | 0 <= i < |members| :: Tokens(members[i].value)
  }

  /** The first character is never a closing bracket. */
  lemma {:induction false} PrintHead(n: Node)
    requires Tokens(n)
    ensures Print(n) != "" && Print(n)[0] != ']'
  {
  }

  lemma {:induction false} ReadNumber(text: string, rest: string, t: string)
    requires NumberText(text) && t == text + rest && Ends(rest)
    ensures ReadNode(t) == Some((NNumber(text), rest))
  {
    NumberEndsAt(text, rest);
    assert t[..|text|] == text && t[|text|..] == rest;
    assert t[0] == text[0] && NumberChar(text[0]);
  }

  lemma {:induction false} ReadLiteral(n: Node, rest: string, t: string)
    requires (n.NNull? || n.NBool?) && t == Print(n) + rest
    ensures ReadNode(t) == Some((n, rest))
  {
    match n
    case NNull => assert t[4..] == rest && "null" <= t;
    case NBool(b) =>
      if b { assert t[4..] == rest && "true" <= t; } else { assert t[5..] == rest && "false" <= t; }
  }

  lemma {:induction false} ReadStringNode(s: string, rest: string, t: string)
    requires t == Quote(s) + rest
    ensures ReadNode(t) == Some((NString(s), rest))
  {
    assert t[1..] == QuoteRest(s) + rest;
    ReadQuoted(s, rest);
  }

  lemma {:induction false} ReadItemsStep(
    t: string, first: bool, body: string, x: Node, tail: string, xs: seq<Node>, rest: string)
    requires t == if first then body else "," + body
    requires body != "" && body[0] != ']' && ReadNode(body) == Some((x, tail))
    requires ReadItems(tail, false) == Some((xs, rest))
    ensures ReadItems(t, first) == Some(([x] + xs, rest))
  {
    assert !first ==> t[1..] == body;
  }

  lemma {:induction false} ReadMembersStep(
    t: string, first: bool, body: string, m: Member, tail: string, ms: seq<Member>, rest: string)
    requires t == if first then body else "," + body
    requires body != "" && body[0] == '"' && ReadMember(body) == Some((m, tail))
    requires ReadMembers(tail, false) == Some((ms, rest))
    ensures ReadMembers(t, first) == Some(([m] + ms, rest))
  {
    assert !first ==> t[1..] == body;
  }

  lemma {:induction false} ReadMemberStep(t: string, key: string, value: string, v: Node, rest: string)
    requires t == Quote(key) + ":" + value && ReadNode(value) == Some((v, rest))
    ensures t[0] == '"' && ReadMember(t) == Some((Member(key, v), rest))
  {
    var after := ":" + value;
    assert t[1..] == QuoteRest(key) + after;
    ReadQuoted(key, after);
    assert after[1..] == value;
  }

  lemma {:induction false} ReadArrayStep(t: string, inner: string, items: seq<Node>, rest: string)
    requires t == "[" + inner && ReadItems(inner, true) == Some((items, rest))
    ensures ReadNode(t) == Some((NArray(items), rest))
  {
    assert t[1..] == inner;
  }

  lemma {:induction false} ReadObjectStep(t: string, inner: string, members: seq<Member>, rest: string)
    requires t == "{" + inner && ReadMembers(inner, true) == Some((members, rest))
    ensures ReadNode(t) == Some((NObject(members), rest))
  {
    assert t[1..] == inner;
  }

  lemma {:induction false} ReadPrinted(n: Node, rest: string, t: string)
    requires Tokens(n) && t == Print(n) + rest && Ends(rest)
    ensures ReadNode(t) == Some((n, rest))
    decreases n, 1
  {
    match n
    case NNull => ReadLiteral(n, rest, t);
    case NBool(b) => ReadLiteral(n, rest, t);
    case NNumber(text) => ReadNumber(text, rest, t);
    case NString(s) => ReadStringNode(s, rest, t);
    case NArray(items) => ReadPrintedArray(items, rest, t);
    case NObject(members) => ReadPrintedObject(members, rest, t);
  }

  lemma {:induction false} ReadPrintedArray(items: seq<Node>, rest: string, t: string)
    requires (forall i | 0 <= i < |items| :: Tokens(items[i])) && t == "[" + Items(items, true) + rest
    ensures ReadNode(t) == Some((NArray(items), rest))
    decreases items, 1
  {
    var inner := Items(items, true) + rest;
    ReadPrintedItems(items, true, rest, inner);
    assert t == "[" + inner;
    ReadArrayStep(t, inner, items, rest);
  }

  lemma {:induction false} ReadPrintedObject(members: seq<Member>, rest: string, t: string)
    requires (forall i | 0 <= i < |members| :: Tokens(members[i].value)) && t == "{" + Members(members, true) + rest
    ensures ReadNode(t) == Some((NObject(members), rest))
    decreases members, 1
  {
    var inner := Members(members, true) + rest;
    ReadPrintedMembers(members, true, rest, inner);
    assert t == "{" + inner;
    ReadObjectStep(t, inner, members, rest);
  }

  lemma {:induction false} ReadPrintedItems(items: seq<Node>, first: bool, rest: string, t: string)
    requires (forall i | 0 <= i < |items| :: Tokens(items[i])) && t == Items(items, first) + rest
    ensures ReadItems(t, first) == Some((items, rest))
    decreases items, 0
  {
    if items == [] {
      assert t[1..] == rest;
    } else {
      var tail := Items(items[1..], false) + rest;
      var body := Print(items[0]) + tail;
      ItemsText(items, first, rest, t, tail, body);
      ReadPrinted(items[0], tail, body);
      ReadPrintedItems(items[1..], false, rest, tail);
      ReadItemsStep(t, first, body, items[0], tail, items[1..], rest);
      assert items == [items[0]] + items[1..];
    }
  }

  lemma {:induction false} ReadPrintedMember(m: Member, tail: string, body: string)
    requires Tokens(m.value) && Ends(tail) && body == Quote(m.key) + ":" + (Print(m.value) + tail)
    ensures body != "" && body[0] == '"' && ReadMember(body) == Some((m, tail))
    decreases m.value, 2
  {
    var value := Print(m.value) + tail;
    ReadPrinted(m.value, tail, value);
    ReadMemberStep(body, m.key, value, m.value, tail);
  }

  lemma {:induction false} ReadNoMembers(first: bool, rest: string, t: string)
    requires t == Members([], first) + rest
    ensures ReadMembers(t, first) == Some(([], rest))
  {
    assert t[1..] == rest;
  }

  lemma {:induction false} ReadPrintedMembers(members: seq<Member>, first: bool, rest: string, t: string)
    requires (forall i | 0 <= i < |members| :: Tokens(members[i].value)) && t == Members(members, first) + rest
    ensures ReadMembers(t, first) == Some((members, rest))
    decreases members, 0
  {
    hide Print, Quote, ReadMembers, ReadMember;
    if members == [] {
      ReadNoMembers(first, rest, t);
    } else {
      var m, ms := members[0], members[1..];
      var tail := Members(ms, false) + rest;
      var value := Print(m.value) + tail;
      var body := Quote(m.key) + ":" + value;
      MembersText(members, first, rest, t, tail, value, body);
      ReadPrintedMember(m, tail, body);
      assert forall i | 0 <= i < |ms| :: ms[i] == members[i + 1];
      ReadPrintedMembers(ms, false, rest, tail);
      ReadMembersStep(t, first, body, m, tail, ms, rest);
      assert members == [m] + ms;
    }
  }

  lemma {:induction false} ItemsText(items: seq<Node>, first: bool, rest: string, t: string, tail: string, body: string)
    requires items != [] && Tokens(items[0]) && t == Items(items, first) + rest
    requires tail == Items(items[1..], false) + rest && body == Print(items[0]) + tail
    ensures t == if first then body else "," + body
    ensures Ends(tail) && body != "" && body[0] != ']'
  {
    var p, after := Print(items[0]), Items(items[1..], false);
    PrintHead(items[0]);
    assert after[0] == ']' || after[0] == ',';
    Glue(if first then "" else ",", p, after, rest);
    assert "" + body == body;
  }

  lemma {:induction false} Glue(c: string, p: string, after: string, rest: string)
    ensures c + p + after + rest == c + (p + (after + rest))
  {
  }

  lemma {:induction false} MembersText(
    members: seq<Member>, first: bool, rest: string, t: string, tail: string, value: string, body: string)
    requires members != [] && t == Members(members, first) + rest
    requires tail == Members(members[1..], false) + rest && value == Print(members[0].value) + tail
    requires body == Quote(members[0].key) + ":" + value
    ensures t == if first then body else "," + body
    ensures Ends(tail)
  {
    var q, p, after := Quote(members[0].key), Print(members[0].value), Members(members[1..], false);
    Reassociate(if first then "" else ",", q, p, after, rest);
    assert "" + body == body;
    assert after[0] == '}' || after[0] == ',';
  }

  lemma {:induction false} Reassociate(c: string, q: string, p: string, after: string, rest: string)
    ensures c + q + ":" + p + after + rest == c + (q + ":" + (p + (after + rest)))
  {
  }

  /** The reader inverts the printer. */
  lemma {:induction false} PrintReads(n: Node)
    requires Tokens(n)
    ensures ReadNode(Print(n)) == Some((n, ""))
  {
    assert Print(n) == Print(n) + "";
    ReadPrinted(n, "", Print(n));
  }
}
