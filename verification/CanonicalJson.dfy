/**
 The canonical text of a draft, and a reader of that text: equal texts are equal
 JSON values, with objects as finite maps and `undefined` members dropped.

 A string is a sequence of UTF-16 code units; a finite number is its shortest decimal.
 */
module CanonicalJson {
  import opened Wrappers
  import opened Sorting
  import opened ByteStrings
  import opened JsonNumbers
  import opened Texts

  /** A JavaScript value, as the printer tells them apart. */
  datatype Value =
    | Null
    | Undefined
    | Bool(b: bool)
    | Number(n: Decimal)
    | NonFinite
    | String(s: Text)
    | Array(items: seq<Value>)
    | Object(members: seq<Member>)
    | Unprintable  // a function, a symbol, a bigint

  datatype Member = Member(key: Text, value: Value)

  datatype Refusal = NonFiniteNumber | NotJson

  const QUOTE: CodeUnit := 34
  const COMMA: CodeUnit := 44
  const COLON: CodeUnit := 58
  const OPEN_BRACKET: CodeUnit := 91
  const BACKSLASH: CodeUnit := 92
  const CLOSE_BRACKET: CodeUnit := 93
  const OPEN_BRACE: CodeUnit := 123
  const CLOSE_BRACE: CodeUnit := 125
  const NULL: Text := [110, 117, 108, 108]
  const TRUE: Text := [116, 114, 117, 101]
  const FALSE: Text := [102, 97, 108, 115, 101]

  // ----- JSON.stringify of a string

  predicate HighSurrogate(u: CodeUnit) { 0xD800 <= u < 0xDC00 }

  predicate LowSurrogate(u: CodeUnit) { 0xDC00 <= u < 0xE000 }

  function HexDigit(d: int): CodeUnit
    requires 0 <= d < 16
  {
    if d < 10 then 48 + d else 87 + d
  }

  /** The letter that follows the backslash in a two-unit escape, when the unit has one. */
  function ShortEscape(u: CodeUnit): Option<CodeUnit> {
    if u == QUOTE || u == BACKSLASH then Some(u)
    else if u == 8 then Some(98)
    else if u == 9 then Some(116)
    else if u == 10 then Some(110)
    else if u == 12 then Some(102)
    else if u == 13 then Some(114)
    else None
  }

  /** A unit that is not half of a surrogate pair. */
  function EscapeUnit(u: CodeUnit): (t: Text)
    ensures |t| > 0
  {
    if ShortEscape(u).Some? then [BACKSLASH, ShortEscape(u).value]
    else if u < 32 || HighSurrogate(u) || LowSurrogate(u) then
      [BACKSLASH, 117, HexDigit(u / 4096), HexDigit(u / 256 % 16), HexDigit(u / 16 % 16), HexDigit(u % 16)]
    else [u]
  }

  function Escape(s: Text): Text {
    if s == [] then []
    else if HighSurrogate(s[0]) && |s| > 1 && LowSurrogate(s[1]) then [s[0], s[1]] + Escape(s[2..])
    else EscapeUnit(s[0]) + Escape(s[1..])
  }

  function Quoted(s: Text): Text { [QUOTE] + Escape(s) + [QUOTE] }

  // ----- the canonical text

  /** The members in key order, `undefined` ones dropped. */
  function Defined(members: seq<Member>): seq<Member> {
    if members == [] then []
    else (if members[0].value.Undefined? then [] else [members[0]]) + Defined(members[1..])
  }

  /** Code unit order. */
  predicate TextOrder(a: Text, b: Text) { LexLeq(a, b) }

  predicate KeyOrder(a: Member, b: Member) { TextOrder(a.key, b.key) }

  function Entries(members: seq<Member>): (es: seq<Member>)
    ensures forall e :: e in es <==> e in members && !e.value.Undefined?
  {
    DefinedMembers(members);
    SortPermutes(Defined(members), KeyOrder);
    Sort(Defined(members), KeyOrder)
  }

  lemma {:induction false} DefinedMembers(members: seq<Member>)
    ensures forall e :: e in Defined(members) <==> e in members && !e.value.Undefined?
  {
    if members != [] {
      DefinedMembers(members[1..]);
    }
  }

  /** What a `map` over the members answers: every text, or the first refusal. */
  function Gather(results: seq<Result<Text, Refusal>>): (r: Result<seq<Text>, Refusal>)
    ensures r.Ok? <==> forall i :: 0 <= i < |results| ==> results[i].Ok?
    ensures r.Ok? ==> |r.value| == |results| && forall i :: 0 <= i < |results| ==> r.value[i] == results[i].value
  {
    if results == [] then Ok([])
    else match (results[0], Gather(results[1..]))
      case (Err(e), _) => Err(e)
      case (Ok(_), Err(e)) => Err(e)
      case (Ok(t), Ok(ts)) => Ok([t] + ts)
  }

  function Join(texts: seq<Text>): Text {
    if texts == [] then []
    else if |texts| == 1 then texts[0]
    else texts[0] + [COMMA] + Join(texts[1..])
  }

  function Pairs(entries: seq<Member>, texts: seq<Text>): seq<Text>
    requires |entries| == |texts|
  {
    seq(|entries|, i requires 0 <= i < |entries| => Quoted(entries[i].key) + [COLON] + texts[i])
  }

  function Canonical(v: Value): Result<Text, Refusal> {
    match v
    case Null => Ok(NULL)
    case Bool(b) => Ok(if b then TRUE else FALSE)
    case String(s) => Ok(Quoted(s))
    case Number(n) => Ok(PrintNumber(n))
    case NonFinite => Err(NonFiniteNumber)
    case Array(items) =>
      (match Gather(seq(|items|, i requires 0 <= i < |items| => Canonical(items[i])))
       case Err(e) => Err(e)
       case Ok(texts) => Ok([OPEN_BRACKET] + Join(texts) + [CLOSE_BRACKET]))
    case Object(members) =>
      var entries := Entries(members);
      assert forall i :: 0 <= i < |entries| ==> entries[i] in members;
      (match Gather(seq(|entries|, i requires 0 <= i < |entries| => Canonical(entries[i].value)))
       case Err(e) => Err(e)
       case Ok(texts) => Ok([OPEN_BRACE] + Join(Pairs(entries, texts)) + [CLOSE_BRACE]))
    case Undefined => Err(NotJson)
    case Unprintable => Err(NotJson)
  }

  // ----- the JSON value a JavaScript value is

  datatype Json =
    | JNull
    | JBool(b: bool)
    | JNumber(n: Decimal)
    | JString(s: Text)
    | JArray(items: seq<Json>)
    | JObject(members: map<Text, Json>)

  /** Nothing in it but JSON, apart from `undefined` members. */
  predicate Printable(v: Value) {
    match v
    case Array(items) => forall i :: 0 <= i < |items| ==> Printable(items[i])
    case Object(members) => forall i :: 0 <= i < |members| ==>
        members[i].value.Undefined? || Printable(members[i].value)
    case _ => !v.NonFinite? && !v.Undefined? && !v.Unprintable?
  }

  /** An object has each key once, and a number is its shortest decimal, at every level. */
  ghost predicate Proper(v: Value) {
    match v
    case Array(items) => forall i :: 0 <= i < |items| ==> Proper(items[i])
    case Object(members) =>
      && (forall i, j :: 0 <= i < j < |members| ==> members[i].key != members[j].key)
      && (forall i :: 0 <= i < |members| ==> Proper(members[i].value))
    case Number(n) => Shortest(n)
    case _ => true
  }

  ghost predicate Faithful(v: Value) { Printable(v) && Proper(v) }

  function DefinedKeys(members: seq<Member>): set<Text> {
    set i | 0 <= i < |members| && !members[i].value.Undefined? :: members[i].key
  }

  ghost function Holder(members: seq<Member>, key: Text): (i: nat)
    requires key in DefinedKeys(members)
    ensures i < |members| && !members[i].value.Undefined? && members[i].key == key
  {
    var i :| 0 <= i < |members| && !members[i].value.Undefined? && members[i].key == key;
    i
  }

  ghost function Meaning(v: Value): Json
    requires Faithful(v)
  {
    match v
    case Null => JNull
    case Bool(b) => JBool(b)
    case Number(n) => JNumber(n)
    case String(s) => JString(s)
    case Array(items) => JArray(seq(|items|, i requires 0 <= i < |items| => Meaning(items[i])))
    case Object(members) =>
      JObject(map key | key in DefinedKeys(members) :: Meaning(members[Holder(members, key)].value))
  }

  // ----- a reader of canonical text

  function HexValue(u: CodeUnit): Option<int> {
    if 48 <= u < 58 then Some(u - 48) else if 97 <= u < 103 then Some(u - 87) else None
  }

  function Unescape(u: CodeUnit): Option<CodeUnit> {
    if u == QUOTE || u == BACKSLASH then Some(u)
    else if u == 98 then Some(8)
    else if u == 116 then Some(9)
    else if u == 110 then Some(10)
    else if u == 102 then Some(12)
    else if u == 114 then Some(13)
    else None
  }

  /** Reads a string's units up to the closing quote. */
  function ReadString(t: Text): (r: Option<(Text, Text)>)
    ensures r.Some? ==> |r.value.1| < |t|
  {
    if t == [] then None
    else if t[0] == QUOTE then Some(([], t[1..]))
    else if t[0] != BACKSLASH then Prepend(t[0], ReadString(t[1..]))
    else if |t| < 2 then None
    else if Unescape(t[1]).Some? then Prepend(Unescape(t[1]).value, ReadString(t[2..]))
    else if t[1] == 117 && |t| >= 6 then
      match (HexValue(t[2]), HexValue(t[3]), HexValue(t[4]), HexValue(t[5]))
      case (Some(a), Some(b), Some(c), Some(d)) => Prepend(4096 * a + 256 * b + 16 * c + d, ReadString(t[6..]))
      case _ => None
    else None
  }

  function Prepend(u: int, r: Option<(Text, Text)>): Option<(Text, Text)> {
    match r
    case Some((s, rest)) => if 0 <= u < 0x1_0000 then Some(([u] + s, rest)) else None
    case None => None
  }

  predicate Starts(t: Text, prefix: Text) { |t| >= |prefix| && t[..|prefix|] == prefix }

  function Read(t: Text): (r: Option<(Json, Text)>)
    ensures r.Some? ==> |r.value.1| < |t|
    decreases |t|, 0
  {
    if t == [] then None
    else if Starts(t, NULL) then Some((JNull, t[4..]))
    else if Starts(t, TRUE) then Some((JBool(true), t[4..]))
    else if Starts(t, FALSE) then Some((JBool(false), t[5..]))
    else if t[0] == QUOTE then
      match ReadString(t[1..])
      case Some((s, rest)) => Some((JString(s), rest))
      case None => None
    else if Starts(t, [OPEN_BRACKET, CLOSE_BRACKET]) then Some((JArray([]), t[2..]))
    else if Starts(t, [OPEN_BRACE, CLOSE_BRACE]) then Some((JObject(map[]), t[2..]))
    else if t[0] == OPEN_BRACKET then
      match ReadItems(t[1..])
      case Some((items, rest)) => Some((JArray(items), rest))
      case None => None
    else if t[0] == OPEN_BRACE then
      match ReadMembers(t[1..])
      case Some((members, rest)) => Some((JObject(members), rest))
      case None => None
    else
      match ReadNumber(t)
      case Some((n, rest)) => Some((JNumber(n), rest))
      case None => None
  }

  function ReadItems(t: Text): (r: Option<(seq<Json>, Text)>)
    ensures r.Some? ==> |r.value.1| < |t|
    decreases |t|, 1
  {
    match Read(t)
    case None => None
    case Some((v, rest)) =>
      if rest == [] then None
      else if rest[0] == CLOSE_BRACKET then Some(([v], rest[1..]))
      else if rest[0] != COMMA then None
      else match ReadItems(rest[1..])
        case None => None
        case Some((vs, rest')) => Some(([v] + vs, rest'))
  }

  function ReadMembers(t: Text): (r: Option<(map<Text, Json>, Text)>)
    ensures r.Some? ==> |r.value.1| < |t|
    decreases |t|, 1
  {
    if t == [] || t[0] != QUOTE then None
    else match ReadString(t[1..])
      case None => None
      case Some((key, after)) =>
        if after == [] || after[0] != COLON then None
        else match Read(after[1..])
          case None => None
          case Some((v, rest)) =>
            if rest == [] then None
            else if rest[0] == CLOSE_BRACE then Some((map[key := v], rest[1..]))
            else if rest[0] != COMMA then None
            else match ReadMembers(rest[1..])
              case None => None
              case Some((others, rest')) => if key in others then None else Some((others[key := v], rest'))
  }
}
