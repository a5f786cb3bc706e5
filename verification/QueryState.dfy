/**
 A view's filters in the address bar: reading a query string, correcting it, and
 writing a state the reader has chosen.

 A query string is the ordered list of its parameters; percent-encoding is taken
 as a faithful text form of that list.
 */
module QueryState {
  import opened Doubles
  import opened Wrappers

  datatype Text = Text(chars: string)

  datatype Param = Param(name: Text, value: Text)

  type Query = seq<Param>

  /** What `Number` makes of a text. */
  datatype Parsed = NaN | Infinite | Finite(value: real)

  datatype ParamSpec =
    | Enum(values: seq<Text>, fallback: Text)
    | Choice(numbers: seq<Double>, usual: Double)
    | Page(limit: Parsed)
    | Optional(pattern: Text -> bool)

  datatype ParamValue = Words(text: Text) | Number(value: real) | Null

  /** The conversions between numbers and texts. */
  datatype Codec = Codec(number: Text -> Parsed, text: real -> Text)

  /** Writing one of the language's numbers and reading it gives the number back. */
  ghost predicate RoundTrips(c: Codec) {
    forall x: real :: IsDouble(x) ==> c.number(c.text(x)) == Finite(x)
  }

  // ----- there are such conversions

  function Unary(n: nat): string { if n == 0 then "" else "I" + Unary(n - 1) }

  function Code(z: int): nat { if z >= 0 then 2 * z else -2 * z - 1 }

  function Spelling(m: int, e: int): Text { Text(Unary(Code(m)) + "." + Unary(Code(e))) }

  ghost function Spelled(x: real): Text {
    if IsDouble(x) then
      var m, e :| InRange(m, e) && x == Scaled(m, e);
      Spelling(m, e)
    else Text("")
  }

  ghost function Heard(t: Text): Parsed {
    if exists x: real :: IsDouble(x) && Spelled(x) == t then
      var x: real :| IsDouble(x) && Spelled(x) == t;
      Finite(x)
    else NaN
  }

  lemma {:induction false} UnaryIs(n: nat)
    ensures |Unary(n)| == n && forall i :: 0 <= i < n ==> Unary(n)[i] == 'I'
  {
    if n > 0 {
      UnaryIs(n - 1);
    }
  }

  lemma SpellingOnce(m: int, e: int, m': int, e': int)
    requires Spelling(m, e) == Spelling(m', e')
    ensures m == m' && e == e'
  {
    hide Unary;
    UnaryIs(Code(m));
    UnaryIs(Code(e));
    UnaryIs(Code(m'));
    UnaryIs(Code(e'));
    var s, t := Unary(Code(m)) + "." + Unary(Code(e)), Unary(Code(m')) + "." + Unary(Code(e'));
    assert s == Spelling(m, e).chars && t == Spelling(m', e').chars;
    assert s[Code(m)] == '.' && t[Code(m')] == '.';
    assert Code(m) == Code(m') && |s| == |t|;
  }

  /** Spelling every number by its significand and its exponent is one way to meet what is asked of a codec. */
  lemma SomeCodecRoundTrips() returns (c: Codec)
    ensures RoundTrips(c)
  {
    hide Spelling, IsDouble;
    c := Codec(t => Heard(t), x => Spelled(x));
    forall x: real | IsDouble(x) ensures c.number(c.text(x)) == Finite(x) {
      var y: real :| IsDouble(y) && Spelled(y) == Spelled(x) && Heard(Spelled(x)) == Finite(y);
      SpelledOnce(x, y);
    }
  }

  lemma SpelledOnce(x: real, y: real)
    requires IsDouble(x) && IsDouble(y) && Spelled(x) == Spelled(y)
    ensures x == y
  {
    hide Spelling;
    var m, e :| InRange(m, e) && x == Scaled(m, e) && Spelled(x) == Spelling(m, e);
    var m', e' :| InRange(m', e') && y == Scaled(m', e') && Spelled(y) == Spelling(m', e');
    SpellingOnce(m, e, m', e');
  }

  // ----- what a view names

  datatype Entry = Entry(name: Text, spec: ParamSpec)

  predicate Listed(entries: seq<Entry>, name: Text) { exists i :: 0 <= i < |entries| && entries[i].name == name }

  predicate DistinctNames(entries: seq<Entry>) {
    forall i, j :: 0 <= i < j < |entries| ==> entries[i].name != entries[j].name
  }

  function SpecOf(entries: seq<Entry>, name: Text): Option<ParamSpec> {
    if entries == [] then None
    else if entries[|entries| - 1].name == name then Some(entries[|entries| - 1].spec)
    else SpecOf(entries[..|entries| - 1], name)
  }

  // ----- pages and offsets

  const MAX_OFFSET := 100000.0

  function Trunc(x: real): real { if x >= 0.0 then x.Floor as real else -((-x).Floor as real) }

  function Max(x: real, y: real): real { if x < y then y else x }

  function MaxPageFor(limit: Parsed, maxOffset: real): real {
    if !limit.Finite? || limit.value < 1.0 then 1.0 else Max(1.0, (maxOffset / limit.value).Floor as real + 1.0)
  }

  function PageToOffset(page: real, limit: real): real { Max(0.0, (Max(1.0, Trunc(page)) - 1.0) * limit) }

  function OffsetToPage(offset: real, limit: real): real {
    if limit < 1.0 then 1.0 else Max(1.0, (Max(0.0, offset) / limit).Floor as real + 1.0)
  }

  /** The highest page is exactly the last whose offset the server's cap allows. */
  lemma MaxPageIsLast(page: int, limit: real)
    requires page >= 1 && limit >= 1.0
    ensures PageToOffset(page as real, limit) <= 100000.0 <==> page as real <= MaxPageFor(Finite(limit), MAX_OFFSET)
  {
    hide PageToOffset, MaxPageFor;
    OffsetOf(page, limit);
    LastPageOf(limit);
    PageFits(page - 1, limit);
  }

  lemma OffsetOf(page: int, limit: real)
    requires page >= 1 && limit >= 1.0
    ensures PageToOffset(page as real, limit) == (page - 1) as real * limit
  {
    Whole(page);
    Product((page - 1) as real, limit);
  }

  lemma LastPageOf(limit: real)
    requires limit >= 1.0
    ensures MaxPageFor(Finite(limit), MAX_OFFSET) == ((MAX_OFFSET / limit).Floor + 1) as real
  {
    Quotient(MAX_OFFSET, limit);
  }

  lemma PageFits(k: int, limit: real)
    requires k >= 0 && limit >= 1.0
    ensures k as real * limit <= MAX_OFFSET <==> k <= (MAX_OFFSET / limit).Floor
  {
    var most := (MAX_OFFSET / limit).Floor;
    Quotient(MAX_OFFSET, limit);
    if k <= most {
      Scales(k as real, most as real, limit);
    } else {
      Past(MAX_OFFSET, (most + 1) as real, k as real, limit);
    }
  }

  lemma Past(x: real, b: real, k: real, c: real)
    requires x < b * c && b <= k && c >= 0.0
    ensures x < k * c
  {
    Scales(b, k, c);
  }

  lemma Product(a: real, b: real)
    requires a >= 0.0 && b >= 0.0
    ensures a * b >= 0.0
  {
  }

  lemma Scales(a: real, b: real, c: real)
    requires a <= b && c >= 0.0
    ensures a * c <= b * c
  {
  }

  lemma Quotient(x: real, y: real)
    requires x >= 0.0 && y >= 1.0
    ensures (x / y).Floor >= 0
    ensures (x / y).Floor as real * y <= x
    ensures x < ((x / y).Floor + 1) as real * y
  {
    var r := x / y;
    Divides(x, y, r);
    var q := r.Floor;
    Scales(q as real, r, y);
    var next := (q + 1) as real;
    assert r < next;
    Below(r, next, y);
    assert x < next * y;
  }

  lemma Divides(x: real, y: real, r: real)
    requires x >= 0.0 && y >= 1.0 && r == x / y
    ensures r * y == x && r >= 0.0
  {
  }

  lemma Below(a: real, b: real, c: real)
    requires a < b && c > 0.0
    ensures a * c < b * c
  {
  }

  /** Before the first page, and with no page to count by, there is the first page. */
  lemma FirstPage(page: real, offset: real, limit: real)
    ensures limit >= 0.0 && page < 2.0 ==> PageToOffset(page, limit) == 0.0
    ensures limit < 1.0 || offset <= 0.0 ==> OffsetToPage(offset, limit) == 1.0
    ensures limit < 1.0 ==> MaxPageFor(Finite(limit), MAX_OFFSET) == 1.0
    ensures MaxPageFor(NaN, MAX_OFFSET) == 1.0 && MaxPageFor(Infinite, MAX_OFFSET) == 1.0
  {
    assert page < 2.0 ==> Trunc(page) <= 1.0;
    assert limit >= 1.0 ==> 0.0 / limit == 0.0;
  }

  /** An offset is on the page it is converted to, and a page's offset is converted back to it. */
  lemma OffsetsAndPages(page: int, offset: real, limit: real)
    requires page >= 1 && offset >= 0.0 && limit >= 1.0
    ensures OffsetToPage(PageToOffset(page as real, limit), limit) == page as real
    ensures var start := PageToOffset(OffsetToPage(offset, limit), limit); start <= offset < start + limit
  {
    var k := (page - 1) as real;
    Product(k, limit);
    assert Trunc(page as real) == page as real && PageToOffset(page as real, limit) == k * limit;
    assert k * limit / limit == k;
    assert (k * limit / limit).Floor == page - 1;
    Quotient(offset, limit);
    var q := (offset / limit).Floor;
    assert OffsetToPage(offset, limit) == (q + 1) as real && Trunc((q + 1) as real) == (q + 1) as real;
    assert PageToOffset((q + 1) as real, limit) == q as real * limit by { Product(q as real, limit); }
    assert (q + 1) as real * limit == q as real * limit + limit;
  }

  // ----- one parameter

  function DefaultOf(s: ParamSpec): ParamValue {
    match s
    case Enum(_, fallback) => Words(fallback)
    case Choice(_, usual) => Number(usual)
    case Page(_) => Number(1.0)
    case Optional(_) => Null
  }

  function Parse(c: Codec, raw: Option<Text>): Parsed { if raw.None? then NaN else c.number(raw.value) }

  function Normalise(c: Codec, raw: Option<Text>, s: ParamSpec): ParamValue {
    match s
    case Enum(values, fallback) => Words(if raw.Some? && raw.value in values then raw.value else fallback)
    case Choice(numbers, usual) =>
      var parsed := Parse(c, raw);
      Number(if parsed.Finite? && parsed.value in numbers then parsed.value else usual)
    case Page(limit) =>
      var parsed := Parse(c, raw);
      if !parsed.Finite? then Number(1.0)
      else
        var page, most := Trunc(parsed.value), MaxPageFor(limit, MAX_OFFSET);
        if page < 1.0 then Number(1.0) else Number(if most < page then most else page)
    case Optional(pattern) => if raw.Some? && pattern(raw.value) then Words(raw.value) else Null
  }

  /** The text a value is written as. */
  function TextOf(c: Codec, v: ParamValue): Text {
    match v
    case Words(text) => text
    case Number(x) => c.text(x)
    case Null => Text("null")
  }

  /** Not written: a default, or nothing. */
  predicate Unwritten(v: ParamValue, s: ParamSpec) { v == DefaultOf(s) || v == Null }

  /** The values a parameter can hold. */
  predicate ValidValue(v: ParamValue, s: ParamSpec) {
    match s
    case Enum(values, fallback) => v.Words? && (v.text in values || v.text == fallback)
    case Choice(numbers, usual) => v.Number? && (v.value in numbers || v.value == usual)
    case Page(limit) => v.Number? && v.value == v.value.Floor as real && 1.0 <= v.value <= MaxPageFor(limit, MAX_OFFSET)
    case Optional(pattern) => v.Null? || (v.Words? && pattern(v.text))
  }

  /** Every reading is a valid value, and nothing reads as the default. */
  lemma ReadingsAreValid(c: Codec, raw: Option<Text>, s: ParamSpec)
    ensures ValidValue(Normalise(c, raw, s), s)
    ensures Normalise(c, None, s) == DefaultOf(s)
  {
    hide Trunc, MaxPageFor;
    if s.Page? {
      MaxPageIsWhole(s.limit);
      forall x: real ensures Trunc(x) == Trunc(x).Floor as real {
        TruncIsWhole(x);
      }
    }
  }

  /** What a text says of a parameter, where it can be read as one of its values. */
  ghost predicate Says(c: Codec, t: Text, s: ParamSpec, v: ParamValue) {
    match s
    case Enum(values, _) => t in values && v == Words(t)
    case Choice(numbers, _) => v.Number? && v.value in numbers && c.number(t) == Finite(v.value)
    case Page(limit) => v.Number? && c.number(t).Finite? && Nearest(v.value, c.number(t).value, limit)
    case Optional(pattern) => pattern(t) && v == Words(t)
  }

  /** The whole page, from the first to the last one servable, that is nearest to a number cut towards zero. */
  predicate Nearest(page: real, x: real, limit: Parsed) {
    var last := MaxPageFor(limit, MAX_OFFSET);
    if x < 2.0 then page == 1.0
    else if last <= x then page == last
    else page <= x < page + 1.0 && page == page.Floor as real
  }

  /** A text reads as what it says, and as the default exactly where it says nothing: an unreadable one falls back. */
  lemma ReadingIff(c: Codec, t: Text, s: ParamSpec, v: ParamValue)
    ensures Normalise(c, Some(t), s) == v
       <==> Says(c, t, s, v) || (v == DefaultOf(s) && !exists w :: Says(c, t, s, w))
    ensures s.Page? ==> DefaultOf(s) == Number(1.0)
    ensures s.Optional? ==> DefaultOf(s) == Null
  {
    hide MaxPageFor;
    var r := Normalise(c, Some(t), s);
    if s.Page? && c.number(t).Finite? {
      MaxPageIsWhole(s.limit);
      NearestPage(c.number(t).value, s.limit);
    }
    assert Says(c, t, s, r) || r == DefaultOf(s);
    forall w | Says(c, t, s, w) ensures w == r {
    }
  }

  lemma NearestPage(x: real, limit: Parsed)
    ensures var page, last := Trunc(x), MaxPageFor(limit, MAX_OFFSET);
            var read := if page < 1.0 then 1.0 else if last < page then last else page;
            forall p: real :: Nearest(p, x, limit) <==> p == read
  {
    hide MaxPageFor;
    MaxPageIsWhole(limit);
    var last := MaxPageFor(limit, MAX_OFFSET);
    forall p: real | p == p.Floor as real && p <= x < p + 1.0 ensures p.Floor == x.Floor {
    }
    assert x >= 2.0 ==> Trunc(x) == x.Floor as real && Trunc(x) >= 2.0;
    assert last <= x ==> last.Floor <= x.Floor;
    assert x < last ==> x.Floor <= last.Floor;
  }

  lemma TruncIsWhole(x: real)
    ensures Trunc(x) == Trunc(x).Floor as real
  {
    if x >= 0.0 {
      Whole(x.Floor);
    } else {
      var n := -(-x).Floor;
      assert Trunc(x) == n as real;
      Whole(n);
    }
  }

  lemma Whole(n: int)
    ensures (n as real).Floor == n
  {
  }

  lemma MaxPageIsWhole(limit: Parsed)
    ensures MaxPageFor(limit, MAX_OFFSET) >= 1.0
    ensures MaxPageFor(limit, MAX_OFFSET) == MaxPageFor(limit, MAX_OFFSET).Floor as real
  {
    if limit.Finite? && limit.value >= 1.0 {
      var most := (MAX_OFFSET / limit.value).Floor;
      assert (most + 1) as real == most as real + 1.0;
    }
  }

  /** What is written for a value reads back as it exactly when the value is valid. */
  lemma WrittenReadsBack(c: Codec, v: ParamValue, s: ParamSpec)
    requires RoundTrips(c)
    ensures Normalise(c, if Unwritten(v, s) then None else Some(TextOf(c, v)), s) == v <==> ValidValue(v, s)
  {
    hide Trunc, MaxPageFor;
    ReadingsAreValid(c, if Unwritten(v, s) then None else Some(TextOf(c, v)), s);
    if ValidValue(v, s) && v.Number? {
      NumbersAreDoubles(v, s);
      assert c.number(c.text(v.value)) == Finite(v.value);
      if s.Page? {
        TruncOfWhole(v.value);
      }
    }
  }

  lemma TruncOfWhole(x: real)
    requires x == x.Floor as real && x >= 0.0
    ensures Trunc(x) == x
  {
  }

  /** The numbers a parameter can hold are the language's. */
  lemma NumbersAreDoubles(v: ParamValue, s: ParamSpec)
    requires ValidValue(v, s) && v.Number?
    ensures IsDouble(v.value)
  {
    hide MaxPageFor;
    if s.Page? {
      MaxPageBound(s.limit);
      WholeIsDouble(v.value.Floor);
    }
  }

  lemma MaxPageBound(limit: Parsed)
    ensures MaxPageFor(limit, MAX_OFFSET) <= MAX_OFFSET + 1.0
  {
    if limit.Finite? && limit.value >= 1.0 {
      Quotient(MAX_OFFSET, limit.value);
      var most := (MAX_OFFSET / limit.value).Floor;
      Scales(1.0, limit.value, most as real);
      assert most as real * limit.value == limit.value * most as real;
    }
  }

  // ----- the parameter list

  /** The first value of a name. */
  function Get(q: Query, name: Text): Option<Text> {
    if q == [] then None
    else
      var before := Get(q[..|q| - 1], name);
      var last := q[|q| - 1];
      if before.Some? then before else if last.name == name then Some(last.value) else None
  }

  predicate Has(q: Query, name: Text) { Get(q, name).Some? }

  function Delete(q: Query, name: Text): Query {
    if q == [] then []
    else
      var last := q[|q| - 1];
      Delete(q[..|q| - 1], name) + if last.name == name then [] else [last]
  }

  /** The first occurrence takes the value, the others go. */
  function Replace(q: Query, name: Text, value: Text): Query {
    if q == [] then []
    else
      var front, last := q[..|q| - 1], q[|q| - 1];
      Replace(front, name, value)
      + if last.name != name then [last] else if Has(front, name) then [] else [Param(name, value)]
  }

  function Set(q: Query, name: Text, value: Text): Query {
    if Has(q, name) then Replace(q, name, value) else q + [Param(name, value)]
  }

  function Put(c: Codec, q: Query, e: Entry, v: ParamValue): Query {
    if Unwritten(v, e.spec) then Delete(q, e.name) else Set(q, e.name, TextOf(c, v))
  }

  // ----- reading

  /** What a canonical list keeps of a parameter; `seen` says its name has occurred before it. */
  function Rule(c: Codec, entries: seq<Entry>, seen: bool, p: Param): Query {
    match SpecOf(entries, p.name)
    case None => [p]
    case Some(s) =>
      if seen then []
      else
        var v := Normalise(c, Some(p.value), s);
        if Unwritten(v, s) then [] else [Param(p.name, TextOf(c, v))]
  }

  /** The canonical list, parameter by parameter. */
  function Canonical(c: Codec, q: Query, entries: seq<Entry>): Query {
    if q == [] then []
    else
      var front, last := q[..|q| - 1], q[|q| - 1];
      Canonical(c, front, entries) + Rule(c, entries, Has(front, last.name), last)
  }

  /** The values of a query: of each listed parameter, its first occurrence normalised. */
  function Values(c: Codec, q: Query, entries: seq<Entry>): map<Text, ParamValue> {
    if entries == [] then map[]
    else
      var e := entries[|entries| - 1];
      Values(c, q, entries[..|entries| - 1])[e.name := Normalise(c, Get(q, e.name), e.spec)]
  }

  datatype Reading = Reading(values: map<Text, ParamValue>, canonical: Query, needsNormalising: bool)

  method ReadQuery(c: Codec, search: Query, entries: seq<Entry>) returns (r: Reading)
    requires DistinctNames(entries)
    ensures r.values == Values(c, search, entries)
    ensures r.canonical == Canonical(c, search, entries)
    ensures r.needsNormalising <==> Canonical(c, search, entries) != search
  {
    hide Normalise, Canonical, Get, Delete, Set, TextOf, Has, SpecOf;
    var params := search;
    var values: map<Text, ParamValue> := map[];
    CanonicalOfNone(c, search);
    for i := 0 to |entries|
      invariant params == Canonical(c, search, entries[..i])
      invariant values == Values(c, search, entries[..i])
    {
      var e := entries[i];
      var value := Normalise(c, Get(params, e.name), e.spec);
      values := values[e.name := value];
      assert entries[..i + 1][..i] == entries[..i];
      UnlistedKeeps(c, search, entries[..i], e.name);
      OneMore(c, search, entries[..i], e);
      assert entries[..i] + [e] == entries[..i + 1];
      params := if Unwritten(value, e.spec) then Delete(params, e.name) else Set(params, e.name, TextOf(c, value));
    }
    assert entries[..|entries|] == entries;
    r := Reading(values, params, params != search);
  }

  lemma {:induction false} CanonicalOfNone(c: Codec, q: Query)
    ensures Canonical(c, q, []) == q
  {
    if q != [] {
      CanonicalOfNone(c, q[..|q| - 1]);
      assert q == q[..|q| - 1] + [q[|q| - 1]];
    }
  }

  lemma {:induction false} SpecOfListed(entries: seq<Entry>, name: Text)
    ensures SpecOf(entries, name).Some? <==> Listed(entries, name)
  {
    if entries != [] {
      var front := entries[..|entries| - 1];
      SpecOfListed(front, name);
      assert forall i :: 0 <= i < |front| ==> front[i] == entries[i];
    }
  }

  lemma GetSnoc(q: Query, p: Param, name: Text)
    ensures Get(q + [p], name) == if Has(q, name) then Get(q, name) else if p.name == name then Some(p.value) else None
  {
    assert (q + [p])[..|q|] == q;
  }

  /** A name the entries do not list reads the same in the canonical list. */
  lemma {:induction false} UnlistedKeeps(c: Codec, q: Query, entries: seq<Entry>, name: Text)
    requires !Listed(entries, name) || SpecOf(entries, name) == None
    ensures Get(Canonical(c, q, entries), name) == Get(q, name)
  {
    hide Normalise, Unwritten, TextOf, Listed;
    SpecOfListed(entries, name);
    if q != [] {
      var front, last := q[..|q| - 1], q[|q| - 1];
      UnlistedKeeps(c, front, entries, name);
      var kept := Rule(c, entries, Has(front, last.name), last);
      if kept == [] {
        assert Canonical(c, q, entries) == Canonical(c, front, entries);
      } else {
        GetSnoc(Canonical(c, front, entries), kept[0], name);
        assert kept == [kept[0]];
      }
    }
  }

  lemma UnlistedRule(c: Codec, entries: seq<Entry>, seen: bool, p: Param)
    requires SpecOf(entries, p.name) == None
    ensures Rule(c, entries, seen, p) == [p]
  {
  }

  lemma {:induction false} AbsentStays(c: Codec, q: Query, e: Entry, value: Text)
    requires !Has(q, e.name)
    ensures Delete(q, e.name) == q && Replace(q, e.name, value) == q && Canonical(c, q, [e]) == q
  {
    hide Rule;
    if q != [] {
      var front, last := q[..|q| - 1], q[|q| - 1];
      AbsentStays(c, front, e, value);
      assert q == front + [last] && SpecOf([e], last.name) == None;
      UnlistedRule(c, [e], Has(front, last.name), last);
    }
  }

  /** Putting the value a parameter reads as is making the list canonical for that parameter alone. */
  lemma {:induction false} PutIsCanonical(c: Codec, q: Query, e: Entry)
    ensures Canonical(c, q, [e]) == Put(c, q, e, Normalise(c, Get(q, e.name), e.spec))
  {
    hide Normalise, Unwritten, TextOf;
    var v := Normalise(c, Get(q, e.name), e.spec);
    ReadingsAreValid(c, None, e.spec);
    if !Has(q, e.name) {
      AbsentStays(c, q, e, TextOf(c, v));
      assert Unwritten(v, e.spec) by { DefaultUnwritten(e.spec); }
    } else {
      PutOnFront(c, q, e);
    }
  }

  lemma DefaultUnwritten(s: ParamSpec)
    ensures Unwritten(DefaultOf(s), s)
  {
  }

  lemma {:induction false} PutOnFront(c: Codec, q: Query, e: Entry)
    requires Has(q, e.name)
    ensures Canonical(c, q, [e]) == Put(c, q, e, Normalise(c, Get(q, e.name), e.spec))
  {
    hide Normalise, Unwritten, TextOf;
    var v := Normalise(c, Get(q, e.name), e.spec);
    var front, last := q[..|q| - 1], q[|q| - 1];
    assert SpecOf([e], last.name) == if e.name == last.name then Some(e.spec) else None;
    if Has(front, e.name) {
      PutOnFront(c, front, e);
    } else {
      AbsentStays(c, front, e, TextOf(c, v));
    }
  }

  lemma SpecOfSnoc(entries: seq<Entry>, e: Entry, name: Text)
    ensures SpecOf(entries + [e], name) == if e.name == name then Some(e.spec) else SpecOf(entries, name)
  {
    assert (entries + [e])[..|entries|] == entries;
  }

  lemma CanonicalSnoc(c: Codec, q: Query, p: Param, entries: seq<Entry>)
    ensures Canonical(c, q + [p], entries) == Canonical(c, q, entries) + Rule(c, entries, Has(q, p.name), p)
  {
    assert (q + [p])[..|q|] == q;
  }

  lemma RulesCompose(c: Codec, entries: seq<Entry>, e: Entry, seen: bool, seen': bool, p: Param)
    requires SpecOf(entries, e.name) == None && (p.name == e.name ==> seen == seen')
    ensures var kept := Rule(c, entries, seen, p);
            if kept == [] then Rule(c, entries + [e], seen, p) == []
            else
              && |kept| == 1 && kept[0].name == p.name
              && Rule(c, [e], seen', kept[0]) == Rule(c, entries + [e], seen, p)
  {
    hide Normalise, Unwritten, TextOf;
    SpecOfSnoc(entries, e, p.name);
    SpecOfSnoc([], e, p.name);
    assert [] + [e] == [e];
  }

  lemma {:induction false} OneAfterAnother(c: Codec, q: Query, entries: seq<Entry>, e: Entry)
    requires !Listed(entries, e.name)
    ensures Canonical(c, Canonical(c, q, entries), [e]) == Canonical(c, q, entries + [e])
  {
    hide Rule, SpecOf;
    if q != [] {
      var front, last := q[..|q| - 1], q[|q| - 1];
      OneAfterAnother(c, front, entries, e);
      UnlistedKeeps(c, front, entries, e.name);
      SpecOfListed(entries, e.name);
      var was, kept := Canonical(c, front, entries), Rule(c, entries, Has(front, last.name), last);
      RulesCompose(c, entries, e, Has(front, last.name), Has(was, last.name), last);
      if kept != [] {
        assert kept == [kept[0]];
        CanonicalSnoc(c, was, kept[0], [e]);
      } else {
        assert was + kept == was;
      }
    }
  }

  lemma OneMore(c: Codec, q: Query, entries: seq<Entry>, e: Entry)
    requires !Listed(entries, e.name)
    ensures Canonical(c, q, entries + [e])
         == Put(c, Canonical(c, q, entries), e, Normalise(c, Get(Canonical(c, q, entries), e.name), e.spec))
  {
    OneAfterAnother(c, q, entries, e);
    PutIsCanonical(c, Canonical(c, q, entries), e);
  }
}
