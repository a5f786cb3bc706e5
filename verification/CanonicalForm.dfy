/** Two drafts print the same canonical text iff they are the same JSON value. */
module CanonicalForm {
  import opened Wrappers
  import opened Sorting
  import opened ByteStrings
  import opened CanonicalJson
  import opened JsonNumbers
  import opened Texts

  // ----- what prints

  /** The printer answers exactly for the values that are JSON once `undefined` members are dropped. */
  lemma {:induction false} CanonicalAnswers(v: Value)
    ensures Canonical(v).Ok? <==> Printable(v)
    decreases v
  {
    match v {
      case Array(items) =>
        forall i | 0 <= i < |items| ensures Canonical(items[i]).Ok? <==> Printable(items[i]) {
          CanonicalAnswers(items[i]);
        }
        var results := seq(|items|, i requires 0 <= i < |items| => Canonical(items[i]));
        assert forall i :: 0 <= i < |items| ==> results[i] == Canonical(items[i]);
        assert Canonical(v).Ok? <==> Gather(results).Ok?;
      case Object(members) =>
        var entries := Entries(members);
        forall i | 0 <= i < |members| ensures Canonical(members[i].value).Ok? <==> Printable(members[i].value) {
          CanonicalAnswers(members[i].value);
        }
        forall i | 0 <= i < |entries|
          ensures entries[i] in members && (Canonical(entries[i].value).Ok? <==> Printable(entries[i].value))
        {
          assert entries[i] in entries;
        }
        forall i | 0 <= i < |members| && !members[i].value.Undefined?
          ensures exists j :: 0 <= j < |entries| && entries[j] == members[i]
        {
          assert members[i] in entries;
        }
        var results := seq(|entries|, i requires 0 <= i < |entries| => Canonical(entries[i].value));
        assert forall i :: 0 <= i < |entries| ==> results[i] == Canonical(entries[i].value);
        assert Canonical(v).Ok? <==> Gather(results).Ok?;
      case _ =>
    }
  }

  // ----- strings

  lemma HexDigitsMake(u: CodeUnit)
    ensures u == 4096 * (u / 4096) + 256 * (u / 256 % 16) + 16 * (u / 16 % 16) + u % 16
    ensures forall d :: 0 <= d < 16 ==> HexValue(HexDigit(d)) == Some(d)
  {
  }

  lemma HexReads(u: CodeUnit, rest: Text)
    requires ShortEscape(u) == None && EscapeUnit(u) != [u]
    ensures ReadString(EscapeUnit(u) + rest) == Prepend(u, ReadString(rest))
  {
    var t := EscapeUnit(u) + rest;
    assert t[6..] == rest;
    HexDigitsMake(u);
    assert t[1] == 117 && Unescape(117) == None;
  }

  lemma UnitReads(u: CodeUnit, rest: Text)
    ensures ReadString(EscapeUnit(u) + rest) == Prepend(u, ReadString(rest))
  {
    var t := EscapeUnit(u) + rest;
    if ShortEscape(u).Some? {
      assert t[2..] == rest;
    } else if EscapeUnit(u) == [u] {
      assert t[1..] == rest;
    } else {
      HexReads(u, rest);
    }
  }

  lemma PlainReads(u: CodeUnit, rest: Text)
    requires u != QUOTE && u != BACKSLASH
    ensures ReadString([u] + rest) == Prepend(u, ReadString(rest))
  {
    assert ([u] + rest)[1..] == rest;
  }

  lemma CloseReads(rest: Text)
    ensures ReadString([QUOTE] + rest) == Some(([], rest))
  {
    assert ([QUOTE] + rest)[1..] == rest;
  }

  /** Escaping loses nothing: not controls, not quotes, not half of a surrogate pair. */
  lemma {:induction false} StringReads(s: Text, rest: Text)
    ensures ReadString(Escape(s) + [QUOTE] + rest) == Some((s, rest))
    decreases |s|
  {
    hide ReadString, EscapeUnit;
    var tail := [QUOTE] + rest;
    assert Escape(s) + [QUOTE] + rest == Escape(s) + tail;
    if s == [] {
      CloseReads(rest);
      assert Escape(s) + tail == tail;
    } else if HighSurrogate(s[0]) && |s| > 1 && LowSurrogate(s[1]) {
      var after := Escape(s[2..]) + tail;
      StringReads(s[2..], rest);
      assert after == Escape(s[2..]) + [QUOTE] + rest;
      assert Escape(s) + tail == [s[0]] + ([s[1]] + after);
      PlainReads(s[1], after);
      PlainReads(s[0], [s[1]] + after);
      assert s == [s[0]] + ([s[1]] + s[2..]);
    } else {
      var after := Escape(s[1..]) + tail;
      StringReads(s[1..], rest);
      assert after == Escape(s[1..]) + [QUOTE] + rest;
      assert Escape(s) + tail == EscapeUnit(s[0]) + after;
      UnitReads(s[0], after);
      assert s == [s[0]] + s[1..];
    }
  }

  // ----- values

  function TextsOf(vs: seq<Value>): seq<Text>
    requires forall i :: 0 <= i < |vs| ==> Canonical(vs[i]).Ok?
  {
    seq(|vs|, i requires 0 <= i < |vs| => Canonical(vs[i]).value)
  }

  function ValuesOf(entries: seq<Member>): seq<Value> {
    seq(|entries|, i requires 0 <= i < |entries| => entries[i].value)
  }

  lemma ArrayText(items: seq<Value>)
    requires Printable(Array(items))
    ensures forall i :: 0 <= i < |items| ==> Canonical(items[i]).Ok?
    ensures Canonical(Array(items)).Ok?
    ensures Canonical(Array(items)).value == [OPEN_BRACKET] + Join(TextsOf(items)) + [CLOSE_BRACKET]
  {
    forall i | 0 <= i < |items| ensures Canonical(items[i]).Ok? {
      CanonicalAnswers(items[i]);
    }
    var results := seq(|items|, i requires 0 <= i < |items| => Canonical(items[i]));
    assert Gather(results).Ok?;
    assert Gather(results).value == TextsOf(items);
  }

  lemma EntriesFaithful(members: seq<Member>)
    requires Faithful(Object(members))
    ensures var entries := Entries(members);
            && (forall i :: 0 <= i < |entries| ==>
                entries[i] in members && Faithful(entries[i].value) && Canonical(entries[i].value).Ok?)
            && (forall i, j :: 0 <= i < j < |entries| ==> entries[i].key != entries[j].key)
            && Sorted(entries, KeyOrder)
  {
    var entries := Entries(members);
    forall i | 0 <= i < |entries|
      ensures entries[i] in members && Faithful(entries[i].value) && Canonical(entries[i].value).Ok?
    {
      assert entries[i] in entries;
      CanonicalAnswers(entries[i].value);
    }
    DefinedDistinct(members);
    SortKeepsDistinct(Defined(members), KeyOrder);
    forall i, j | 0 <= i < j < |entries| ensures entries[i].key != entries[j].key {
      assert entries[i] in members && entries[j] in members && entries[i] != entries[j];
      var a :| 0 <= a < |members| && members[a] == entries[i];
      var b :| 0 <= b < |members| && members[b] == entries[j];
      assert a != b;
    }
    KeyOrderTotal();
    SortSorts(Defined(members), KeyOrder);
  }

  lemma KeyOrderTotal()
    ensures TotalPreorder(KeyOrder)
  {
    forall a: Member, b: Member ensures KeyOrder(a, b) || KeyOrder(b, a) {
      LexTotal(a.key, b.key);
    }
    forall a: Member, b: Member, c: Member | KeyOrder(a, b) && KeyOrder(b, c) ensures KeyOrder(a, c) {
      LexTransitive(a.key, b.key, c.key);
    }
  }

  lemma {:induction false} DefinedDistinct(members: seq<Member>)
    requires forall i, j :: 0 <= i < j < |members| ==> members[i].key != members[j].key
    ensures Distinct(Defined(members))
  {
    if members != [] {
      DefinedDistinct(members[1..]);
      DefinedMembers(members[1..]);
      if !members[0].value.Undefined? {
        assert forall e :: e in members[1..] ==> e.key != members[0].key;
      }
    }
  }

  lemma ObjectText(members: seq<Member>)
    requires Faithful(Object(members))
    ensures var entries := Entries(members);
            && (forall i :: 0 <= i < |entries| ==> Canonical(ValuesOf(entries)[i]).Ok?)
            && Canonical(Object(members)).Ok?
            && Canonical(Object(members)).value
               == [OPEN_BRACE] + Join(Pairs(entries, TextsOf(ValuesOf(entries)))) + [CLOSE_BRACE]
  {
    EntriesFaithful(members);
    var entries := Entries(members);
    var results := seq(|entries|, i requires 0 <= i < |entries| => Canonical(entries[i].value));
    assert Gather(results).Ok?;
    assert Gather(results).value == TextsOf(ValuesOf(entries));
  }

  /** What a text can begin with; in particular not with a closing bracket. */
  lemma FirstUnit(v: Value)
    requires Canonical(v).Ok? && (v.Number? ==> Shortest(v.n))
    ensures Canonical(v).value != []
    ensures Canonical(v).value[0] in {110, 116, 102, QUOTE, OPEN_BRACKET, OPEN_BRACE, MINUS}
        || IsDigit(Canonical(v).value[0])
  {
    match v {
      case Number(n) => NumberStarts(n);
      case _ =>
    }
  }

  lemma Regroup(a: Text, b: Text, c: Text, d: Text, e: Text)
    ensures a + b + c + d + e == a + (b + (c + d + e))
  {
  }

  lemma JoinSplit(texts: seq<Text>, close: CodeUnit, rest: Text)
    requires texts != []
    ensures Join(texts) + [close] + rest
         == texts[0] + (if |texts| == 1 then [close] + rest else [COMMA] + (Join(texts[1..]) + [close] + rest))
  {
    if |texts| == 1 {
      assert texts[0] + [close] + rest == texts[0] + ([close] + rest);
    } else {
      var more := Join(texts[1..]);
      assert Join(texts) == texts[0] + [COMMA] + more;
      hide Join;
      Regroup(texts[0], [COMMA], more, [close], rest);
    }
  }

  lemma NotStarts(t: Text, prefix: Text)
    requires t != [] && prefix != [] && t[0] != prefix[0]
    ensures !Starts(t, prefix)
  {
    if |t| >= |prefix| {
      assert t[..|prefix|][0] == t[0];
    }
  }

  /** A text that begins with no word. */
  lemma NoWord(t: Text)
    requires t != [] && t[0] != 110 && t[0] != 116 && t[0] != 102
    ensures !Starts(t, NULL) && !Starts(t, TRUE) && !Starts(t, FALSE)
  {
    NotStarts(t, NULL);
    NotStarts(t, TRUE);
    NotStarts(t, FALSE);
  }

  lemma NoBracket(t: Text)
    requires t != [] && t[0] != OPEN_BRACKET && t[0] != OPEN_BRACE
    ensures !Starts(t, [OPEN_BRACKET, CLOSE_BRACKET]) && !Starts(t, [OPEN_BRACE, CLOSE_BRACE])
  {
    NotStarts(t, [OPEN_BRACKET, CLOSE_BRACKET]);
    NotStarts(t, [OPEN_BRACE, CLOSE_BRACE]);
  }

  lemma WordReads(word: Text, rest: Text)
    requires word == NULL || word == TRUE || word == FALSE
    ensures Read(word + rest) == Some((if word == NULL then JNull else JBool(word == TRUE), rest))
  {
    hide ReadItems, ReadMembers, ReadString, ReadNumber;
    var t := word + rest;
    assert t[..|word|] == word && t[|word|..] == rest;
    if word != NULL { NotStarts(t, NULL); }
    if word == FALSE { NotStarts(t, TRUE); }
  }

  lemma LeafReads(v: Value, rest: Text)
    requires Faithful(v) && Safe(rest) && !v.Array? && !v.Object?
    ensures Read(Canonical(v).value + rest) == Some((Meaning(v), rest))
  {
    hide ReadString, Escape, ReadItems, ReadMembers, ReadNumber, PrintNumber;
    var t := Canonical(v).value + rest;
    match v {
      case Null => WordReads(NULL, rest);
      case Bool(b) => WordReads(if b then TRUE else FALSE, rest);
      case Number(n) =>
        FirstUnit(v);
        NumberReads(n, rest);
        NumberStarts(n);
        NoWord(t);
        NoBracket(t);
      case String(s) =>
        NoWord(t);
        assert t[1..] == Escape(s) + [QUOTE] + rest;
        StringReads(s, rest);
    }
  }

  lemma OpenArray(t: Text, items: seq<Json>, rest: Text)
    requires |t| > 1 && t[0] == OPEN_BRACKET && t[1] != CLOSE_BRACKET
    requires ReadItems(t[1..]) == Some((items, rest))
    ensures Read(t) == Some((JArray(items), rest))
  {
    hide ReadItems, ReadMembers, ReadString, ReadNumber;
    NoWord(t);
    NotStarts(t, [OPEN_BRACE, CLOSE_BRACE]);
    assert t[..2][1] == t[1];
  }

  lemma OpenObject(t: Text, members: map<Text, Json>, rest: Text)
    requires |t| > 1 && t[0] == OPEN_BRACE && t[1] == QUOTE
    requires ReadMembers(t[1..]) == Some((members, rest))
    ensures Read(t) == Some((JObject(members), rest))
  {
    hide ReadItems, ReadMembers, ReadString, ReadNumber;
    NoWord(t);
    NotStarts(t, [OPEN_BRACKET, CLOSE_BRACKET]);
    assert t[..2][1] == t[1];
  }

  lemma EmptyReads(rest: Text)
    ensures Read([OPEN_BRACKET, CLOSE_BRACKET] + rest) == Some((JArray([]), rest))
    ensures Read([OPEN_BRACE, CLOSE_BRACE] + rest) == Some((JObject(map[]), rest))
  {
    hide ReadItems, ReadMembers, ReadString, ReadNumber;
    NoWord([OPEN_BRACKET, CLOSE_BRACKET] + rest);
    NoWord([OPEN_BRACE, CLOSE_BRACE] + rest);
    NotStarts([OPEN_BRACE, CLOSE_BRACE] + rest, [OPEN_BRACKET, CLOSE_BRACKET]);
    assert ([OPEN_BRACKET, CLOSE_BRACKET] + rest)[2..] == rest;
    assert ([OPEN_BRACE, CLOSE_BRACE] + rest)[2..] == rest;
    assert ([OPEN_BRACKET, CLOSE_BRACKET] + rest)[..2] == [OPEN_BRACKET, CLOSE_BRACKET];
    assert ([OPEN_BRACE, CLOSE_BRACE] + rest)[..2] == [OPEN_BRACE, CLOSE_BRACE];
  }

  /** Any printed value is read back whole, and what follows it is left as it was. */
  lemma {:induction false} ReadsBack(v: Value, rest: Text)
    requires Faithful(v) && Safe(rest)
    ensures Canonical(v).Ok? && Read(Canonical(v).value + rest) == Some((Meaning(v), rest))
    decreases v, 1, 0
  {
    CanonicalAnswers(v);
    if v.Array? {
      ArrayReads(v, rest);
    } else if v.Object? {
      ObjectReads(v, rest);
    } else {
      LeafReads(v, rest);
    }
  }

  lemma {:induction false} ArrayReads(v: Value, rest: Text)
    requires v.Array? && Faithful(v) && Safe(rest) && Canonical(v).Ok?
    ensures Read(Canonical(v).value + rest) == Some((Meaning(v), rest))
    decreases v, 0, |v.items| + 1
  {
    hide Read, ReadItems;
    var t := Canonical(v).value + rest;
    ArrayText(v.items);
    EmptyReads(rest);
    if v.items == [] {
      assert t == [OPEN_BRACKET, CLOSE_BRACKET] + rest;
      assert Meaning(v).items == [];
    } else {
      var texts := TextsOf(v.items);
      assert texts[0..] == texts && Meaning(v).items[0..] == Meaning(v).items;
      assert t[1..] == Join(texts) + [CLOSE_BRACKET] + rest;
      JoinSplit(texts, CLOSE_BRACKET, rest);
      assert Proper(v.items[0]);
      FirstUnit(v.items[0]);
      assert t[1] == texts[0][0];
      ItemsReadBack(v, 0, rest);
      OpenArray(t, Meaning(v).items, rest);
    }
  }

  lemma NoPairs()
    ensures Pairs([], []) == [] && Join([]) == []
  {
  }

  lemma PairStarts(entries: seq<Member>, texts: seq<Text>)
    requires |entries| == |texts| > 0
    ensures |Pairs(entries, texts)| == |entries| && Pairs(entries, texts)[0] != []
        && Pairs(entries, texts)[0][0] == QUOTE
  {
    hide Escape;
  }

  lemma {:induction false} ObjectReads(v: Value, rest: Text)
    requires v.Object? && Faithful(v) && Safe(rest) && Canonical(v).Ok?
    ensures Read(Canonical(v).value + rest) == Some((Meaning(v), rest))
    decreases v, 0, |Entries(v.members)| + 1
  {
    hide Read, ReadMembers, Entries, Meaning, Canonical, Pairs, Join;
    var t := Canonical(v).value + rest;
    var entries := Entries(v.members);
    ObjectText(v.members);
    MeaningOfEntries(v.members);
    EmptyReads(rest);
    var pairs := Pairs(entries, TextsOf(ValuesOf(entries)));
    if entries == [] {
      assert pairs == [] && Join(pairs) == [] by { NoPairs(); }
      assert t == [OPEN_BRACE, CLOSE_BRACE] + rest;
    } else {
      PairStarts(entries, TextsOf(ValuesOf(entries)));
      assert pairs[0..] == pairs;
      assert t[1..] == Join(pairs) + [CLOSE_BRACE] + rest;
      JoinSplit(pairs, CLOSE_BRACE, rest);
      assert t[1] == pairs[0][0];
      MembersReadBack(v, 0, rest);
      OpenObject(t, MapFrom(entries, 0), rest);
    }
  }

  /** One item read, and the rest of the array after it. */
  lemma ItemThen(t: Text, value: Json, next: Text, others: seq<Json>, rest: Text)
    requires Read(t) == Some((value, next)) && next != []
    requires || (next[0] == CLOSE_BRACKET && next[1..] == rest && others == [])
             || (next[0] == COMMA && ReadItems(next[1..]) == Some((others, rest)))
    ensures ReadItems(t) == Some(([value] + others, rest))
  {
    hide Read;
    assert [value] + [] == [value];
  }

  lemma {:induction false} ItemsReadBack(v: Value, k: nat, rest: Text)
    requires v.Array? && Faithful(v) && k < |v.items|
    requires forall i :: 0 <= i < |v.items| ==> Canonical(v.items[i]).Ok?
    ensures ReadItems(Join(TextsOf(v.items)[k..]) + [CLOSE_BRACKET] + rest) == Some((Meaning(v).items[k..], rest))
    decreases v, 0, |v.items| - k
  {
    hide Read, ReadItems, Canonical, Join;
    var texts := TextsOf(v.items);
    var meanings := Meaning(v).items;
    var t := Join(texts[k..]) + [CLOSE_BRACKET] + rest;
    JoinSplit(texts[k..], CLOSE_BRACKET, rest);
    assert texts[k..][1..] == texts[k + 1..];
    var next := if k + 1 == |texts| then [CLOSE_BRACKET] + rest
                else [COMMA] + (Join(texts[k + 1..]) + [CLOSE_BRACKET] + rest);
    ReadsBack(v.items[k], next);
    assert t == texts[k] + next;
    assert meanings[k] == Meaning(v.items[k]) && meanings[k..] == [meanings[k]] + meanings[k + 1..];
    if k + 1 < |texts| {
      ItemsReadBack(v, k + 1, rest);
      assert next[1..] == Join(texts[k + 1..]) + [CLOSE_BRACKET] + rest;
    } else {
      assert next[1..] == rest;
    }
    ItemThen(t, meanings[k], next, meanings[k + 1..], rest);
  }

  /** The object an entry list stands for, from entry `k` on. */
  ghost function MapFrom(entries: seq<Member>, k: nat): map<Text, Json>
    requires k <= |entries|
    requires forall i :: 0 <= i < |entries| ==> Faithful(entries[i].value)
    decreases |entries| - k
  {
    if k == |entries| then map[] else MapFrom(entries, k + 1)[entries[k].key := Meaning(entries[k].value)]
  }

  lemma {:induction false} MapFromHolds(entries: seq<Member>, k: nat)
    requires k <= |entries|
    requires forall i :: 0 <= i < |entries| ==> Faithful(entries[i].value)
    requires forall i, j :: 0 <= i < j < |entries| ==> entries[i].key != entries[j].key
    ensures forall i :: k <= i < |entries| ==>
              entries[i].key in MapFrom(entries, k) && MapFrom(entries, k)[entries[i].key] == Meaning(entries[i].value)
    ensures forall key :: key in MapFrom(entries, k) ==> exists i :: k <= i < |entries| && entries[i].key == key
    decreases |entries| - k
  {
    if k < |entries| {
      MapFromHolds(entries, k + 1);
    }
  }

  lemma MeaningHolds(members: seq<Member>, key: Text)
    requires Faithful(Object(members))
    ensures Meaning(Object(members)).JObject?
    ensures var said := Meaning(Object(members)).members;
            && (key in said <==> key in DefinedKeys(members))
            && forall j :: 0 <= j < |members| && !members[j].value.Undefined? && members[j].key == key ==>
                 Faithful(members[j].value) && said[key] == Meaning(members[j].value)
  {
    forall j | 0 <= j < |members| && !members[j].value.Undefined? && members[j].key == key
      ensures j == Holder(members, key)
    {
      assert key in DefinedKeys(members);
    }
  }

  lemma MeaningOfEntries(members: seq<Member>)
    requires Faithful(Object(members))
    ensures forall i :: 0 <= i < |Entries(members)| ==> Faithful(Entries(members)[i].value)
    ensures Meaning(Object(members)) == JObject(MapFrom(Entries(members), 0))
  {
    hide Meaning, Faithful, Entries;
    EntriesFaithful(members);
    var entries := Entries(members);
    MapFromHolds(entries, 0);
    MeaningHolds(members, []);
    var said, held := Meaning(Object(members)).members, MapFrom(entries, 0);
    forall key
      ensures key in said <==> key in held
      ensures key in said ==> said[key] == held[key]
    {
      MeaningHolds(members, key);
      if key in held {
        var i :| 0 <= i < |entries| && entries[i].key == key;
        assert entries[i] in entries;
        var j :| 0 <= j < |members| && members[j] == entries[i];
        assert members[j].key in DefinedKeys(members);
      }
      if key in said {
        var j :| 0 <= j < |members| && !members[j].value.Undefined? && members[j].key == key;
        assert members[j] in entries;
        var i :| 0 <= i < |entries| && entries[i] == members[j];
      }
    }
    assert said == held;
  }

  lemma PairReads(key: Text, text: Text, next: Text)
    ensures var t := Quoted(key) + [COLON] + text + next;
            && t != [] && t[0] == QUOTE
            && ReadString(t[1..]) == Some((key, [COLON] + (text + next)))
            && ([COLON] + (text + next))[1..] == text + next
  {
    hide ReadString, Escape;
    var t := Quoted(key) + [COLON] + text + next;
    assert t[1..] == Escape(key) + [QUOTE] + ([COLON] + (text + next));
    StringReads(key, [COLON] + (text + next));
  }

  /** One member read, and the rest of the object after it. */
  lemma MemberThen(t: Text, key: Text, body: Text, value: Json, next: Text, others: map<Text, Json>, rest: Text)
    requires t != [] && t[0] == QUOTE && ReadString(t[1..]) == Some((key, [COLON] + body))
    requires ([COLON] + body)[1..] == body && Read(body) == Some((value, next))
    requires next != []
    requires || (next[0] == CLOSE_BRACE && next[1..] == rest && others == map[])
             || (next[0] == COMMA && ReadMembers(next[1..]) == Some((others, rest)) && key !in others)
    ensures ReadMembers(t) == Some((others[key := value], rest))
  {
    hide Read, ReadString;
  }

  lemma {:induction false} MembersReadBack(v: Value, k: nat, rest: Text)
    requires v.Object? && Faithful(v) && k < |Entries(v.members)|
    requires forall i :: 0 <= i < |Entries(v.members)| ==> Faithful(Entries(v.members)[i].value)
    requires forall i :: 0 <= i < |Entries(v.members)| ==> Canonical(ValuesOf(Entries(v.members))[i]).Ok?
    ensures var entries := Entries(v.members);
            ReadMembers(Join(Pairs(entries, TextsOf(ValuesOf(entries)))[k..]) + [CLOSE_BRACE] + rest)
            == Some((MapFrom(entries, k), rest))
    decreases v, 0, |Entries(v.members)| - k
  {
    hide Meaning, Quoted, Read, Entries, Faithful, Canonical, ReadMembers;
    var entries := Entries(v.members);
    EntriesFaithful(v.members);
    var pairs := Pairs(entries, TextsOf(ValuesOf(entries)));
    JoinSplit(pairs[k..], CLOSE_BRACE, rest);
    assert pairs[k..][1..] == pairs[k + 1..];
    var next := if k + 1 == |pairs| then [CLOSE_BRACE] + rest
                else [COMMA] + (Join(pairs[k + 1..]) + [CLOSE_BRACE] + rest);
    var key, text := entries[k].key, Canonical(entries[k].value).value;
    assert entries[k] in v.members;
    ReadsBack(entries[k].value, next);
    assert Join(pairs[k..]) + [CLOSE_BRACE] + rest == pairs[k] + next;
    assert pairs[k] == Quoted(key) + [COLON] + text;
    PairReads(key, text, next);
    if k + 1 < |pairs| {
      MembersReadBack(v, k + 1, rest);
      assert next[1..] == Join(pairs[k + 1..]) + [CLOSE_BRACE] + rest;
      MapFromHolds(entries, k + 1);
      assert key !in MapFrom(entries, k + 1);
    } else {
      assert next[1..] == rest;
      assert MapFrom(entries, k + 1) == map[];
    }
    MemberThen(pairs[k] + next, key, text + next, Meaning(entries[k].value), next, MapFrom(entries, k + 1), rest);
  }

  // ----- equal values print equally

  function KeysOf(es: seq<Member>): (keys: seq<Text>)
    ensures |keys| == |es| && forall i :: 0 <= i < |es| ==> keys[i] == es[i].key
  {
    seq(|es|, i requires 0 <= i < |es| => es[i].key)
  }

  lemma {:induction false} SameMembers<T>(a: seq<T>, b: seq<T>)
    requires Distinct(a) && Distinct(b) && forall x :: x in a <==> x in b
    ensures multiset(a) == multiset(b)
  {
    DistinctByMultiset(a);
    DistinctByMultiset(b);
    forall x ensures multiset(a)[x] == multiset(b)[x] {
      assert x in a <==> x in multiset(a);
      assert x in b <==> x in multiset(b);
    }
  }

  /** The key order is unique: the same keys, sorted, stand in the same places. */
  lemma SameKeys(a: seq<Member>, b: seq<Member>)
    requires Sorted(a, KeyOrder) && Sorted(b, KeyOrder)
    requires Distinct(KeysOf(a)) && Distinct(KeysOf(b))
    requires forall k :: k in KeysOf(a) <==> k in KeysOf(b)
    ensures KeysOf(a) == KeysOf(b)
  {
    SameMembers(KeysOf(a), KeysOf(b));
    forall i, j | 0 <= i < j < |a| ensures TextOrder(KeysOf(a)[i], KeysOf(a)[j]) {
      assert KeyOrder(a[i], a[j]);
    }
    forall i, j | 0 <= i < j < |b| ensures TextOrder(KeysOf(b)[i], KeysOf(b)[j]) {
      assert KeyOrder(b[i], b[j]);
    }
    forall x, y | x in KeysOf(a) && y in KeysOf(a) && TextOrder(x, y) && TextOrder(y, x) ensures x == y {
      LexTotal(x, y);
    }
    SortedUnique(KeysOf(a), KeysOf(b), TextOrder);
  }

  lemma {:induction false} SameMeaningPrints(a: Value, b: Value)
    requires Faithful(a) && Faithful(b) && Meaning(a) == Meaning(b)
    ensures Canonical(a) == Canonical(b)
    decreases a, 1
  {
    match a {
      case Array(items) =>
        ArrayText(items);
        ArrayText(b.items);
        assert Meaning(a).items == Meaning(b).items;
        forall i | 0 <= i < |items| ensures Canonical(items[i]) == Canonical(b.items[i]) {
          assert Meaning(a).items[i] == Meaning(b.items[i]);
          SameMeaningPrints(items[i], b.items[i]);
        }
        assert TextsOf(items) == TextsOf(b.items);
        CanonicalAnswers(a);
        CanonicalAnswers(b);
      case Object(members) =>
        SameEntriesPrint(a, b);
      case _ =>
    }
  }

  lemma EntriesMatch(a: seq<Member>, b: seq<Member>)
    requires Faithful(Object(a)) && Faithful(Object(b)) && Meaning(Object(a)) == Meaning(Object(b))
    ensures var es, fs := Entries(a), Entries(b);
            && KeysOf(es) == KeysOf(fs) && |es| == |fs|
            && (forall i :: 0 <= i < |es| ==> Faithful(es[i].value) && Faithful(fs[i].value))
            && (forall i :: 0 <= i < |es| ==> Meaning(es[i].value) == Meaning(fs[i].value))
  {
    hide Meaning, Faithful, Entries, KeyOrder;
    var es, fs := Entries(a), Entries(b);
    EntriesFaithful(a);
    EntriesFaithful(b);
    MeaningOfEntries(a);
    MeaningOfEntries(b);
    MapFromHolds(es, 0);
    MapFromHolds(fs, 0);
    EntriesKeys(es);
    EntriesKeys(fs);
    SameKeys(es, fs);
    assert |KeysOf(es)| == |KeysOf(fs)|;
    forall i | 0 <= i < |es| ensures Meaning(es[i].value) == Meaning(fs[i].value) {
      assert KeysOf(es)[i] == KeysOf(fs)[i];
    }
  }

  lemma EntriesKeys(entries: seq<Member>)
    requires forall i :: 0 <= i < |entries| ==> Faithful(entries[i].value)
    requires forall i, j :: 0 <= i < j < |entries| ==> entries[i].key != entries[j].key
    ensures Distinct(KeysOf(entries))
    ensures forall k :: k in KeysOf(entries) <==> k in MapFrom(entries, 0)
  {
    hide Meaning, Faithful;
    MapFromHolds(entries, 0);
    forall k ensures k in KeysOf(entries) <==> k in MapFrom(entries, 0) {
      if k in MapFrom(entries, 0) {
        var i :| 0 <= i < |entries| && entries[i].key == k;
        assert KeysOf(entries)[i] == k;
      }
    }
  }

  lemma {:induction false} SameEntriesPrint(a: Value, b: Value)
    requires a.Object? && Faithful(a) && Faithful(b) && Meaning(a) == Meaning(b)
    ensures Canonical(a) == Canonical(b)
    decreases a, 0
  {
    assert b.Object?;
    var es, fs := Entries(a.members), Entries(b.members);
    EntriesMatch(a.members, b.members);
    EntriesFaithful(a.members);
    forall i | 0 <= i < |es| ensures Canonical(es[i].value) == Canonical(fs[i].value) {
      assert es[i] in a.members;
      SameMeaningPrints(es[i].value, fs[i].value);
    }
    SameTexts(a.members, b.members);
  }

  lemma SameTexts(a: seq<Member>, b: seq<Member>)
    requires Faithful(Object(a)) && Faithful(Object(b))
    requires var es, fs := Entries(a), Entries(b);
             && KeysOf(es) == KeysOf(fs) && |es| == |fs|
             && forall i :: 0 <= i < |es| ==> Canonical(es[i].value) == Canonical(fs[i].value)
    ensures Canonical(Object(a)) == Canonical(Object(b))
  {
    hide Canonical, Entries, Faithful;
    var es, fs := Entries(a), Entries(b);
    ObjectText(a);
    ObjectText(b);
    SamePairs(es, fs);
  }

  lemma SamePairs(es: seq<Member>, fs: seq<Member>)
    requires KeysOf(es) == KeysOf(fs) && |es| == |fs|
    requires forall i :: 0 <= i < |es| ==> Canonical(es[i].value) == Canonical(fs[i].value)
    requires forall i :: 0 <= i < |es| ==> Canonical(ValuesOf(es)[i]).Ok?
    requires forall i :: 0 <= i < |fs| ==> Canonical(ValuesOf(fs)[i]).Ok?
    ensures Pairs(es, TextsOf(ValuesOf(es))) == Pairs(fs, TextsOf(ValuesOf(fs)))
  {
    hide Canonical, Quoted;
    forall i | 0 <= i < |es| ensures es[i].key == fs[i].key && TextsOf(ValuesOf(es))[i] == TextsOf(ValuesOf(fs))[i] {
      assert KeysOf(es)[i] == KeysOf(fs)[i];
    }
  }

  /** The canonical form: same text iff same JSON value. */
  lemma CanonicalExactly(a: Value, b: Value)
    requires Faithful(a) && Faithful(b)
    ensures Canonical(a) == Canonical(b) <==> Meaning(a) == Meaning(b)
  {
    if Canonical(a) == Canonical(b) {
      ReadsBack(a, []);
      ReadsBack(b, []);
    } else if Meaning(a) == Meaning(b) {
      SameMeaningPrints(a, b);
    }
  }
}
