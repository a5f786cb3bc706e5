/** In which order an object's members are printed. */
module CanonicalKeys {
  import opened Wrappers
  import opened Sorting
  import opened ByteStrings
  import opened Texts
  import opened CanonicalJson
  import opened CanonicalForm

  /** A proper prefix, or the smaller unit where the two first differ. */
  ghost predicate Before(a: Text, b: Text) {
    exists n: nat :: n <= |a| && n < |b| && a[..n] == b[..n] && (n == |a| || a[n] < b[n])
  }

  ghost predicate Ascending(keys: seq<Text>) {
    forall i :: 0 <= i < |keys| - 1 ==> Before(keys[i], keys[i + 1])
  }

  lemma {:induction false} LexBefore(a: Text, b: Text)
    requires LexLeq(a, b) && a != b
    ensures Before(a, b)
  {
    if a == [] || a[0] < b[0] {
      assert a[..0] == b[..0];
    } else {
      assert a == [a[0]] + a[1..] && b == [b[0]] + b[1..];
      LexBefore(a[1..], b[1..]);
      var n: nat :| n <= |a[1..]| && n < |b[1..]| && a[1..][..n] == b[1..][..n]
                    && (n == |a[1..]| || a[1..][n] < b[1..][n]);
      assert a[..n + 1] == [a[0]] + a[1..][..n] && b[..n + 1] == [b[0]] + b[1..][..n];
    }
  }

  lemma {:induction false} BeforeLex(a: Text, b: Text)
    requires Before(a, b)
    ensures LexLeq(a, b) && a != b
  {
    var n: nat :| n <= |a| && n < |b| && a[..n] == b[..n] && (n == |a| || a[n] < b[n]);
    if n > 0 {
      assert a[0] == a[..n][0] == b[..n][0] == b[0];
      assert a[1..][..n - 1] == a[..n][1..] == b[..n][1..] == b[1..][..n - 1];
      assert n - 1 == |a[1..]| || a[1..][n - 1] < b[1..][n - 1];
      BeforeLex(a[1..], b[1..]);
    }
  }

  lemma {:induction false} AscendingAll(keys: seq<Text>, i: nat, j: nat)
    requires Ascending(keys) && i < j < |keys|
    ensures LexLeq(keys[i], keys[j]) && keys[i] != keys[j]
  {
    BeforeLex(keys[j - 1], keys[j]);
    if i < j - 1 {
      AscendingAll(keys, i, j - 1);
      LexTransitive(keys[i], keys[j - 1], keys[j]);
      LexTotal(keys[j - 1], keys[j]);
    }
  }

  /** There is one ascending list of a set of keys. */
  lemma AscendingUnique(keys: seq<Text>, others: seq<Text>)
    requires Ascending(keys) && Ascending(others) && forall k :: k in keys <==> k in others
    ensures keys == others
  {
    hide Ascending, LexLeq;
    forall i: nat, j: nat | i < j < |keys| ensures LexLeq(keys[i], keys[j]) && keys[i] != keys[j] {
      AscendingAll(keys, i, j);
    }
    forall i: nat, j: nat | i < j < |others| ensures LexLeq(others[i], others[j]) && others[i] != others[j] {
      AscendingAll(others, i, j);
    }
    forall a, b | a in keys && b in keys && LexLeq(a, b) && LexLeq(b, a) ensures a == b {
      LexTotal(a, b);
    }
    SameMembers(keys, others);
    SortedUnique(keys, others, (a, b) => LexLeq(a, b));
  }

  function Spelled(keys: seq<Text>, texts: seq<Text>): seq<Text>
    requires |keys| == |texts|
  {
    seq(|keys|, i requires 0 <= i < |keys| => Quoted(keys[i]) + [COLON] + texts[i])
  }

  /** The text of the defined member that has the key. */
  ghost predicate TextAt(members: seq<Member>, key: Text, text: Text) {
    exists m :: m in members && m.key == key && !m.value.Undefined? && Canonical(m.value) == Ok(text)
  }

  /** An object is printed as its defined members in the ascending order of their keys. */
  lemma ObjectSpelled(members: seq<Member>) returns (keys: seq<Text>, texts: seq<Text>)
    requires Faithful(Object(members))
    ensures Ascending(keys) && forall k :: k in keys <==> exists m :: m in members && m.key == k && !m.value.Undefined?
    ensures |texts| == |keys|
    ensures forall i :: 0 <= i < |keys| ==> TextAt(members, keys[i], texts[i])
    ensures Canonical(Object(members)) == Ok([123] + Join(Spelled(keys, texts)) + [125])
  {
    hide LexLeq, Entries, Canonical, Faithful, Join, Quoted;
    var entries := Entries(members);
    ObjectText(members);
    EntriesFaithful(members);
    keys, texts := KeysOf(entries), TextsOf(ValuesOf(entries));
    forall i | 0 <= i < |keys| - 1 ensures Before(keys[i], keys[i + 1]) {
      assert KeyOrder(entries[i], entries[i + 1]);
      LexBefore(keys[i], keys[i + 1]);
    }
    forall k ensures k in keys <==> exists m :: m in members && m.key == k && !m.value.Undefined? {
      if m :| m in members && m.key == k && !m.value.Undefined? {
        var i :| 0 <= i < |entries| && entries[i] == m;
        assert keys[i] == k;
      }
      if k in keys {
        var i :| 0 <= i < |keys| && keys[i] == k;
        assert entries[i] in entries;
      }
    }
    forall i | 0 <= i < |keys| ensures TextAt(members, keys[i], texts[i]) {
      assert entries[i] in entries && entries[i] in members && Canonical(ValuesOf(entries)[i]).Ok?;
    }
    assert Pairs(entries, texts) == Spelled(keys, texts);
  }

  /** Two members, in whichever order they stand: `{"a":null,"b":true}`. */
  lemma TwoKeys()
    ensures var a, b := Member([97], Null), Member([98], Bool(true));
            Canonical(Object([b, a])) == Canonical(Object([a, b]))
            && Canonical(Object([b, a]))
               == Ok([123] + ([34, 97, 34] + [58] + [110, 117, 108, 108] + [44]
                              + ([34, 98, 34] + [58] + [116, 114, 117, 101])) + [125])
  {
    var a, b := Member([97], Null), Member([98], Bool(true));
    hide Canonical, Faithful, Entries, Quoted, KeyOrder;
    assert KeyOrder(a, b) && !KeyOrder(b, a) by { Unlike(a, b); }
    TwoEntries(a, b);
    assert Faithful(Object([a, b])) && Faithful(Object([b, a])) by { Unlike(a, b); }
    TwoText([b, a], a, b);
    TwoText([a, b], a, b);
    TwoQuoted();
  }

  lemma Unlike(a: Member, b: Member)
    requires a == Member([97], Null) && b == Member([98], Bool(true))
    ensures KeyOrder(a, b) && !KeyOrder(b, a) && Faithful(Object([a, b])) && Faithful(Object([b, a]))
  {
    hide Canonical, Quoted;
    assert a.key[0] != b.key[0];
    assert Proper(a.value) && Proper(b.value) && Printable(a.value) && Printable(b.value);
    var x, y := Object([a, b]), Object([b, a]);
    assert Printable(x) && Printable(y);
    assert Proper(x) && Proper(y);
  }

  lemma TwoQuoted()
    ensures Quoted([97]) == [34, 97, 34] && Quoted([98]) == [34, 98, 34]
    ensures Canonical(Null) == Ok([110, 117, 108, 108]) && Canonical(Bool(true)) == Ok([116, 114, 117, 101])
  {
    assert Escape([97]) == [97] && Escape([98]) == [98];
  }

  lemma OneEntry(m: Member)
    requires !m.value.Undefined?
    ensures Defined([m]) == [m] && Sort([m], KeyOrder) == [m]
  {
    assert [m][1..] == [] && [m] + [] == [m];
  }

  lemma TwoEntries(a: Member, b: Member)
    requires KeyOrder(a, b) && !KeyOrder(b, a) && !a.value.Undefined? && !b.value.Undefined?
    ensures Entries([b, a]) == [a, b] && Entries([a, b]) == [a, b]
  {
    hide KeyOrder;
    assert [b, a][1..] == [a] && [a, b][1..] == [b];
    OneEntry(a);
    OneEntry(b);
    assert Sort([b, a], KeyOrder) == Insert(b, [a], KeyOrder) == [a] + Insert(b, [], KeyOrder);
  }

  lemma TwoText(members: seq<Member>, a: Member, b: Member)
    requires Faithful(Object(members)) && Entries(members) == [a, b]
    ensures Canonical(a.value).Ok? && Canonical(b.value).Ok?
    ensures Canonical(Object(members))
            == Ok([OPEN_BRACE] + (Quoted(a.key) + [COLON] + Canonical(a.value).value + [COMMA]
                                  + (Quoted(b.key) + [COLON] + Canonical(b.value).value)) + [CLOSE_BRACE])
  {
    hide Canonical, Faithful, Quoted, Entries;
    ObjectText(members);
    assert ValuesOf([a, b]) == [a.value, b.value];
    var pairs := Pairs([a, b], TextsOf([a.value, b.value]));
    assert pairs == [pairs[0], pairs[1]];
    assert Join(pairs) == pairs[0] + [COMMA] + pairs[1];
  }

  /** The words, and a list: `null`, `true`, `false`, `[a,b,...]`. */
  lemma WordsAndLists(items: seq<Value>)
    requires Printable(Array(items))
    ensures Canonical(Null) == Ok([110, 117, 108, 108])
    ensures Canonical(Bool(true)) == Ok([116, 114, 117, 101])
    ensures Canonical(Bool(false)) == Ok([102, 97, 108, 115, 101])
    ensures forall i :: 0 <= i < |items| ==> Canonical(items[i]).Ok?
    ensures Canonical(Array(items)) == Ok([91] + Join(TextsOf(items)) + [93])
    ensures |items| == 2 ==> Join(TextsOf(items)) == TextsOf(items)[0] + [44] + TextsOf(items)[1]
  {
    ArrayText(items);
  }
}
