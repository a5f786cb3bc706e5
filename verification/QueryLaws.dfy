/**
 What reading and writing a query string keep: corrections settle at once, foreign
 parameters survive, valid states read back, and the state fixes the link up to its order.
 */
module QueryLaws {
  import opened Wrappers
  import opened QueryState

  // ----- the canonical list

  lemma {:induction false} SpecAt(entries: seq<Entry>, i: nat)
    requires DistinctNames(entries) && i < |entries|
    ensures SpecOf(entries, entries[i].name) == Some(entries[i].spec)
  {
    if i < |entries| - 1 {
      SpecAt(entries[..|entries| - 1], i);
    }
  }

  lemma {:induction false} ValuesAt(c: Codec, q: Query, entries: seq<Entry>, name: Text)
    ensures name in Values(c, q, entries) <==> SpecOf(entries, name).Some?
    ensures name in Values(c, q, entries) ==>
              Values(c, q, entries)[name] == Normalise(c, Get(q, name), SpecOf(entries, name).value)
  {
    hide Normalise, Get;
    if entries != [] {
      ValuesAt(c, q, entries[..|entries| - 1], name);
    }
  }

  /** The first value of a listed name in the canonical list is the text of the value it reads as. */
  lemma {:induction false} GetCanonical(c: Codec, q: Query, entries: seq<Entry>, name: Text)
    requires SpecOf(entries, name).Some?
    ensures var s := SpecOf(entries, name).value;
            var v := Normalise(c, Get(q, name), s);
            Get(Canonical(c, q, entries), name) == if Unwritten(v, s) then None else Some(TextOf(c, v))
  {
    hide Normalise, TextOf, Unwritten, SpecOf;
    var s := SpecOf(entries, name).value;
    ReadingsAreValid(c, None, s);
    DefaultUnwritten(s);
    if q != [] {
      var front, last := q[..|q| - 1], q[|q| - 1];
      GetCanonical(c, front, entries, name);
      var was, kept := Canonical(c, front, entries), Rule(c, entries, Has(front, last.name), last);
      if kept == [] {
        assert was + kept == was;
      } else {
        assert kept == [kept[0]];
        GetSnoc(was, kept[0], name);
      }
    }
  }

  lemma NoNewNames(c: Codec, q: Query, entries: seq<Entry>, name: Text)
    requires Has(Canonical(c, q, entries), name)
    ensures Has(q, name)
  {
    hide Canonical, Normalise, TextOf;
    if SpecOf(entries, name).Some? {
      GetCanonical(c, q, entries, name);
      ReadingsAreValid(c, None, SpecOf(entries, name).value);
    } else {
      UnlistedKeeps(c, q, entries, name);
    }
  }

  lemma KeptIsStable(c: Codec, entries: seq<Entry>, p: Param)
    requires RoundTrips(c)
    ensures var kept := Rule(c, entries, false, p);
            kept == [] || (|kept| == 1 && kept[0].name == p.name && Rule(c, entries, false, kept[0]) == kept)
  {
    hide Normalise, TextOf, Unwritten, SpecOf;
    if SpecOf(entries, p.name).Some? {
      var s := SpecOf(entries, p.name).value;
      var v := Normalise(c, Some(p.value), s);
      ReadingsAreValid(c, Some(p.value), s);
      WrittenReadsBack(c, v, s);
    }
  }

  /** A corrected query string needs no further correction. */
  lemma {:induction false} CanonicalSettles(c: Codec, q: Query, entries: seq<Entry>)
    requires RoundTrips(c)
    ensures Canonical(c, Canonical(c, q, entries), entries) == Canonical(c, q, entries)
  {
    hide Rule, Get, RoundTrips;
    if q != [] {
      var front, last := q[..|q| - 1], q[|q| - 1];
      CanonicalSettles(c, front, entries);
      var was, kept := Canonical(c, front, entries), Rule(c, entries, Has(front, last.name), last);
      if kept == [] {
        assert was + kept == was;
      } else {
        KeptStays(c, front, entries, last);
        assert kept == [kept[0]];
        CanonicalSnoc(c, was, kept[0], entries);
      }
    }
  }

  lemma KeptStays(c: Codec, front: Query, entries: seq<Entry>, last: Param)
    requires RoundTrips(c) && Rule(c, entries, Has(front, last.name), last) != []
    ensures var kept := Rule(c, entries, Has(front, last.name), last);
            |kept| == 1 && Rule(c, entries, Has(Canonical(c, front, entries), kept[0].name), kept[0]) == kept
  {
    hide Canonical, Normalise, TextOf, Unwritten;
    KeptIsStable(c, entries, last);
    if Has(Canonical(c, front, entries), last.name) {
      NoNewNames(c, front, entries, last.name);
    }
  }

  /** The correction changes no value: the corrected link shows the same state. */
  lemma CorrectionKeepsValues(c: Codec, q: Query, entries: seq<Entry>)
    requires RoundTrips(c)
    ensures Values(c, Canonical(c, q, entries), entries) == Values(c, q, entries)
  {
    hide Canonical, Values, Normalise, TextOf, Unwritten, SpecOf, Get, RoundTrips;
    var was, now := Values(c, q, entries), Values(c, Canonical(c, q, entries), entries);
    forall name ensures name in was <==> name in now
                ensures name in was ==> was[name] == now[name]
    {
      ValuesAt(c, q, entries, name);
      ValuesAt(c, Canonical(c, q, entries), entries, name);
      if name in was {
        var s := SpecOf(entries, name).value;
        GetCanonical(c, q, entries, name);
        ReadingsAreValid(c, Get(q, name), s);
        WrittenReadsBack(c, Normalise(c, Get(q, name), s), s);
      }
    }
  }

  // ----- foreign parameters

  /** The parameters the view does not name, in their order. */
  function Unowned(q: Query, entries: seq<Entry>): Query {
    if q == [] then []
    else
      var last := q[|q| - 1];
      Unowned(q[..|q| - 1], entries) + if SpecOf(entries, last.name) == None then [last] else []
  }

  lemma UnownedSnoc(q: Query, p: Param, entries: seq<Entry>)
    ensures Unowned(q + [p], entries) == Unowned(q, entries) + if SpecOf(entries, p.name) == None then [p] else []
  {
    assert (q + [p])[..|q|] == q;
  }

  /** Parameters the view does not name survive a correction, in order and with their duplicates. */
  lemma {:induction false} ForeignSurvive(c: Codec, q: Query, entries: seq<Entry>)
    ensures Unowned(Canonical(c, q, entries), entries) == Unowned(q, entries)
  {
    hide Normalise, TextOf, Unwritten, SpecOf, Get;
    if q != [] {
      var front, last := q[..|q| - 1], q[|q| - 1];
      ForeignSurvive(c, front, entries);
      var was, kept := Canonical(c, front, entries), Rule(c, entries, Has(front, last.name), last);
      if kept == [] {
        assert was + kept == was;
      } else {
        assert kept == [kept[0]] && kept[0].name == last.name;
        UnownedSnoc(was, kept[0], entries);
      }
    }
  }

  // ----- when nothing needs correcting

  /** A parameter the canonical list leaves as it is, at its place. */
  predicate Stays(c: Codec, entries: seq<Entry>, q: Query, i: nat)
    requires i < |q|
  {
    match SpecOf(entries, q[i].name)
    case None => true
    case Some(s) =>
      && (forall j :: 0 <= j < i ==> q[j].name != q[i].name)
      && var v := Normalise(c, Some(q[i].value), s);
         !Unwritten(v, s) && TextOf(c, v) == q[i].value
  }

  lemma {:induction false} HasIffOccurs(q: Query, name: Text)
    ensures Has(q, name) <==> exists j :: 0 <= j < |q| && q[j].name == name
  {
    if q != [] {
      var front := q[..|q| - 1];
      HasIffOccurs(front, name);
      assert forall j :: 0 <= j < |front| ==> front[j] == q[j];
    }
  }

  lemma {:induction false} NotLonger(c: Codec, q: Query, entries: seq<Entry>)
    ensures |Canonical(c, q, entries)| <= |q|
  {
    hide Normalise, TextOf, Unwritten, SpecOf, Get;
    if q != [] {
      NotLonger(c, q[..|q| - 1], entries);
    }
  }

  lemma FrontStays(c: Codec, entries: seq<Entry>, q: Query, i: nat)
    requires i < |q| - 1
    ensures Stays(c, entries, q[..|q| - 1], i) <==> Stays(c, entries, q, i)
  {
    hide Normalise, TextOf, Unwritten, SpecOf;
    var front := q[..|q| - 1];
    assert forall j :: 0 <= j <= i ==> front[j] == q[j];
  }

  lemma LastStays(c: Codec, entries: seq<Entry>, q: Query)
    requires |q| > 0
    ensures var last := q[|q| - 1];
            Rule(c, entries, Has(q[..|q| - 1], last.name), last) == [last] <==> Stays(c, entries, q, |q| - 1)
  {
    hide Normalise, TextOf, Unwritten, SpecOf, Get;
    HasIffOccurs(q[..|q| - 1], q[|q| - 1].name);
  }

  /**
   A query string needs no correction exactly when every parameter the view names
   stands once, is not at its default, and is spelled as its value is written.
   */
  lemma {:induction false} CanonicalIff(c: Codec, q: Query, entries: seq<Entry>)
    ensures Canonical(c, q, entries) == q <==> forall i: nat :: i < |q| ==> Stays(c, entries, q, i)
  {
    hide Stays, Rule, Get;
    if q != [] {
      var front, last := q[..|q| - 1], q[|q| - 1];
      CanonicalIff(c, front, entries);
      NotLonger(c, front, entries);
      LastStays(c, entries, q);
      forall i: nat | i < |front| ensures Stays(c, entries, front, i) <==> Stays(c, entries, q, i) {
        FrontStays(c, entries, q, i);
      }
      var was, kept := Canonical(c, front, entries), Rule(c, entries, Has(front, last.name), last);
      assert q == front + [last];
      RuleIsShort(c, entries, Has(front, last.name), last);
      if was + kept == q {
        assert |was| == |front| && was == q[..|front|] && kept == q[|front|..];
      }
      assert was + kept == q <==> was == front && kept == [last];
      assert (forall i: nat :: i < |front| ==> Stays(c, entries, front, i))
        <==> (forall i: nat :: i < |front| ==> Stays(c, entries, q, i));
      assert (forall i: nat :: i < |q| ==> Stays(c, entries, q, i))
        <==> (forall i: nat :: i < |front| ==> Stays(c, entries, q, i)) && Stays(c, entries, q, |q| - 1);
    }
  }

  lemma RuleIsShort(c: Codec, entries: seq<Entry>, seen: bool, p: Param)
    ensures |Rule(c, entries, seen, p)| <= 1
  {
  }

  // ----- the state fixes the parameters

  /** The parameters a state is written as. */
  function OwnedParams(c: Codec, values: map<Text, ParamValue>, entries: seq<Entry>): Query {
    if entries == [] then []
    else
      var e := entries[|entries| - 1];
      OwnedParams(c, values, entries[..|entries| - 1])
      + if e.name !in values || Unwritten(values[e.name], e.spec) then []
        else [Param(e.name, TextOf(c, values[e.name]))]
  }

  lemma {:induction false} CountOwned(c: Codec, values: map<Text, ParamValue>, entries: seq<Entry>, p: Param)
    requires DistinctNames(entries)
    ensures multiset(OwnedParams(c, values, entries))[p]
         == match SpecOf(entries, p.name)
            case None => 0
            case Some(s) =>
              if p.name in values && !Unwritten(values[p.name], s) && p.value == TextOf(c, values[p.name]) then 1 else 0
  {
    hide TextOf, Unwritten;
    if entries != [] {
      var front, e := entries[..|entries| - 1], entries[|entries| - 1];
      CountOwned(c, values, front, p);
      SpecOfListed(front, p.name);
      assert forall i :: 0 <= i < |front| ==> front[i].name != e.name;
    }
  }

  lemma {:induction false} CountForeign(q: Query, entries: seq<Entry>, p: Param)
    ensures multiset(Unowned(q, entries))[p] == if SpecOf(entries, p.name) == None then multiset(q)[p] else 0
  {
    if q != [] {
      var front, last := q[..|q| - 1], q[|q| - 1];
      CountForeign(front, entries, p);
      assert q == front + [last];
    }
  }

  lemma {:induction false} CountCanonical(c: Codec, q: Query, entries: seq<Entry>, p: Param)
    requires SpecOf(entries, p.name).Some?
    ensures var s := SpecOf(entries, p.name).value;
            var v := Normalise(c, Get(q, p.name), s);
            multiset(Canonical(c, q, entries))[p] == if !Unwritten(v, s) && p.value == TextOf(c, v) then 1 else 0
  {
    hide Normalise, TextOf, Unwritten, SpecOf;
    var s := SpecOf(entries, p.name).value;
    ReadingsAreValid(c, None, s);
    DefaultUnwritten(s);
    if q != [] {
      var front, last := q[..|q| - 1], q[|q| - 1];
      CountCanonical(c, front, entries, p);
      var kept := Rule(c, entries, Has(front, last.name), last);
      RuleNames(c, entries, Has(front, last.name), last);
      assert multiset(Canonical(c, q, entries)) == multiset(Canonical(c, front, entries)) + multiset(kept);
      if last.name != p.name {
        assert multiset(kept)[p] == 0;
      }
    }
  }

  lemma RuleNames(c: Codec, entries: seq<Entry>, seen: bool, p: Param)
    ensures forall k :: k in Rule(c, entries, seen, p) ==> k.name == p.name
  {
    hide Normalise, TextOf, Unwritten, SpecOf;
  }

  /** A canonical list is its foreign parameters and those its state is written as, in some order. */
  lemma CanonicalParameters(c: Codec, q: Query, entries: seq<Entry>)
    requires DistinctNames(entries)
    ensures multiset(Canonical(c, q, entries))
         == multiset(Unowned(q, entries)) + multiset(OwnedParams(c, Values(c, q, entries), entries))
  {
    hide Canonical, Normalise, TextOf, Unwritten, SpecOf, Get, Unowned, OwnedParams, Values;
    forall p ensures multiset(Canonical(c, q, entries))[p]
                  == multiset(Unowned(q, entries))[p] + multiset(OwnedParams(c, Values(c, q, entries), entries))[p]
    {
      CountForeign(q, entries, p);
      CountOwned(c, Values(c, q, entries), entries, p);
      ValuesAt(c, q, entries, p.name);
      if SpecOf(entries, p.name).Some? {
        CountCanonical(c, q, entries, p);
      } else {
        ForeignSurvive(c, q, entries);
        CountForeign(Canonical(c, q, entries), entries, p);
      }
    }
  }

  /** Equal states with equal foreign parameters have the same parameters in the address bar. */
  lemma SameStateSameParameters(c: Codec, q: Query, r: Query, entries: seq<Entry>)
    requires DistinctNames(entries) && Values(c, q, entries) == Values(c, r, entries)
    requires multiset(Unowned(q, entries)) == multiset(Unowned(r, entries))
    ensures multiset(Canonical(c, q, entries)) == multiset(Canonical(c, r, entries))
  {
    hide *;
    CanonicalParameters(c, q, entries);
    CanonicalParameters(c, r, entries);
  }

  function Names(q: Query): seq<Text> { seq(|q|, i requires 0 <= i < |q| => q[i].name) }

  /**
   Two canonical links of one state are the same link exactly when their foreign parameters agree and their
   order does.
   */
  lemma SameLinkIff(c: Codec, q: Query, r: Query, entries: seq<Entry>)
    requires Canonical(c, q, entries) == q && Canonical(c, r, entries) == r
    requires Values(c, q, entries) == Values(c, r, entries)
    ensures q == r <==> Names(q) == Names(r) && Unowned(q, entries) == Unowned(r, entries)
  {
    if Names(q) == Names(r) && Unowned(q, entries) == Unowned(r, entries) {
      assert |q| == |Names(q)| == |Names(r)| == |r|;
      SameOrderSameLink(c, q, r, entries);
    }
  }

  lemma {:induction false} SameOrderSameLink(c: Codec, q: Query, r: Query, entries: seq<Entry>)
    requires Canonical(c, q, entries) == q && Canonical(c, r, entries) == r
    requires Values(c, q, entries) == Values(c, r, entries)
    requires Names(q) == Names(r) && Unowned(q, entries) == Unowned(r, entries)
    ensures q == r
  {
    hide Canonical, Values, Unowned, Names, Stays, Normalise;
    SameNames(q, r);
    forall i | 0 <= i < |q| && SpecOf(entries, q[i].name).Some? ensures q[i] == r[i] {
      OwnedIsFixed(c, q, entries, i);
      OwnedIsFixed(c, r, entries, i);
      ValuesAt(c, q, entries, q[i].name);
      ValuesAt(c, r, entries, q[i].name);
    }
    ForeignInPlace(q, r, entries);
  }

  lemma SameNames(q: Query, r: Query)
    requires Names(q) == Names(r)
    ensures |q| == |r| && forall i :: 0 <= i < |q| ==> q[i].name == r[i].name
  {
    assert |q| == |Names(q)| == |Names(r)| == |r|;
    forall i | 0 <= i < |q| ensures q[i].name == r[i].name {
      assert Names(q)[i] == Names(r)[i];
    }
  }

  lemma OwnedIsFixed(c: Codec, q: Query, entries: seq<Entry>, i: nat)
    requires Canonical(c, q, entries) == q && i < |q| && SpecOf(entries, q[i].name).Some?
    ensures q[i].value == TextOf(c, Normalise(c, Get(q, q[i].name), SpecOf(entries, q[i].name).value))
  {
    hide Canonical, Normalise, TextOf, Unwritten;
    CanonicalIff(c, q, entries);
    assert Stays(c, entries, q, i);
    GetFirst(q, i);
  }

  lemma {:induction false} GetFirst(q: Query, i: nat)
    requires i < |q| && forall j :: 0 <= j < i ==> q[j].name != q[i].name
    ensures Get(q, q[i].name) == Some(q[i].value)
  {
    var front := q[..|q| - 1];
    if i < |front| {
      GetFirst(front, i);
    } else {
      HasIffOccurs(front, q[i].name);
    }
  }

  lemma {:induction false} ForeignInPlace(q: Query, r: Query, entries: seq<Entry>)
    requires |q| == |r| && forall i :: 0 <= i < |q| ==> q[i].name == r[i].name
    requires forall i :: 0 <= i < |q| && SpecOf(entries, q[i].name).Some? ==> q[i] == r[i]
    requires Unowned(q, entries) == Unowned(r, entries)
    ensures q == r
  {
    hide SpecOf, Unowned;
    if q != [] {
      var a, b := q[..|q| - 1], r[..|r| - 1];
      var x, y := q[|q| - 1], r[|r| - 1];
      assert q == a + [x] && r == b + [y];
      UnownedSnoc(a, x, entries);
      UnownedSnoc(b, y, entries);
      if SpecOf(entries, x.name) == None {
        SameSnoc(Unowned(a, entries), x, Unowned(b, entries), y);
      } else {
        assert Unowned(q, entries) == Unowned(a, entries) && Unowned(r, entries) == Unowned(b, entries);
      }
      ForeignInPlace(a, b, entries);
    }
  }

  lemma SameSnoc<T>(a: seq<T>, x: T, b: seq<T>, y: T)
    requires a + [x] == b + [y]
    ensures a == b && x == y
  {
    assert |a + [x]| == |b + [y]|;
    assert a == (a + [x])[..|a|] && b == (b + [y])[..|b|];
    assert x == (a + [x])[|a|] && y == (b + [y])[|b|];
  }

  // ----- writing

  /** The list after a state the reader has chosen: the named keys put in place, in the entries' order. */
  function Written(c: Codec, q: Query, entries: seq<Entry>, next: map<Text, ParamValue>): Query {
    if entries == [] then q
    else
      var before, e := Written(c, q, entries[..|entries| - 1], next), entries[|entries| - 1];
      if e.name in next then Put(c, before, e, next[e.name]) else before
  }

  method WriteQuery(c: Codec, search: Query, entries: seq<Entry>, next: map<Text, ParamValue>) returns (r: Query)
    ensures r == Written(c, search, entries, next)
  {
    hide Delete, Set, TextOf;
    r := search;
    for i := 0 to |entries|
      invariant r == Written(c, search, entries[..i], next)
    {
      var e := entries[i];
      assert entries[..i + 1][..i] == entries[..i];
      if e.name in next {
        var value := next[e.name];
        if Unwritten(value, e.spec) {
          r := Delete(r, e.name);
        } else {
          r := Set(r, e.name, TextOf(c, value));
        }
      }
    }
    assert entries[..|entries|] == entries;
  }

  lemma {:induction false} GetDelete(q: Query, name: Text, n: Text)
    ensures Get(Delete(q, name), n) == if n == name then None else Get(q, n)
  {
    if q != [] {
      var front, last := q[..|q| - 1], q[|q| - 1];
      GetDelete(front, name, n);
      if last.name == name {
        assert Delete(q, name) == Delete(front, name);
      } else {
        GetSnoc(Delete(front, name), last, n);
      }
    }
  }

  lemma {:induction false} GetReplace(q: Query, name: Text, value: Text, n: Text)
    ensures Get(Replace(q, name, value), n) == if n == name && Has(q, name) then Some(value) else Get(q, n)
  {
    if q != [] {
      var front, last := q[..|q| - 1], q[|q| - 1];
      GetReplace(front, name, value, n);
      if last.name != name {
        GetSnoc(Replace(front, name, value), last, n);
      } else if Has(front, name) {
        assert Replace(q, name, value) == Replace(front, name, value);
      } else {
        GetSnoc(Replace(front, name, value), Param(name, value), n);
      }
    }
  }

  lemma GetPut(c: Codec, q: Query, e: Entry, v: ParamValue, n: Text)
    ensures Get(Put(c, q, e, v), n)
         == if n != e.name then Get(q, n) else if Unwritten(v, e.spec) then None else Some(TextOf(c, v))
  {
    hide Delete, Replace, Unwritten, TextOf;
    GetDelete(q, e.name, n);
    GetReplace(q, e.name, TextOf(c, v), n);
    GetSnoc(q, Param(e.name, TextOf(c, v)), n);
  }

  lemma {:induction false} GetWritten(c: Codec, q: Query, entries: seq<Entry>, next: map<Text, ParamValue>, n: Text)
    ensures Get(Written(c, q, entries, next), n)
         == if SpecOf(entries, n) == None || n !in next then Get(q, n)
            else if Unwritten(next[n], SpecOf(entries, n).value) then None else Some(TextOf(c, next[n]))
  {
    hide Put, Get, Unwritten, TextOf;
    if entries != [] {
      var front, e := entries[..|entries| - 1], entries[|entries| - 1];
      GetWritten(c, q, front, next, n);
      if e.name in next {
        GetPut(c, Written(c, q, front, next), e, next[e.name], n);
      }
    }
  }

  /**
   After a write, each parameter the reader did not choose reads as before; one that
   was chosen reads as chosen exactly when the choice is a value it can hold.
   */
  lemma WriteThenRead(c: Codec, q: Query, entries: seq<Entry>, next: map<Text, ParamValue>, name: Text)
    requires RoundTrips(c) && SpecOf(entries, name).Some?
    ensures var was, now := Values(c, q, entries), Values(c, Written(c, q, entries, next), entries);
            && name in was && name in now
            && (name !in next ==> now[name] == was[name])
            && (name in next ==> (now[name] == next[name] <==> ValidValue(next[name], SpecOf(entries, name).value)))
  {
    hide Written, Values, Normalise, Get, TextOf, SpecOf, RoundTrips;
    ValuesAt(c, q, entries, name);
    ValuesAt(c, Written(c, q, entries, next), entries, name);
    GetWritten(c, q, entries, next, name);
    if name in next {
      WrittenReadsBack(c, next[name], SpecOf(entries, name).value);
    }
  }

  lemma {:induction false} DeleteForeign(q: Query, entries: seq<Entry>, name: Text)
    requires SpecOf(entries, name).Some?
    ensures Unowned(Delete(q, name), entries) == Unowned(q, entries)
  {
    hide SpecOf;
    if q != [] {
      var front, last := q[..|q| - 1], q[|q| - 1];
      DeleteForeign(front, entries, name);
      if last.name != name {
        UnownedSnoc(Delete(front, name), last, entries);
      } else {
        assert Delete(q, name) == Delete(front, name) && Unowned(q, entries) == Unowned(front, entries);
      }
    }
  }

  lemma {:induction false} ReplaceForeign(q: Query, entries: seq<Entry>, name: Text, value: Text)
    requires SpecOf(entries, name).Some?
    ensures Unowned(Replace(q, name, value), entries) == Unowned(q, entries)
  {
    hide SpecOf, Get;
    if q != [] {
      var front, last := q[..|q| - 1], q[|q| - 1];
      ReplaceForeign(front, entries, name, value);
      if last.name != name {
        UnownedSnoc(Replace(front, name, value), last, entries);
      } else if Has(front, name) {
        assert Replace(q, name, value) == Replace(front, name, value) && Unowned(q, entries) == Unowned(front, entries);
      } else {
        UnownedSnoc(Replace(front, name, value), Param(name, value), entries);
        assert Unowned(Replace(q, name, value), entries) == Unowned(front, entries) == Unowned(q, entries);
      }
    }
  }

  lemma PutForeign(c: Codec, q: Query, entries: seq<Entry>, e: Entry, v: ParamValue)
    requires SpecOf(entries, e.name).Some?
    ensures Unowned(Put(c, q, e, v), entries) == Unowned(q, entries)
  {
    hide SpecOf, Get, TextOf, Unwritten, Delete, Replace, Unowned;
    DeleteForeign(q, entries, e.name);
    ReplaceForeign(q, entries, e.name, TextOf(c, v));
    UnownedSnoc(q, Param(e.name, TextOf(c, v)), entries);
    assert Unowned(q, entries) + [] == Unowned(q, entries);
  }

  /** Parameters the view does not name survive a write, in order and with their duplicates. */
  lemma {:induction false} ForeignSurviveWrites(
    c: Codec, q: Query, entries: seq<Entry>, i: nat, next: map<Text, ParamValue>
  )
    requires DistinctNames(entries) && i <= |entries|
    ensures Unowned(Written(c, q, entries[..i], next), entries) == Unowned(q, entries)
  {
    hide Put, SpecOf, Unowned;
    if i > 0 {
      ForeignSurviveWrites(c, q, entries, i - 1, next);
      assert entries[..i][..i - 1] == entries[..i - 1];
      SpecAt(entries, i - 1);
      if entries[i - 1].name in next {
        PutForeign(c, Written(c, q, entries[..i - 1], next), entries, entries[i - 1], next[entries[i - 1].name]);
      }
    }
  }

  // ----- a valid choice keeps a canonical link canonical

  lemma FrontCanonical(c: Codec, q: Query, entries: seq<Entry>)
    requires q != [] && Canonical(c, q, entries) == q
    ensures var front, last := q[..|q| - 1], q[|q| - 1];
            Canonical(c, front, entries) == front && Rule(c, entries, Has(front, last.name), last) == [last]
  {
    hide Rule, Get;
    var front, last := q[..|q| - 1], q[|q| - 1];
    var was, kept := Canonical(c, front, entries), Rule(c, entries, Has(front, last.name), last);
    NotLonger(c, front, entries);
    RuleIsShort(c, entries, Has(front, last.name), last);
    assert q == front + [last];
    assert |was| == |front| && was == (was + kept)[..|front|] && kept == (was + kept)[|front|..];
  }

  lemma {:induction false} DeleteCanonical(c: Codec, q: Query, entries: seq<Entry>, name: Text)
    requires Canonical(c, q, entries) == q
    ensures Canonical(c, Delete(q, name), entries) == Delete(q, name)
  {
    hide Rule, Get, Canonical;
    if q == [] {
    } else {
      var front, last := q[..|q| - 1], q[|q| - 1];
      FrontCanonical(c, q, entries);
      DeleteCanonical(c, front, entries, name);
      if last.name == name {
        assert Delete(q, name) == Delete(front, name);
      } else {
        GetDelete(front, name, last.name);
        CanonicalSnoc(c, Delete(front, name), last, entries);
      }
    }
  }

  /** A value's own parameter, where its name is new, is kept as it is written. */
  lemma ValidIsKept(c: Codec, entries: seq<Entry>, name: Text, v: ParamValue)
    requires RoundTrips(c) && SpecOf(entries, name).Some?
    requires ValidValue(v, SpecOf(entries, name).value) && !Unwritten(v, SpecOf(entries, name).value)
    ensures Rule(c, entries, false, Param(name, TextOf(c, v))) == [Param(name, TextOf(c, v))]
  {
    hide Normalise, TextOf, Unwritten, SpecOf, ValidValue;
    WrittenReadsBack(c, v, SpecOf(entries, name).value);
  }

  lemma {:induction false} ReplaceCanonical(c: Codec, q: Query, entries: seq<Entry>, name: Text, v: ParamValue)
    requires RoundTrips(c) && SpecOf(entries, name).Some?
    requires ValidValue(v, SpecOf(entries, name).value) && !Unwritten(v, SpecOf(entries, name).value)
    requires Canonical(c, q, entries) == q
    ensures var r := Replace(q, name, TextOf(c, v)); Canonical(c, r, entries) == r
  {
    hide Rule, Get, Canonical, SpecOf, ValidValue, Unwritten, TextOf, RoundTrips;
    if q != [] {
      var front, last := q[..|q| - 1], q[|q| - 1];
      FrontCanonical(c, q, entries);
      ReplaceCanonical(c, front, entries, name, v);
      var was := Replace(front, name, TextOf(c, v));
      GetReplace(front, name, TextOf(c, v), last.name);
      if last.name != name {
        CanonicalSnoc(c, was, last, entries);
      } else if !Has(front, name) {
        ValidIsKept(c, entries, name, v);
        CanonicalSnoc(c, was, Param(name, TextOf(c, v)), entries);
      } else {
        assert Replace(q, name, TextOf(c, v)) == was;
      }
    } else {
      assert Replace(q, name, TextOf(c, v)) == q;
    }
  }

  lemma PutCanonical(c: Codec, q: Query, entries: seq<Entry>, e: Entry, v: ParamValue)
    requires RoundTrips(c) && SpecOf(entries, e.name) == Some(e.spec) && ValidValue(v, e.spec)
    requires Canonical(c, q, entries) == q
    ensures Canonical(c, Put(c, q, e, v), entries) == Put(c, q, e, v)
  {
    hide Rule, Get, Canonical, SpecOf, ValidValue, Unwritten, TextOf, RoundTrips, Delete, Replace;
    if Unwritten(v, e.spec) {
      DeleteCanonical(c, q, entries, e.name);
    } else if Has(q, e.name) {
      ReplaceCanonical(c, q, entries, e.name, v);
    } else {
      ValidIsKept(c, entries, e.name, v);
      CanonicalSnoc(c, q, Param(e.name, TextOf(c, v)), entries);
    }
  }

  /** Every choice is a value its parameter can hold. */
  predicate ValidChoice(entries: seq<Entry>, next: map<Text, ParamValue>) {
    forall i :: 0 <= i < |entries| && entries[i].name in next ==> ValidValue(next[entries[i].name], entries[i].spec)
  }

  /** Writing valid values into a canonical link leaves it canonical. */
  lemma {:induction false} WritesStayCanonical(
    c: Codec, q: Query, entries: seq<Entry>, i: nat, next: map<Text, ParamValue>
  )
    requires RoundTrips(c) && DistinctNames(entries) && ValidChoice(entries, next) && i <= |entries|
    requires Canonical(c, q, entries) == q
    ensures var r := Written(c, q, entries[..i], next); Canonical(c, r, entries) == r
  {
    hide Put, SpecOf, Canonical, ValidValue, RoundTrips, DistinctNames;
    if i > 0 {
      WritesStayCanonical(c, q, entries, i - 1, next);
      assert entries[..i][..i - 1] == entries[..i - 1];
      SpecAt(entries, i - 1);
      if entries[i - 1].name in next {
        PutCanonical(c, Written(c, q, entries[..i - 1], next), entries, entries[i - 1], next[entries[i - 1].name]);
      }
    }
  }

  // ----- the link a history of choices leads to

  /** Where a choice leaves the names of the parameters: dropped at its default, kept in its place, or put last. */
  function NamesPut(names: seq<Text>, e: Entry, v: ParamValue): seq<Text> {
    if Unwritten(v, e.spec) then Without(names, e.name) else if e.name in names then names else names + [e.name]
  }

  function Without(names: seq<Text>, name: Text): seq<Text> {
    if names == [] then []
    else
      var last := names[|names| - 1];
      Without(names[..|names| - 1], name) + if last == name then [] else [last]
  }

  /** The names after one choice of several values, taken in the entries' order. */
  function NamesWritten(names: seq<Text>, entries: seq<Entry>, next: map<Text, ParamValue>): seq<Text> {
    if entries == [] then names
    else
      var before, e := NamesWritten(names, entries[..|entries| - 1], next), entries[|entries| - 1];
      if e.name in next then NamesPut(before, e, next[e.name]) else before
  }

  /** The names after a history of choices: nothing of the links it passes through is looked at. */
  function NamesHistory(names: seq<Text>, entries: seq<Entry>, choices: seq<map<Text, ParamValue>>): seq<Text> {
    if choices == [] then names
    else NamesWritten(NamesHistory(names, entries, choices[..|choices| - 1]), entries, choices[|choices| - 1])
  }

  /** The link after a history of choices. */
  function LinkHistory(c: Codec, q: Query, entries: seq<Entry>, choices: seq<map<Text, ParamValue>>): Query {
    if choices == [] then q
    else Written(c, LinkHistory(c, q, entries, choices[..|choices| - 1]), entries, choices[|choices| - 1])
  }

  ghost predicate ValidChoices(entries: seq<Entry>, choices: seq<map<Text, ParamValue>>) {
    forall i :: 0 <= i < |choices| ==> ValidChoice(entries, choices[i])
  }

  lemma NamesSnoc(q: Query, p: Param)
    ensures Names(q + [p]) == Names(q) + [p.name]
  {
  }

  lemma {:induction false} NamesDelete(q: Query, name: Text)
    ensures Names(Delete(q, name)) == Without(Names(q), name)
  {
    hide Names;
    if q == [] {
      assert Names(q) == [] by { NoNames(); }
    } else {
      var front, last := q[..|q| - 1], q[|q| - 1];
      NamesDelete(front, name);
      assert q == front + [last];
      NamesSnoc(front, last);
      assert (Names(front) + [last.name])[..|Names(front)|] == Names(front);
      if last.name != name {
        NamesSnoc(Delete(front, name), last);
      } else {
        assert Delete(q, name) == Delete(front, name);
      }
    }
  }

  lemma NoNames()
    ensures Names([]) == []
  {
  }

  /** A listed name that stands once keeps its place when its value is replaced. */
  lemma {:induction false} NamesReplace(c: Codec, q: Query, entries: seq<Entry>, name: Text, value: Text)
    requires Canonical(c, q, entries) == q && SpecOf(entries, name).Some?
    ensures Names(Replace(q, name, value)) == Names(q)
  {
    hide Canonical, SpecOf, Names, Normalise, Unwritten, TextOf;
    if q != [] {
      var front, last := q[..|q| - 1], q[|q| - 1];
      FrontCanonical(c, q, entries);
      NamesReplace(c, front, entries, name, value);
      assert q == front + [last];
      NamesSnoc(front, last);
      if last.name == name {
        NamesSnoc(Replace(front, name, value), Param(name, value));
      } else {
        NamesSnoc(Replace(front, name, value), last);
      }
    }
  }

  lemma {:induction false} InNames(q: Query, name: Text)
    ensures name in Names(q) <==> Has(q, name)
  {
    HasIffOccurs(q, name);
    if name in Names(q) {
      var i :| 0 <= i < |q| && Names(q)[i] == name;
      assert q[i].name == name;
    }
    if Has(q, name) {
      var j :| 0 <= j < |q| && q[j].name == name;
      assert Names(q)[j] == name;
    }
  }

  lemma PutNames(c: Codec, q: Query, entries: seq<Entry>, e: Entry, v: ParamValue)
    requires Canonical(c, q, entries) == q && SpecOf(entries, e.name).Some?
    ensures Names(Put(c, q, e, v)) == NamesPut(Names(q), e, v)
  {
    hide Canonical, SpecOf, Names, Without, Delete, Replace, Unwritten, TextOf, Get;
    NamesDelete(q, e.name);
    NamesReplace(c, q, entries, e.name, TextOf(c, v));
    NamesSnoc(q, Param(e.name, TextOf(c, v)));
    InNames(q, e.name);
  }

  lemma {:induction false} WrittenNames(c: Codec, q: Query, entries: seq<Entry>, i: nat, next: map<Text, ParamValue>)
    requires RoundTrips(c) && DistinctNames(entries) && ValidChoice(entries, next) && i <= |entries|
    requires Canonical(c, q, entries) == q
    ensures Names(Written(c, q, entries[..i], next)) == NamesWritten(Names(q), entries[..i], next)
  {
    hide Put, NamesPut, SpecOf, Canonical, ValidValue, RoundTrips, DistinctNames, Names;
    if i > 0 {
      WrittenNames(c, q, entries, i - 1, next);
      assert entries[..i][..i - 1] == entries[..i - 1];
      SpecAt(entries, i - 1);
      if entries[i - 1].name in next {
        WritesStayCanonical(c, q, entries, i - 1, next);
        PutNames(c, Written(c, q, entries[..i - 1], next), entries, entries[i - 1], next[entries[i - 1].name]);
      }
    }
  }

  lemma {:induction false} HistoryKeeps(c: Codec, q: Query, entries: seq<Entry>, choices: seq<map<Text, ParamValue>>)
    requires RoundTrips(c) && DistinctNames(entries) && ValidChoices(entries, choices) && Canonical(c, q, entries) == q
    ensures var r := LinkHistory(c, q, entries, choices);
            && Canonical(c, r, entries) == r && Unowned(r, entries) == Unowned(q, entries)
            && Names(r) == NamesHistory(Names(q), entries, choices)
  {
    hide Written, NamesWritten, Canonical, Unowned, Names, RoundTrips, DistinctNames, ValidChoice;
    if choices != [] {
      var front, last := choices[..|choices| - 1], choices[|choices| - 1];
      HistoryKeeps(c, q, entries, front);
      var r := LinkHistory(c, q, entries, front);
      assert entries[..|entries|] == entries;
      WritesStayCanonical(c, r, entries, |entries|, last);
      WrittenNames(c, r, entries, |entries|, last);
      ForeignSurviveWrites(c, r, entries, |entries|, last);
    }
  }

  /**
   Two histories of valid choices from one canonical link that reach one state reach one link
   exactly when they leave the names in one order; which is known from the choices alone.
   */
  lemma SameNavigationIff(
    c: Codec, q: Query, entries: seq<Entry>, xs: seq<map<Text, ParamValue>>, ys: seq<map<Text, ParamValue>>
  )
    requires RoundTrips(c) && DistinctNames(entries) && Canonical(c, q, entries) == q
    requires ValidChoices(entries, xs) && ValidChoices(entries, ys)
    requires Values(c, LinkHistory(c, q, entries, xs), entries) == Values(c, LinkHistory(c, q, entries, ys), entries)
    ensures LinkHistory(c, q, entries, xs) == LinkHistory(c, q, entries, ys)
       <==> NamesHistory(Names(q), entries, xs) == NamesHistory(Names(q), entries, ys)
  {
    hide *;
    HistoryKeeps(c, q, entries, xs);
    HistoryKeeps(c, q, entries, ys);
    SameLinkIff(c, LinkHistory(c, q, entries, xs), LinkHistory(c, q, entries, ys), entries);
  }

  /** What a list that is canonical for all entries is for one of them. */
  lemma CanonicalForOne(c: Codec, q: Query, entries: seq<Entry>, e: Entry)
    requires Canonical(c, q, entries) == q && SpecOf(entries, e.name) == Some(e.spec)
    ensures Canonical(c, q, [e]) == q
  {
    hide Canonical, Normalise, Unwritten, TextOf;
    CanonicalIff(c, q, entries);
    CanonicalIff(c, q, [e]);
    forall i: nat | i < |q| ensures Stays(c, [e], q, i) {
      assert Stays(c, entries, q, i);
      SpecOfSnoc([], e, q[i].name);
      assert [] + [e] == [e];
    }
  }

  /** A valid choice that changes no value changes nothing of a canonical link. */
  lemma {:induction false} UnchangedWrite(c: Codec, q: Query, entries: seq<Entry>, i: nat, next: map<Text, ParamValue>)
    requires DistinctNames(entries) && i <= |entries| && Canonical(c, q, entries) == q
    requires forall j :: 0 <= j < i && entries[j].name in next ==>
               next[entries[j].name] == Normalise(c, Get(q, entries[j].name), entries[j].spec)
    ensures Written(c, q, entries[..i], next) == q
  {
    hide Put, Canonical, Normalise, Get, DistinctNames;
    if i > 0 {
      UnchangedWrite(c, q, entries, i - 1, next);
      assert entries[..i][..i - 1] == entries[..i - 1];
      SpecAt(entries, i - 1);
      if entries[i - 1].name in next {
        CanonicalForOne(c, q, entries, entries[i - 1]);
        PutIsCanonical(c, q, entries[i - 1]);
      }
    }
  }

  // ----- two links for one state

  lemma {:induction false} WrittenOne(c: Codec, q: Query, entries: seq<Entry>, name: Text, v: ParamValue)
    requires DistinctNames(entries)
    ensures Written(c, q, entries, map[name := v])
         == match SpecOf(entries, name) case None => q case Some(s) => Put(c, q, Entry(name, s), v)
  {
    hide Put;
    if entries != [] {
      var front, e := entries[..|entries| - 1], entries[|entries| - 1];
      WrittenOne(c, q, front, name, v);
      SpecOfListed(front, name);
      assert forall i :: 0 <= i < |front| ==> front[i].name != e.name;
    }
  }

  /**
   Two readers who choose the same two values in opposite orders show the same
   state under different links: the order of the parameters is that of the choices.
   */
  lemma OppositeOrdersDiffer(c: Codec, entries: seq<Entry>, a: Text, va: ParamValue, b: Text, vb: ParamValue)
    requires DistinctNames(entries) && a != b && SpecOf(entries, a).Some? && SpecOf(entries, b).Some?
    requires !Unwritten(va, SpecOf(entries, a).value) && !Unwritten(vb, SpecOf(entries, b).value)
    ensures var x := Written(c, Written(c, [], entries, map[a := va]), entries, map[b := vb]);
            var y := Written(c, Written(c, [], entries, map[b := vb]), entries, map[a := va]);
            x != y && Values(c, x, entries) == Values(c, y, entries)
  {
    hide SpecOf, Unwritten, TextOf, Values, Normalise, Written;
    var pa, pb := Param(a, TextOf(c, va)), Param(b, TextOf(c, vb));
    WrittenOne(c, [], entries, a, va);
    WrittenOne(c, [], entries, b, vb);
    assert [] + [pa] == [pa] && [] + [pb] == [pb];
    WrittenOne(c, [pa], entries, b, vb);
    WrittenOne(c, [pb], entries, a, va);
    GetSnoc([], pa, b);
    GetSnoc([], pb, a);
    assert [pa] + [pb] == [pa, pb] && [pb] + [pa] == [pb, pa];
    assert [pa, pb][0] != [pb, pa][0];
    forall n ensures Get([pa, pb], n) == Get([pb, pa], n) {
      GetSnoc([], pa, n);
      GetSnoc([], pb, n);
      GetSnoc([pa], pb, n);
      GetSnoc([pb], pa, n);
    }
    SameReadings(c, [pa, pb], [pb, pa], entries);
  }

  lemma {:induction false} SameReadings(c: Codec, q: Query, r: Query, entries: seq<Entry>)
    requires forall n :: Get(q, n) == Get(r, n)
    ensures Values(c, q, entries) == Values(c, r, entries)
  {
    hide Normalise, Get;
    if entries != [] {
      SameReadings(c, q, r, entries[..|entries| - 1]);
    }
  }
}
