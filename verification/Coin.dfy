/**
 Satoshi amounts as the explorer prints them, and what reading the text back gives.
 */
module Coin {
  import opened Powers
  import opened Texts
  import opened Wrappers

  const SATOSHIS := 100000000
  const DASH: Text := [0x2014]
  const SPACE: CodeUnit := 32

  // ----- printing

  /** A space goes before a digit that is not the first and has a whole number of threes from it to the end. */
  function Grouped(s: Text, i: nat): Text
    requires i <= |s|
    decreases |s| - i
  {
    if i == |s| then [] else (if i > 0 && (|s| - i) % 3 == 0 then [SPACE] else []) + [s[i]] + Grouped(s, i + 1)
  }

  /** The decimal places shown: eight at most, and none for a count that is not positive. */
  function Places(decimals: int): nat { if decimals <= 0 then 0 else if decimals > 8 then 8 else decimals }

  /** `sat` is None where there is no amount or its text is not an integer's. */
  function CoinText(sat: Option<int>, decimals: int): Text {
    if sat.None? then DASH
    else
      var v := if sat.value < 0 then -sat.value else sat.value;
      var frac := PadStart(Digits(v % SATOSHIS), 8);
      (if sat.value < 0 then [MINUS] else []) + Grouped(Digits(v / SATOSHIS), 0)
      + if decimals > 0 then [POINT] + frac[..if decimals < |frac| then decimals else |frac|] else []
  }

  // ----- reading back

  function Unspaced(s: Text): Text {
    if s == [] then [] else Unspaced(s[..|s| - 1]) + if s[|s| - 1] == SPACE then [] else [s[|s| - 1]]
  }

  /** The place of the first point, or the length where there is none. */
  function PointAt(s: Text): (i: nat)
    ensures i <= |s|
  {
    if s == [] || s[0] == POINT then 0 else 1 + PointAt(s[1..])
  }

  /** An amount of `units`, each ten to the minus `places`. */
  datatype Amount = Amount(negative: bool, units: nat, places: nat)

  function ReadUnsigned(s: Text): Option<(nat, nat)> {
    var i := PointAt(s);
    var frac := if i < |s| then s[i + 1..] else [];
    if i == 0 || !AllDigits(s[..i] + frac) || (i < |s| && frac == []) then None
    else Some((DigitsValue(s[..i] + frac), |frac|))
  }

  function ReadAmount(text: Text): Option<Amount> {
    var s := Unspaced(text);
    var negative := s != [] && s[0] == MINUS;
    var read := ReadUnsigned(if negative then s[1..] else s);
    if read.None? then None else Some(Amount(negative, read.value.0, read.value.1))
  }

  // ----- digits

  lemma {:induction false} LeadingZero(s: Text)
    requires AllDigits(s)
    ensures AllDigits([ZERO] + s) && DigitsValue([ZERO] + s) == DigitsValue(s)
  {
    if s == [] {
      assert ([ZERO] + s)[..0] == [];
    } else {
      var front := s[..|s| - 1];
      LeadingZero(front);
      assert ([ZERO] + s)[..|s|] == [ZERO] + front;
    }
  }

  lemma {:induction false} PadReads(s: Text, width: nat)
    requires AllDigits(s) && |s| <= width
    ensures AllDigits(PadStart(s, width)) && |PadStart(s, width)| == width
        && DigitsValue(PadStart(s, width)) == DigitsValue(s)
    decreases width - |s|
  {
    if |s| < width {
      LeadingZero(s);
      PadReads([ZERO] + s, width);
    }
  }

  lemma {:induction false} DigitsFit(n: nat, width: nat)
    requires n < Pow10(width) && width >= 1
    ensures |Digits(n)| <= width
  {
    assert Pow10(width) == 10 * Pow10(width - 1);
    if n >= 10 {
      DigitsFit(n / 10, width - 1);
    }
  }

  /** Reading two runs of digits one after the other. */
  lemma {:induction false} ReadConcat(a: Text, b: Text)
    requires AllDigits(a) && AllDigits(b)
    ensures AllDigits(a + b) && DigitsValue(a + b) == DigitsValue(a) * Pow10(|b|) + DigitsValue(b)
  {
    if b == [] {
      assert a + b == a;
    } else {
      var front := b[..|b| - 1];
      ReadConcat(a, front);
      assert (a + b)[..|a + b| - 1] == a + front && (a + b)[|a + b| - 1] == b[|b| - 1];
      ShiftOne(DigitsValue(a), Pow10(|front|), DigitsValue(front), b[|b| - 1] - ZERO);
    }
  }

  lemma ShiftOne(x: nat, p: nat, y: nat, d: nat)
    ensures (x * p + y) * 10 + d == x * (10 * p) + (y * 10 + d)
  {
    Tenfold(x, p);
  }

  lemma Tenfold(x: nat, p: nat)
    ensures x * (10 * p) == x * p * 10
  {
  }

  /** Dropping the last digits divides, towards zero. */
  lemma {:induction false} ReadPrefix(s: Text, k: nat)
    requires AllDigits(s) && k <= |s|
    ensures AllDigits(s[..k]) && DigitsValue(s[..k]) == DigitsValue(s) / Pow10(|s| - k)
    decreases |s| - k
  {
    if k == |s| {
      assert s[..k] == s;
    } else {
      ReadPrefix(s, k + 1);
      assert s[..k + 1][..k] == s[..k];
      DivideTwice(DigitsValue(s), Pow10(|s| - k - 1), DigitsValue(s[..k]), s[k] - ZERO);
    }
  }

  lemma DivideTwice(n: nat, p: nat, q: nat, d: nat)
    requires p >= 1 && d < 10 && n / p == q * 10 + d
    ensures n / (10 * p) == q
  {
    var r := n % p;
    assert n == (q * 10 + d) * p + r;
    assert n == q * (10 * p) + (d * p + r);
    assert d * p <= 9 * p;
    Quotient(n, 10 * p, q, d * p + r);
  }

  lemma Quotient(n: nat, m: nat, q: nat, r: nat)
    requires m >= 1 && n == q * m + r && r < m
    ensures n / m == q
  {
    var k := n / m;
    assert n == k * m + n % m;
    Between(q - k, m);
    Between(k - q, m);
  }

  lemma Between(d: int, m: nat)
    requires m >= 1 && d * m < m
    ensures d <= 0
  {
    if d > 0 {
      Scales(1, d, m);
    }
  }

  lemma Scales(a: int, b: int, c: nat)
    requires a <= b
    ensures a * c <= b * c
  {
  }

  // ----- spaces

  lemma {:induction false} UnspacedConcat(a: Text, b: Text)
    ensures Unspaced(a + b) == Unspaced(a) + Unspaced(b)
  {
    if b == [] {
      assert a + b == a;
    } else {
      UnspacedConcat(a, b[..|b| - 1]);
      assert (a + b)[..|a + b| - 1] == a + b[..|b| - 1];
    }
  }

  lemma {:induction false} UnspacedKeeps(s: Text)
    requires forall i :: 0 <= i < |s| ==> s[i] != SPACE
    ensures Unspaced(s) == s
  {
    if s != [] {
      UnspacedKeeps(s[..|s| - 1]);
      assert s == s[..|s| - 1] + [s[|s| - 1]];
    }
  }

  lemma UnspacedOne(c: CodeUnit)
    ensures Unspaced([c]) == if c == SPACE then [] else [c]
  {
    assert [c][..0] == [];
  }

  lemma {:induction false} UngroupedIs(s: Text, i: nat)
    requires AllDigits(s) && i <= |s|
    ensures Unspaced(Grouped(s, i)) == s[i..]
    decreases |s| - i
  {
    hide Unspaced;
    if i == |s| {
      UnspacedKeeps([]);
    } else {
      UngroupedIs(s, i + 1);
      var space := if i > 0 && (|s| - i) % 3 == 0 then [SPACE] else [];
      UnspacedKeeps([]);
      UnspacedOne(SPACE);
      UnspacedOne(s[i]);
      UnspacedConcat(space, [s[i]]);
      UnspacedConcat(space + [s[i]], Grouped(s, i + 1));
      assert [] + [s[i]] == [s[i]];
    }
  }

  function FromRight(s: Text, j: nat): CodeUnit
    requires j < |s|
  {
    s[|s| - 1 - j]
  }

  /** From the right, exactly every fourth character of a grouped number is a space. */
  predicate InThrees(g: Text) { forall j: nat :: j < |g| ==> (FromRight(g, j) == SPACE <==> j % 4 == 3) }

  lemma {:induction false} GroupedTail(s: Text, i: nat)
    requires AllDigits(s) && 0 < i <= |s|
    ensures InThrees(Grouped(s, i)) && |Grouped(s, i)| == (|s| - i) + (|s| - i) / 3
    decreases |s| - i
  {
    if i < |s| {
      GroupedTail(s, i + 1);
      OneMoreDigit(s, i);
    }
  }

  lemma EveryFourth(r: nat)
    ensures (r + r / 3) % 4 == r % 3
  {
    FourAnd(r / 3, r % 3);
  }

  lemma FourAnd(q: nat, m: nat)
    requires m < 3
    ensures (4 * q + m) % 4 == m
  {
  }

  lemma Prepended(space: Text, c: CodeUnit, rest: Text)
    requires InThrees(rest) && c != SPACE && |rest| % 4 != 3
    requires space == [] || (space == [SPACE] && |rest| % 4 == 2)
    ensures InThrees(space + [c] + rest)
  {
    var g := space + [c] + rest;
    forall j: nat | j < |g| ensures FromRight(g, j) == SPACE <==> j % 4 == 3 {
      if j < |rest| {
        assert FromRight(g, j) == FromRight(rest, j);
      } else if j == |rest| {
        assert FromRight(g, j) == c;
      } else {
        assert FromRight(g, j) == SPACE && j == |rest| + 1;
      }
    }
  }

  lemma OneMoreDigit(s: Text, i: nat)
    requires AllDigits(s) && i < |s|
    requires InThrees(Grouped(s, i + 1)) && |Grouped(s, i + 1)| == (|s| - i - 1) + (|s| - i - 1) / 3
    ensures InThrees(Grouped(s, i))
    ensures i > 0 ==> |Grouped(s, i)| == (|s| - i) + (|s| - i) / 3
  {
    hide Grouped, InThrees;
    var space := if i > 0 && (|s| - i) % 3 == 0 then [SPACE] else [];
    GroupedHere(s, i);
    EveryFourth(|s| - i - 1);
    Prepended(space, s[i], Grouped(s, i + 1));
  }

  lemma GroupedHere(s: Text, i: nat)
    requires i < |s|
    ensures Grouped(s, i) == (if i > 0 && (|s| - i) % 3 == 0 then [SPACE] else []) + [s[i]] + Grouped(s, i + 1)
  {
  }

  /** The whole part is grouped in threes from the right. */
  lemma GroupedInThrees(n: nat)
    ensures InThrees(Grouped(Digits(n), 0)) && Unspaced(Grouped(Digits(n), 0)) == Digits(n)
  {
    DigitsRead(n);
    GroupedTail(Digits(n), 1);
    OneMoreDigit(Digits(n), 0);
    UngroupedIs(Digits(n), 0);
  }

  // ----- the text read back

  lemma {:induction false} PointAfter(a: Text, b: Text)
    requires AllDigits(a) && (b == [] || b[0] == POINT)
    ensures PointAt(a + b) == |a|
  {
    if a == [] {
      assert a + b == b;
    } else {
      PointAfter(a[1..], b);
      assert (a + b)[1..] == a[1..] + b;
    }
  }

  lemma TenToTheEight()
    ensures Pow10(8) == SATOSHIS
  {
    assert Pow10(4) == 10000;
    assert Pow10(6) == 1000000;
  }

  function Divided(n: nat, p: nat): nat
    requires p >= 1
  {
    n / p
  }

  /** An amount cut towards zero at a number of places. */
  function CutAt(v: nat, places: nat): nat
    requires places <= 8
  {
    Divided(v, Pow10(8 - places))
  }

  /** The digits of the two parts, read as one number, are the amount cut at the places shown. */
  lemma PartsRead(v: nat, k: nat)
    requires k <= 8
    ensures var frac := PadStart(Digits(v % SATOSHIS), 8);
            && |frac| == 8 && AllDigits(Digits(v / SATOSHIS)) && AllDigits(frac[..k])
            && AllDigits(Digits(v / SATOSHIS) + frac[..k])
            && DigitsValue(Digits(v / SATOSHIS) + frac[..k]) == CutAt(v, k)
  {
    hide Pow10, Digits, PadStart, DigitsValue;
    var whole, rest := v / SATOSHIS, v % SATOSHIS;
    TenToTheEight();
    DigitsRead(whole);
    DigitsRead(rest);
    DigitsFit(rest, 8);
    PadReads(Digits(rest), 8);
    var frac := PadStart(Digits(rest), 8);
    ReadConcat(Digits(whole), frac);
    var all := Digits(whole) + frac;
    ReadPrefix(all, |Digits(whole)| + k);
    assert all[..|Digits(whole)| + k] == Digits(whole) + frac[..k];
  }

  function Tail(v: nat, k: nat): Text
    requires k <= 8
  {
    PartsRead(v, k);
    if k == 0 then [] else [POINT] + PadStart(Digits(v % SATOSHIS), 8)[..k]
  }

  lemma TextWithoutSpaces(v: int, decimals: int)
    ensures var a := if v < 0 then -v else v;
            Unspaced(CoinText(Some(v), decimals))
                == (if v < 0 then [MINUS] else []) + Digits(a / SATOSHIS) + Tail(a, Places(decimals))
  {
    hide Digits, PadStart, Grouped, Unspaced, CutAt, DigitsValue;
    var a := if v < 0 then -v else v;
    var k := Places(decimals);
    PartsRead(a, k);
    var sign, whole, tail := if v < 0 then [MINUS] else [], Grouped(Digits(a / SATOSHIS), 0), Tail(a, k);
    assert CoinText(Some(v), decimals) == sign + whole + tail;
    GroupedInThrees(a / SATOSHIS);
    UnspacedKeeps(sign);
    UnspacedKeeps(tail);
    UnspacedConcat(sign, whole);
    UnspacedConcat(sign + whole, tail);
  }

  lemma UnsignedReads(v: nat, k: nat)
    requires k <= 8
    ensures ReadUnsigned(Digits(v / SATOSHIS) + Tail(v, k)) == Some((CutAt(v, k), k))
  {
    hide CutAt, Digits, PadStart;
    PartsRead(v, k);
    DigitsRead(v / SATOSHIS);
    var whole, tail := Digits(v / SATOSHIS), Tail(v, k);
    PointAfter(whole, tail);
    assert (whole + tail)[..|whole|] == whole;
    if k == 0 {
      assert whole + tail == whole && whole + [] == whole;
      assert PadStart(Digits(v % SATOSHIS), 8)[..0] == [];
    } else {
      assert (whole + tail)[|whole| + 1..] == PadStart(Digits(v % SATOSHIS), 8)[..k];
    }
  }

  lemma SignedReads(text: Text, negative: bool, body: Text)
    requires Unspaced(text) == (if negative then [MINUS] else []) + body && body != [] && body[0] != MINUS
    ensures ReadAmount(text)
        == match ReadUnsigned(body) case None => None case Some(read) => Some(Amount(negative, read.0, read.1))
  {
    hide Unspaced, ReadUnsigned;
    if negative {
      assert Unspaced(text)[1..] == body;
    } else {
      assert Unspaced(text) == body;
    }
  }

  /** Without its spaces the text is the decimal of the amount, cut towards zero at the places shown. */
  lemma CoinReads(v: int, decimals: int)
    ensures var a := if v < 0 then -v else v; var k := Places(decimals);
            ReadAmount(CoinText(Some(v), decimals)) == Some(Amount(v < 0, CutAt(a, k), k))
  {
    hide Unspaced, CoinText, Tail, ReadUnsigned, ReadAmount, CutAt, Digits, DigitsValue;
    var a := if v < 0 then -v else v;
    var k := Places(decimals);
    var whole := Digits(a / SATOSHIS);
    TextWithoutSpaces(v, decimals);
    UnsignedReads(a, k);
    DigitsRead(a / SATOSHIS);
    assert IsDigit(whole[0]) && (whole + Tail(a, k))[0] == whole[0];
    assert (if v < 0 then [MINUS] else []) + whole + Tail(a, k)
        == (if v < 0 then [MINUS] else []) + (whole + Tail(a, k));
    SignedReads(CoinText(Some(v), decimals), v < 0, whole + Tail(a, k));
  }

  /**
   So the text is never above the amount's size, and less than one unit of its last place below it; at eight
   places it is exact.
   */
  lemma CoinTruncates(v: int, decimals: int)
    ensures var a := if v < 0 then -v else v; var read := ReadAmount(CoinText(Some(v), decimals));
            && read.Some? && read.value.negative == (v < 0) && read.value.places == Places(decimals)
            && read.value.units * Pow10(8 - read.value.places) <= a
            && a < (read.value.units + 1) * Pow10(8 - read.value.places)
            && (decimals >= 8 ==> read.value.units == a)
  {
    hide ReadAmount, CoinText;
    CoinReads(v, decimals);
    var a := if v < 0 then -v else v;
    var unit := Pow10(8 - Places(decimals));
    assert a == a / unit * unit + a % unit;
  }

  /** The dash stands for no amount, and for nothing else. */
  lemma DashMeansNone(sat: Option<int>, decimals: int)
    ensures CoinText(sat, decimals) == [0x2014] <==> sat.None?
    ensures sat.None? <==> ReadAmount(CoinText(sat, decimals)) == None
  {
    if sat.Some? {
      CoinReads(sat.value, decimals);
    }
    NoAmountInADash();
  }

  lemma NoAmountInADash()
    ensures ReadAmount(DASH) == None
  {
    assert DASH[..0] == [] && DASH[1..] == [];
    assert Unspaced(DASH) == DASH;
    assert PointAt(DASH) == 1 && DASH[..1] + [] == DASH;
    assert !IsDigit(DASH[0]);
  }

  /**
   The printed text: a minus for a negative amount, the whole coins in groups of three, and the places shown
   after a point.
   */
  lemma CoinShape(v: int, decimals: int) returns (sign: Text, whole: Text, places: Text)
    ensures CoinText(Some(v), decimals) == sign + whole + places
    ensures sign == if v < 0 then [45] else []
    ensures forall j: nat :: j < |whole| ==> (whole[|whole| - 1 - j] == 32 <==> j % 4 == 3)
    ensures Unspaced(whole) == Digits((if v < 0 then -v else v) / 100000000)
    ensures if decimals <= 0 then places == []
            else |places| == 1 + (if decimals < 8 then decimals else 8) && places[0] == 46 && AllDigits(places[1..])
  {
    hide Digits, PadStart, Grouped, Unspaced, CutAt, DigitsValue;
    var a := if v < 0 then -v else v;
    PartsRead(a, Places(decimals));
    sign, whole := if v < 0 then [MINUS] else [], Grouped(Digits(a / SATOSHIS), 0);
    places := if decimals > 0 then [POINT] + PadStart(Digits(a % SATOSHIS), 8)[..Places(decimals)] else [];
    GroupedInThrees(a / SATOSHIS);
    forall j: nat | j < |whole| ensures whole[|whole| - 1 - j] == 32 <==> j % 4 == 3 {
      assert FromRight(whole, j) == whole[|whole| - 1 - j];
    }
  }
}
