/** Which units of a string stand as they are when it is printed, and how the others are spelled. */
module CanonicalStrings {
  import opened Texts
  import opened CanonicalJson

  /** Printed as it is: no control, quote or backslash, and no half of a surrogate pair unless beside its other half. */
  predicate Plain(s: Text, i: nat)
    requires i < |s|
  {
    s[i] >= 32 && s[i] != 34 && s[i] != 92
    && (0xD800 <= s[i] <= 0xDBFF ==> i + 1 < |s| && 0xDC00 <= s[i + 1] <= 0xDFFF)
    && (0xDC00 <= s[i] <= 0xDFFF ==> i > 0 && 0xD800 <= s[i - 1] <= 0xDBFF)
  }

  /** A unit that does not stand as it is: a short escape for seven of them, else its four hex digits. */
  lemma UnitSpelled(u: CodeUnit)
    ensures var t := EscapeUnit(u);
            if u in map[34 := 34, 92 := 92, 8 := 98, 9 := 116, 10 := 110, 12 := 102, 13 := 114] then
              t == [92, map[34 := 34, 92 := 92, 8 := 98, 9 := 116, 10 := 110, 12 := 102, 13 := 114][u]]
            else if u >= 32 && !(0xD800 <= u <= 0xDFFF) then t == [u]
            else |t| == 6 && t[0] == 92 && t[1] == 117
                 && forall i :: 2 <= i < 6 ==> 48 <= t[i] <= 57 || 97 <= t[i] <= 102
  {
  }

  lemma {:induction false} EscapeGrows(s: Text)
    ensures |Escape(s)| >= |s|
    decreases |s|
  {
    hide EscapeUnit;
    if s != [] {
      if HighSurrogate(s[0]) && |s| > 1 && LowSurrogate(s[1]) {
        EscapeGrows(s[2..]);
      } else {
        EscapeGrows(s[1..]);
      }
    }
  }

  ghost predicate AllPlain(s: Text) { forall i :: 0 <= i < |s| ==> Plain(s, i) }

  lemma ShiftPlain(s: Text, n: nat, i: nat)
    requires 0 < n <= i < |s| && !(0xD800 <= s[n - 1] <= 0xDBFF)
    ensures Plain(s, i) <==> Plain(s[n..], i - n)
  {
    assert i > n ==> s[n..][i - n - 1] == s[i - 1];
    assert i + 1 < |s| ==> s[n..][i - n + 1] == s[i + 1];
  }

  lemma ShiftAll(s: Text, n: nat)
    requires 0 < n <= |s| && !(0xD800 <= s[n - 1] <= 0xDBFF)
    ensures AllPlain(s) <==> AllPlain(s[n..]) && forall i :: 0 <= i < n ==> Plain(s, i)
  {
    hide Plain;
    forall i | n <= i < |s| ensures Plain(s, i) <==> Plain(s[n..], i - n) {
      ShiftPlain(s, n, i);
    }
    assert forall i :: 0 <= i < |s[n..]| ==> (Plain(s[n..], i) <==> Plain(s, i + n));
  }

  lemma Behind(front: Text, a: Text, b: Text)
    ensures front + a == front + b <==> a == b
  {
    assert (front + a)[|front|..] == a && (front + b)[|front|..] == b;
  }

  lemma PairPrinted(s: Text)
    requires |s| > 1 && HighSurrogate(s[0]) && LowSurrogate(s[1])
    ensures Escape(s) == s <==> Escape(s[2..]) == s[2..]
  {
    var printed := Escape(s[2..]);
    assert Escape(s) == [s[0], s[1]] + printed;
    hide Escape;
    assert s == [s[0], s[1]] + s[2..];
    Behind([s[0], s[1]], printed, s[2..]);
  }

  lemma PairKeeps(s: Text)
    requires |s| > 1 && HighSurrogate(s[0]) && LowSurrogate(s[1])
    ensures Escape(s) == s <==> Escape(s[2..]) == s[2..]
    ensures AllPlain(s) <==> AllPlain(s[2..])
  {
    hide AllPlain;
    PairPrinted(s);
    ShiftAll(s, 2);
  }

  lemma UnitKeeps(s: Text)
    requires s != [] && !(HighSurrogate(s[0]) && |s| > 1 && LowSurrogate(s[1]))
    ensures Escape(s) == s <==> EscapeUnit(s[0]) == [s[0]] && Escape(s[1..]) == s[1..]
    ensures AllPlain(s) <==> EscapeUnit(s[0]) == [s[0]] && AllPlain(s[1..])
  {
    UnitPrinted(s);
    UnitPlain(s);
  }

  lemma UnitPrinted(s: Text)
    requires s != [] && !(HighSurrogate(s[0]) && |s| > 1 && LowSurrogate(s[1]))
    ensures Escape(s) == s <==> EscapeUnit(s[0]) == [s[0]] && Escape(s[1..]) == s[1..]
  {
    hide EscapeUnit;
    UnitSpelled(s[0]);
    EscapeGrows(s[1..]);
    var printed := Escape(s[1..]);
    assert Escape(s) == EscapeUnit(s[0]) + printed;
    hide Escape;
    assert s == [s[0]] + s[1..];
    if EscapeUnit(s[0]) == [s[0]] {
      Behind([s[0]], printed, s[1..]);
    }
  }

  lemma UnitPlain(s: Text)
    requires s != [] && !(HighSurrogate(s[0]) && |s| > 1 && LowSurrogate(s[1]))
    ensures AllPlain(s) <==> EscapeUnit(s[0]) == [s[0]] && AllPlain(s[1..])
  {
    hide EscapeUnit, AllPlain;
    UnitSpelled(s[0]);
    if EscapeUnit(s[0]) == [s[0]] {
      ShiftAll(s, 1);
    } else {
      NotAllPlain(s);
    }
  }

  lemma NotAllPlain(s: Text)
    requires s != [] && !Plain(s, 0)
    ensures !AllPlain(s)
  {
  }

  /** A string is printed as it is exactly where every unit of it is plain. */
  lemma {:induction false} EscapeKeepsIff(s: Text)
    ensures Escape(s) == s <==> AllPlain(s)
    decreases |s|
  {
    hide EscapeUnit, Escape, AllPlain;
    if s == [] {
      NothingEscaped();
    } else if HighSurrogate(s[0]) && |s| > 1 && LowSurrogate(s[1]) {
      EscapeKeepsIff(s[2..]);
      PairKeeps(s);
    } else {
      EscapeKeepsIff(s[1..]);
      UnitKeeps(s);
    }
  }

  lemma NothingEscaped()
    ensures Escape([]) == [] && AllPlain([])
  {
  }
}
