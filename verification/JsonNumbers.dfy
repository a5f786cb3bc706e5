/**
 How a finite number is printed and read back: section 6.1.6.1.20 of ECMA-262
 (Number::toString, radix 10), and the number grammar of section 6 of RFC 8259.

 A number is its shortest decimal, which is what the language prints it from.
 */
module JsonNumbers {
  import opened Texts
  import opened Wrappers

  const EXPONENT: CodeUnit := 101
  const PLUS: CodeUnit := 43

  /** 0.d1d2d3... times ten to the `point`; zero, of either sign, has no digits. */
  datatype Decimal = Decimal(negative: bool, digits: Text, point: int)

  predicate Shortest(n: Decimal) {
    && AllDigits(n.digits)
    && if n.digits == [] then !n.negative && n.point == 0
       else n.digits[0] != ZERO && n.digits[|n.digits| - 1] != ZERO
  }

  function Zeros(k: nat): (t: Text)
    ensures |t| == k && AllDigits(t)
  {
    if k == 0 then [] else [ZERO] + Zeros(k - 1)
  }

  // ----- printing

  function PrintExponent(e: int): Text { [EXPONENT, if e < 0 then MINUS else PLUS] + Digits(if e < 0 then -e else e) }

  function Assembled(whole: Text, fraction: Text, exponent: Option<int>): Text {
    whole + (if fraction == [] then [] else [POINT] + fraction)
    + (if exponent.None? then [] else PrintExponent(exponent.value))
  }

  /** The whole part, the fraction and the exponent a size is printed with. */
  function Parts(digits: Text, point: int): (Text, Text, Option<int>)
    requires digits != []
  {
    var k := |digits|;
    if k <= point <= 21 then (digits + Zeros(point - k), [], None)
    else if 0 < point <= 21 then (digits[..point], digits[point..], None)
    else if -6 < point <= 0 then ([ZERO], Zeros(-point) + digits, None)
    else (digits[..1], digits[1..], Some(point - 1))
  }

  function PrintSize(digits: Text, point: int): Text
    requires digits != []
  {
    var (whole, fraction, exponent) := Parts(digits, point);
    Assembled(whole, fraction, exponent)
  }

  function PrintNumber(n: Decimal): Text {
    if n.digits == [] then [ZERO] else (if n.negative then [MINUS] else []) + PrintSize(n.digits, n.point)
  }

  // ----- reading

  function TakeDigits(t: Text): (r: (Text, Text))
    ensures t == r.0 + r.1 && AllDigits(r.0)
  {
    if t != [] && IsDigit(t[0]) then var (digits, rest) := TakeDigits(t[1..]); ([t[0]] + digits, rest) else ([], t)
  }

  function ReadFraction(t: Text): (r: Option<(Text, Text)>)
    ensures r.Some? ==> AllDigits(r.value.0) && |r.value.1| <= |t|
  {
    if t == [] || t[0] != POINT then Some(([], t))
    else
      var (digits, rest) := TakeDigits(t[1..]);
      if digits == [] then None else Some((digits, rest))
  }

  function ReadExponent(t: Text): (r: Option<(int, Text)>)
    ensures r.Some? ==> |r.value.1| <= |t|
  {
    if t == [] || t[0] != EXPONENT then Some((0, t))
    else if |t| < 2 || (t[1] != PLUS && t[1] != MINUS) then None
    else
      var (digits, rest) := TakeDigits(t[2..]);
      if digits == [] then None
      else
        var size: int := DigitsValue(digits);
        Some((if t[1] == MINUS then -size else size, rest))
  }

  function TrimFront(t: Text): Text { if t != [] && t[0] == ZERO then TrimFront(t[1..]) else t }

  function TrimBack(t: Text): Text { if t != [] && t[|t| - 1] == ZERO then TrimBack(t[..|t| - 1]) else t }

  /** The shortest decimal of what was read: no zero in front, none behind. */
  function Normal(negative: bool, whole: Text, fraction: Text, exponent: int): Decimal {
    var spelled := whole + fraction;
    var trimmed := TrimFront(spelled);
    var digits := TrimBack(trimmed);
    if digits == [] then Decimal(false, [], 0)
    else Decimal(negative, digits, |whole| + exponent - (|spelled| - |trimmed|))
  }

  function ReadSize(t: Text): (r: Option<(Text, Text, int, Text)>)
    ensures r.Some? ==> |r.value.3| < |t|
  {
    var (whole, a) := TakeDigits(t);
    if whole == [] then None
    else match ReadFraction(a)
      case None => None
      case Some((fraction, b)) =>
        match ReadExponent(b)
        case None => None
        case Some((exponent, rest)) => Some((whole, fraction, exponent, rest))
  }

  function ReadNumber(t: Text): (r: Option<(Decimal, Text)>)
    ensures r.Some? ==> |r.value.1| < |t|
  {
    var negative := t != [] && t[0] == MINUS;
    match ReadSize(if negative then t[1..] else t)
    case None => None
    case Some((whole, fraction, exponent, rest)) => Some((Normal(negative, whole, fraction, exponent), rest))
  }

  /** What may follow a number: nothing that would read as more of it. */
  predicate Safe(rest: Text) { rest == [] || !(IsDigit(rest[0]) || rest[0] == POINT || rest[0] == EXPONENT) }

  // ----- a printed number is read back

  lemma {:induction false} TakesExactly(digits: Text, rest: Text)
    requires AllDigits(digits) && (rest == [] || !IsDigit(rest[0]))
    ensures TakeDigits(digits + rest) == (digits, rest)
  {
    if digits == [] {
      assert digits + rest == rest;
    } else {
      TakesExactly(digits[1..], rest);
      assert (digits + rest)[1..] == digits[1..] + rest;
      assert digits == [digits[0]] + digits[1..];
    }
  }

  lemma ExponentReads(e: int, rest: Text)
    requires rest == [] || !IsDigit(rest[0])
    ensures ReadExponent(PrintExponent(e) + rest) == Some((e, rest))
  {
    hide Digits, DigitsValue, TakeDigits, AllDigits;
    var size: nat := if e < 0 then -e else e;
    DigitsRead(size);
    TakesExactly(Digits(size), rest);
    var t := PrintExponent(e) + rest;
    assert t[2..] == Digits(size) + rest && t[0] == EXPONENT && t[1] == if e < 0 then MINUS else PLUS;
  }

  lemma FractionReads(fraction: Text, rest: Text)
    requires AllDigits(fraction) && (rest == [] || !(IsDigit(rest[0]) || rest[0] == POINT))
    ensures ReadFraction((if fraction == [] then [] else [POINT] + fraction) + rest) == Some((fraction, rest))
  {
    if fraction == [] {
      assert [] + rest == rest;
    } else {
      TakesExactly(fraction, rest);
      assert ([POINT] + fraction + rest)[1..] == fraction + rest;
    }
  }

  lemma AssembledReads(whole: Text, fraction: Text, exponent: Option<int>, rest: Text)
    requires whole != [] && AllDigits(whole) && AllDigits(fraction) && Safe(rest)
    ensures ReadSize(Assembled(whole, fraction, exponent) + rest)
         == Some((whole, fraction, if exponent.None? then 0 else exponent.value, rest))
  {
    hide TakeDigits, ReadFraction, ReadExponent, AllDigits, PrintExponent;
    var c := (if exponent.None? then [] else PrintExponent(exponent.value)) + rest;
    var b := (if fraction == [] then [] else [POINT] + fraction) + c;
    assert Assembled(whole, fraction, exponent) + rest == whole + b;
    AfterWhole(fraction, exponent, rest);
    TakesExactly(whole, b);
    FractionReads(fraction, c);
    if exponent.Some? {
      ExponentReads(exponent.value, rest);
    } else {
      assert c == rest;
      NoExponent(rest);
    }
  }

  /** After the whole part no digit comes, and after the fraction no digit and no point. */
  lemma AfterWhole(fraction: Text, exponent: Option<int>, rest: Text)
    requires Safe(rest)
    ensures var c := (if exponent.None? then [] else PrintExponent(exponent.value)) + rest;
            var b := (if fraction == [] then [] else [POINT] + fraction) + c;
            (c == [] || !(IsDigit(c[0]) || c[0] == POINT)) && (b == [] || !IsDigit(b[0]))
  {
    hide Digits;
  }

  lemma NoExponent(rest: Text)
    requires Safe(rest)
    ensures ReadExponent(rest) == Some((0, rest))
  {
  }

  lemma {:induction false} FrontTrims(k: nat, digits: Text)
    requires digits != [] && digits[0] != ZERO
    ensures TrimFront(Zeros(k) + digits) == digits
  {
    if k == 0 {
      assert Zeros(0) + digits == digits;
    } else {
      FrontTrims(k - 1, digits);
      assert (Zeros(k) + digits)[1..] == Zeros(k - 1) + digits;
    }
  }

  lemma {:induction false} ZerosEnd(k: nat)
    requires k > 0
    ensures Zeros(k) == Zeros(k - 1) + [ZERO]
  {
    if k > 1 {
      ZerosEnd(k - 1);
    }
  }

  lemma {:induction false} BackTrims(digits: Text, k: nat)
    requires digits != [] && digits[|digits| - 1] != ZERO
    ensures TrimBack(digits + Zeros(k)) == digits
  {
    if k == 0 {
      assert digits + Zeros(0) == digits;
    } else {
      ZerosEnd(k);
      BackTrims(digits, k - 1);
      assert (digits + Zeros(k))[..|digits| + k - 1] == digits + Zeros(k - 1);
    }
  }

  lemma TrimsTo(zeros: nat, digits: Text, more: nat)
    requires digits != [] && digits[0] != ZERO && digits[|digits| - 1] != ZERO
    ensures var spelled := Zeros(zeros) + digits + Zeros(more);
            TrimFront(spelled) == digits + Zeros(more) && TrimBack(TrimFront(spelled)) == digits
            && |spelled| - |TrimFront(spelled)| == zeros
  {
    hide Zeros, TrimFront, TrimBack;
    assert Zeros(zeros) + digits + Zeros(more) == Zeros(zeros) + (digits + Zeros(more));
    FrontTrims(zeros, digits + Zeros(more));
    BackTrims(digits, more);
  }

  /** However a size is laid out, its shortest decimal is the one it was printed from. */
  lemma PartsNormal(digits: Text, point: int, negative: bool)
    requires digits != [] && Shortest(Decimal(negative, digits, point))
    ensures var (whole, fraction, exponent) := Parts(digits, point);
            && whole != [] && AllDigits(whole) && AllDigits(fraction)
            && Normal(negative, whole, fraction, if exponent.None? then 0 else exponent.value)
                == Decimal(negative, digits, point)
  {
    hide TrimFront, TrimBack, Zeros;
    var k := |digits|;
    var (whole, fraction, exponent) := Parts(digits, point);
    var zeros: nat := if 0 < point <= 21 || point > 21 || point <= -6 then 0 else -point + 1;
    var more: nat := if k <= point <= 21 then point - k else 0;
    TrimsTo(zeros, digits, more);
    assert whole + fraction == Zeros(zeros) + digits + Zeros(more) by { Spelled(digits, point, zeros, more); }
  }

  lemma Spelled(digits: Text, point: int, zeros: nat, more: nat)
    requires digits != []
    requires zeros == if 0 < point <= 21 || point > 21 || point <= -6 then 0 else -point + 1
    requires more == if |digits| <= point <= 21 then point - |digits| else 0
    ensures var (whole, fraction, _) := Parts(digits, point); whole + fraction == Zeros(zeros) + digits + Zeros(more)
  {
    assert Zeros(0) == [];
    if -6 < point <= 0 {
      assert Zeros(zeros) == [ZERO] + Zeros(-point);
    }
  }

  lemma SizeReads(digits: Text, point: int, negative: bool, rest: Text)
    requires digits != [] && Shortest(Decimal(negative, digits, point)) && Safe(rest)
    ensures var r := ReadSize(PrintSize(digits, point) + rest);
            r.Some? && r.value.3 == rest
            && Normal(negative, r.value.0, r.value.1, r.value.2) == Decimal(negative, digits, point)
  {
    hide Assembled, ReadSize, Parts, Normal;
    var (whole, fraction, exponent) := Parts(digits, point);
    PartsNormal(digits, point, negative);
    AssembledReads(whole, fraction, exponent, rest);
  }

  /** Every finite number's text is read back as that number, in front of anything that does not go on with it. */
  lemma NumberReads(n: Decimal, rest: Text)
    requires Shortest(n) && Safe(rest)
    ensures ReadNumber(PrintNumber(n) + rest) == Some((n, rest))
  {
    hide PrintSize, Normal, ReadSize, Assembled, AllDigits, Safe;
    if n.digits == [] {
      ZeroReads(rest);
    } else {
      SizeReads(n.digits, n.point, n.negative, rest);
      assert AllDigits(n.digits);
      SizeStarts(n.digits, n.point);
      var t := PrintSize(n.digits, n.point) + rest;
      if n.negative {
        assert PrintNumber(n) + rest == [MINUS] + t && ([MINUS] + t)[1..] == t;
      } else {
        assert PrintNumber(n) + rest == t;
      }
    }
  }

  lemma ZeroReads(rest: Text)
    requires Safe(rest)
    ensures ReadNumber([ZERO] + rest) == Some((Decimal(false, [], 0), rest))
  {
    hide ReadSize, Safe;
    AssembledReads([ZERO], [], None, rest);
    assert Assembled([ZERO], [], None) == [ZERO];
    assert [ZERO] + [] == [ZERO] && [ZERO][1..] == [];
    assert TrimFront([]) == [] && TrimFront([ZERO]) == [];
  }

  lemma SizeStarts(digits: Text, point: int)
    requires digits != [] && AllDigits(digits)
    ensures PrintSize(digits, point) != [] && IsDigit(PrintSize(digits, point)[0])
  {
    hide Zeros, Digits;
  }

  lemma NumberStarts(n: Decimal)
    requires AllDigits(n.digits)
    ensures PrintNumber(n) != [] && (PrintNumber(n)[0] == MINUS || IsDigit(PrintNumber(n)[0]))
  {
    hide PrintSize;
    if n.digits != [] {
      SizeStarts(n.digits, n.point);
    }
  }

  // ----- which layout a number is printed in

  lemma {:induction false} ZerosAre(k: nat)
    ensures forall u :: u in Zeros(k) ==> u == ZERO
  {
    if k > 0 {
      ZerosAre(k - 1);
    }
  }

  /** The signs and the letter in a text, where its runs of digits have been taken out. */
  lemma MarksOf(whole: Text, fraction: Text, exponent: Option<int>)
    requires AllDigits(whole) && AllDigits(fraction)
    ensures var t := Assembled(whole, fraction, exponent);
            && (101 in t <==> exponent.Some?) && (46 in t <==> fraction != [])
            && (43 in t <==> exponent.Some? && exponent.value >= 0)
            && (45 in t <==> exponent.Some? && exponent.value < 0)
  {
    if exponent.Some? {
      DigitsRead(if exponent.value < 0 then -exponent.value else exponent.value);
      assert PrintExponent(exponent.value)[0] == 101;
      assert PrintExponent(exponent.value)[1] == if exponent.value < 0 then 45 else 43;
    }
    assert fraction != [] ==> ([POINT] + fraction)[0] == 46;
  }

  /**
   A number is printed with an exponent exactly from 10^21 up and below 10^-6, and then with one digit before the
   point; in full it begins with a zero exactly below one; it has a point exactly where digits are left for it.
   */
  lemma NumberLayout(n: Decimal) returns (sign: Text, body: Text)
    requires Shortest(n) && n.digits != []
    ensures PrintNumber(n) == sign + body && sign == if n.negative then [45] else []
    ensures 101 in body <==> n.point > 21 || n.point <= -6
    ensures 43 in body <==> n.point > 21
    ensures 45 in body <==> n.point <= -6
    ensures 46 in body <==> if 101 in body then |n.digits| > 1 else n.point < |n.digits|
    ensures 101 in body ==> |body| > 1 && body[0] == n.digits[0] && (body[1] == 46 || body[1] == 101)
    ensures body != [] && (body[0] == 48 <==> 101 !in body && n.point <= 0)
    ensures body[0] == 48 ==> |body| > 1 && body[1] == 46
    ensures 101 !in body && 46 in body ==> body[|body| - 1] != 48
  {
    hide Zeros;
    sign, body := if n.negative then [MINUS] else [], PrintSize(n.digits, n.point);
    var (whole, fraction, exponent) := Parts(n.digits, n.point);
    MarksOf(whole, fraction, exponent);
  }
}
