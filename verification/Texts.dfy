/** Texts as JavaScript holds them, sequences of UTF-16 code units, and the decimal and padding every printer shares. */
module Texts {

  type CodeUnit = n: int | 0 <= n < 0x1_0000
  type Text = seq<CodeUnit>

  const MINUS: CodeUnit := 45
  const POINT: CodeUnit := 46
  const ZERO: CodeUnit := 48

  predicate IsDigit(u: CodeUnit) { ZERO <= u < ZERO + 10 }

  predicate AllDigits(t: Text) { forall i :: 0 <= i < |t| ==> IsDigit(t[i]) }

  /** A natural number in decimal, with no leading zero. */
  function Digits(n: nat): (t: Text)
    ensures |t| > 0
  {
    if n < 10 then [ZERO + n] else Digits(n / 10) + [ZERO + n % 10]
  }

  /** The number a run of digits spells. */
  function DigitsValue(t: Text): nat
    requires AllDigits(t)
  {
    if t == [] then 0 else DigitsValue(t[..|t| - 1]) * 10 + (t[|t| - 1] - ZERO)
  }

  lemma {:induction false} DigitsRead(n: nat)
    ensures AllDigits(Digits(n)) && DigitsValue(Digits(n)) == n
    ensures Digits(n)[0] == ZERO <==> n == 0
  {
    if n < 10 {
      assert Digits(n)[..0] == [];
    } else {
      DigitsRead(n / 10);
      var front := Digits(n / 10);
      assert Digits(n)[..|front|] == front;
    }
  }

  function PadStart(t: Text, width: nat): Text
    decreases width - |t|
  {
    if |t| >= width then t else PadStart([ZERO] + t, width)
  }
}
