/** The finite numbers JavaScript has: the binary64 values of IEEE 754, as the reals they stand for. */
module Doubles {
  import opened Powers

  const SIGNIFICAND := 0x20_0000_0000_0000  // 2^53

  /** `m` times two to the `e`. */
  function Scaled(m: int, e: int): real {
    if e >= 0 then m as real * Pow2(e) as real else m as real / Pow2(-e) as real
  }

  predicate InRange(m: int, e: int) { -SIGNIFICAND < m < SIGNIFICAND && -1074 <= e <= 971 }

  ghost predicate IsDouble(x: real) { exists m, e :: InRange(m, e) && x == Scaled(m, e) }

  type Double = x: real | IsDouble(x) ghost witness (WholeIsDouble(0); 0.0)

  lemma WholeIsDouble(n: int)
    requires -SIGNIFICAND < n < SIGNIFICAND
    ensures IsDouble(n as real)
  {
    assert InRange(n, 0) && Scaled(n, 0) == n as real;
  }
}
