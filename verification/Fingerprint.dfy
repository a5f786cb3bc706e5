/** The draft's label: four 32-bit FNV-1a passes over the canonical text, two bytes a code unit. */
module Fingerprint {
  import opened Wrappers
  import opened CanonicalJson
  import opened Powers
  import opened Texts

  const PRIME := 0x0100_0193
  const WORD := 0x1_0000_0000
  const OFFSETS: seq<nat> := [0x811c_9dc5, 0x0100_0193, 0x9e37_79b9, 0x85eb_ca6b]

  type Word = n: int | 0 <= n < WORD

  /** Exclusive or of the low `k` bits. */
  function Xor(a: nat, b: nat, k: nat): nat {
    if k == 0 then 0 else 2 * Xor(a / 2, b / 2, k - 1) + if a % 2 != b % 2 then 1 else 0
  }

  function Mul(x: nat): Word { x * PRIME % WORD }

  function ByteStep(hash: Word, byte: nat): Word { Mul(Xor(hash, byte, 32)) }

  function UnitStep(hash: Word, unit: CodeUnit): Word {
    ByteStep(ByteStep(hash, unit % 256), unit / 256)
  }

  function Pass(text: Text, offset: Word): Word {
    if text == [] then offset else UnitStep(Pass(text[..|text| - 1], offset), text[|text| - 1])
  }

  method Fnv1a(text: Text, offset: Word) returns (hash: Word)
    ensures hash == Pass(text, offset)
  {
    hash := offset;
    for i := 0 to |text|
      invariant hash == Pass(text[..i], offset)
    {
      assert text[..i + 1][..i] == text[..i];
      var unit := text[i];
      hash := Mul(Xor(hash, unit % 256, 32));
      hash := Mul(Xor(hash, unit / 256, 32));
    }
    assert text[..|text|] == text;
  }

  // ----- the printed label

  function ToHex(n: nat): Text {
    if n < 16 then [HexDigit(n)] else ToHex(n / 16) + [HexDigit(n % 16)]
  }

  function Label(text: Text): Text {
    PadStart(ToHex(Pass(text, OFFSETS[0])), 8) + PadStart(ToHex(Pass(text, OFFSETS[1])), 8)
    + PadStart(ToHex(Pass(text, OFFSETS[2])), 8) + PadStart(ToHex(Pass(text, OFFSETS[3])), 8)
  }

  function DraftFingerprint(request: Value): Result<Text, Refusal> {
    match Canonical(request)
    case Ok(text) => Ok(Label(text))
    case Err(e) => Err(e)
  }

  const DRAFT: Text := [100, 114, 97, 102, 116, 58]  // "draft:"

  function DraftScope(request: Value): Result<Text, Refusal> {
    match DraftFingerprint(request)
    case Ok(digits) => Ok(DRAFT + digits)
    case Err(e) => Err(e)
  }

  // ----- exclusive or

  lemma {:induction false} XorFits(a: nat, b: nat, k: nat)
    ensures Xor(a, b, k) < Pow2(k)
  {
    if k > 0 {
      XorFits(a / 2, b / 2, k - 1);
    }
  }

  lemma XorParts(a: nat, b: nat, k: nat)
    requires k > 0
    ensures Xor(a, b, k) / 2 == Xor(a / 2, b / 2, k - 1)
    ensures Xor(a, b, k) % 2 == if a % 2 != b % 2 then 1 else 0
  {
  }

  lemma {:induction false} XorTwice(a: nat, b: nat, k: nat)
    requires a < Pow2(k)
    ensures Xor(Xor(a, b, k), b, k) == a
  {
    if k > 0 {
      var once := Xor(a, b, k);
      XorParts(a, b, k);
      XorTwice(a / 2, b / 2, k - 1);
      assert Xor(once / 2, b / 2, k - 1) == a / 2;
    }
  }

  lemma {:induction false} XorZero(a: nat, k: nat)
    requires a < Pow2(k)
    ensures Xor(a, 0, k) == a
  {
    if k > 0 {
      XorZero(a / 2, k - 1);
    }
  }

  lemma {:induction false} XorSelf(a: nat, b: nat, c: nat, k: nat)
    requires b < Pow2(k) && c < Pow2(k) && Xor(a, b, k) == Xor(a, c, k)
    ensures b == c
  {
    if k > 0 {
      XorSelf(a / 2, b / 2, c / 2, k - 1);
    }
  }

  lemma Regroup(high: nat, p: nat, low: nat, bit: nat)
    ensures 2 * (high * p + low) + bit == high * (2 * p) + (2 * low + bit)
  {
  }

  /** Mixing in a number below 2^j leaves the bits from `j` up as they were. */
  lemma {:induction false} XorKeepsHigh(a: nat, b: nat, k: nat, j: nat) returns (high: nat, low: nat, was: nat)
    requires a < Pow2(k) && b < Pow2(j) && j <= k
    ensures low < Pow2(j) && was < Pow2(j)
    ensures Xor(a, b, k) == high * Pow2(j) + low && a == high * Pow2(j) + was
  {
    if j == 0 {
      XorZero(a, k);
      high, low, was := a, 0, 0;
    } else {
      high, low, was := XorKeepsHigh(a / 2, b / 2, k - 1, j - 1);
      var bit := if a % 2 != b % 2 then 1 else 0;
      Regroup(high, Pow2(j - 1), low, bit);
      Regroup(high, Pow2(j - 1), was, a % 2);
      low, was := 2 * low + bit, 2 * was + a % 2;
    }
  }

  lemma WordPowers()
    ensures Pow2(8) == 256 && Pow2(32) == WORD
  {
    assert Pow2(4) == 16;
    assert Pow2(8) == 16 * Pow2(4);
    assert Pow2(12) == 16 * Pow2(8);
    assert Pow2(16) == 16 * Pow2(12);
    assert Pow2(20) == 16 * Pow2(16);
    assert Pow2(24) == 16 * Pow2(20);
    assert Pow2(28) == 16 * Pow2(24);
    assert Pow2(32) == 16 * Pow2(28);
  }

  /** A word with a byte mixed in: still a word, with the same top three bytes. */
  lemma MixByte(hash: Word, byte: nat)
    requires byte < 256
    ensures Xor(hash, byte, 32) < WORD && Xor(hash, byte, 32) / 256 == hash / 256
    ensures Xor(Xor(hash, byte, 32), byte, 32) == hash
  {
    hide Xor, Pow2;
    WordPowers();
    XorFits(hash, byte, 32);
    XorTwice(hash, byte, 32);
    var high, low, was := XorKeepsHigh(hash, byte, 32, 8);
  }

  // ----- each step is a bijection

  const INVERSE := 899433627

  lemma Reduced(x: nat, m: int)
    requires x < WORD
    ensures (x + WORD * m) % WORD == x
  {
  }

  /** The prime has an inverse modulo 2^32. */
  lemma MulInverts(x: Word)
    ensures Mul(x) * INVERSE % WORD == x
  {
    var k := x * PRIME / WORD;
    assert Mul(x) == x * PRIME - k * WORD;
    assert PRIME * INVERSE == 3513497 * WORD + 1;
    assert Mul(x) * INVERSE == x + WORD * (x * 3513497 - k * INVERSE);
    Reduced(x, x * 3513497 - k * INVERSE);
  }

  /** A step can be undone knowing its byte, so it never merges two hashes. */
  lemma ByteStepInverts(hash: Word, byte: nat)
    requires byte < 256
    ensures Xor(ByteStep(hash, byte) * INVERSE % WORD, byte, 32) == hash
  {
    MixByte(hash, byte);
    MulInverts(Xor(hash, byte, 32));
  }

  lemma UnitStepInjective(h1: Word, h2: Word, unit: CodeUnit)
    requires UnitStep(h1, unit) == UnitStep(h2, unit)
    ensures h1 == h2
  {
    ByteStepInverts(ByteStep(h1, unit % 256), unit / 256);
    ByteStepInverts(ByteStep(h2, unit % 256), unit / 256);
    ByteStepInverts(h1, unit % 256);
    ByteStepInverts(h2, unit % 256);
  }

  /**
   Products of words that share their top three bytes do not, unless the words are equal: 403 * d = e has no
   small solution.
   */
  lemma NearProducts(x: Word, y: Word)
    requires x / 256 == y / 256 && Mul(x) / 256 == Mul(y) / 256
    ensures x == y
  {
    var d, e := x - y, Mul(x) - Mul(y);
    var k := x * PRIME / WORD - y * PRIME / WORD;
    assert -256 < d < 256 && -256 < e < 256;
    assert d * PRIME == k * WORD + e;
    assert d * 0x100_0000 + 403 * d == k * 256 * 0x100_0000 + e;
    assert (d - 256 * k) * 0x100_0000 == e - 403 * d;
    assert d - 256 * k == 0;
  }

  /** Two different units never take one hash to the same hash. */
  lemma UnitStepSeparates(hash: Word, u1: CodeUnit, u2: CodeUnit)
    requires UnitStep(hash, u1) == UnitStep(hash, u2)
    ensures u1 == u2
  {
    var x, y := Xor(hash, u1 % 256, 32), Xor(hash, u2 % 256, 32);
    MixByte(hash, u1 % 256);
    MixByte(hash, u2 % 256);
    MixByte(Mul(x), u1 / 256);
    MixByte(Mul(y), u2 / 256);
    MulInverts(Xor(Mul(x), u1 / 256, 32));
    MulInverts(Xor(Mul(y), u2 / 256, 32));
    assert Xor(Mul(x), u1 / 256, 32) == Xor(Mul(y), u2 / 256, 32);
    NearProducts(x, y);
    WordPowers();
    XorSelf(hash, u1 % 256, u2 % 256, 32);
    XorSelf(Mul(x), u1 / 256, u2 / 256, 32);
  }

  lemma {:induction false} PassAppends(a: Text, b: Text, offset: Word)
    ensures Pass(a + b, offset) == Pass(b, Pass(a, offset))
  {
    if b == [] {
      assert a + b == a;
    } else {
      assert (a + b)[..|a + b| - 1] == a + b[..|b| - 1];
      PassAppends(a, b[..|b| - 1], offset);
    }
  }

  lemma {:induction false} PassInjective(text: Text, h1: Word, h2: Word)
    requires Pass(text, h1) == Pass(text, h2)
    ensures h1 == h2
  {
    if text != [] {
      var front := text[..|text| - 1];
      UnitStepInjective(Pass(front, h1), Pass(front, h2), text[|text| - 1]);
      PassInjective(front, h1, h2);
    }
  }

  /** One different unit, whatever surrounds it, gives a different hash from every offset. */
  lemma PassSeparates(before: Text, u1: CodeUnit, u2: CodeUnit, after: Text, offset: Word)
    requires u1 != u2
    ensures Pass(before + [u1] + after, offset) != Pass(before + [u2] + after, offset)
  {
    var h := Pass(before, offset);
    forall u: CodeUnit ensures Pass(before + [u] + after, offset) == Pass(after, UnitStep(h, u)) {
      PassAppends(before + [u], after, offset);
      PassAppends(before, [u], offset);
      assert Pass([u], h) == UnitStep(Pass([u][..0], h), u);
    }
    if Pass(after, UnitStep(h, u1)) == Pass(after, UnitStep(h, u2)) {
      PassInjective(after, UnitStep(h, u1), UnitStep(h, u2));
      UnitStepSeparates(h, u1, u2);
    }
  }

  // ----- the label is injective in the four hashes

  function FromHex(t: Text): int {
    if t == [] then 0 else 16 * FromHex(t[..|t| - 1]) + HexValue(t[|t| - 1]).GetOr(0)
  }

  lemma {:induction false} HexReads(n: nat)
    ensures FromHex(ToHex(n)) == n
  {
    if n < 16 {
      assert ToHex(n)[..0] == [];
    } else {
      HexReads(n / 16);
      assert ToHex(n)[..|ToHex(n)| - 1] == ToHex(n / 16);
    }
  }

  lemma {:induction false} LeadingZero(t: Text)
    ensures FromHex([48] + t) == FromHex(t)
  {
    if t != [] {
      assert ([48] + t)[..|t|] == [48] + t[..|t| - 1];
      LeadingZero(t[..|t| - 1]);
    } else {
      assert ([48] + t)[..0] == [];
    }
  }

  lemma {:induction false} PaddingReads(t: Text, width: nat)
    ensures FromHex(PadStart(t, width)) == FromHex(t)
    ensures |t| <= width ==> |PadStart(t, width)| == width
    decreases width - |t|
  {
    if |t| < width {
      PaddingReads([48] + t, width);
      LeadingZero(t);
    }
  }

  lemma {:induction false} HexFits(n: nat, k: nat)
    requires n < Pow2(4 * k) && k > 0
    ensures 0 < |ToHex(n)| <= k
  {
    if k == 1 {
      assert Pow2(4) == 16;
    } else if n >= 16 {
      assert Pow2(4 * k) == 4 * Pow2(4 * k - 2);
      assert Pow2(4 * k - 2) == 4 * Pow2(4 * k - 4);
      HexFits(n / 16, k - 1);
    }
  }

  /** Eight digits, and the hash they spell. */
  lemma WordPrints(n: Word)
    ensures |PadStart(ToHex(n), 8)| == 8 && FromHex(PadStart(ToHex(n), 8)) == n
  {
    hide Pow2, PadStart, ToHex;
    WordPowers();
    HexFits(n, 8);
    HexReads(n);
    PaddingReads(ToHex(n), 8);
  }

  lemma LabelParts(t: Text)
    ensures |Label(t)| == 32
    ensures Label(t)[0..8] == PadStart(ToHex(Pass(t, OFFSETS[0])), 8)
    ensures Label(t)[8..16] == PadStart(ToHex(Pass(t, OFFSETS[1])), 8)
    ensures Label(t)[16..24] == PadStart(ToHex(Pass(t, OFFSETS[2])), 8)
    ensures Label(t)[24..32] == PadStart(ToHex(Pass(t, OFFSETS[3])), 8)
  {
    hide Pass, PadStart, ToHex;
    WordPrints(Pass(t, OFFSETS[0]));
    WordPrints(Pass(t, OFFSETS[1]));
    WordPrints(Pass(t, OFFSETS[2]));
    WordPrints(Pass(t, OFFSETS[3]));
  }

  lemma SamePrint(m: Word, n: Word)
    requires PadStart(ToHex(m), 8) == PadStart(ToHex(n), 8)
    ensures m == n
  {
    WordPrints(m);
    WordPrints(n);
  }

  /** The label is the four hashes, no more and no less. */
  lemma LabelExactly(a: Text, b: Text)
    ensures |Label(a)| == 32
    ensures Label(a) == Label(b) <==> forall i :: 0 <= i < 4 ==> Pass(a, OFFSETS[i]) == Pass(b, OFFSETS[i])
  {
    hide Pass, PadStart, ToHex;
    LabelParts(a);
    LabelParts(b);
    if Label(a) == Label(b) {
      SamePrint(Pass(a, OFFSETS[0]), Pass(b, OFFSETS[0]));
      SamePrint(Pass(a, OFFSETS[1]), Pass(b, OFFSETS[1]));
      SamePrint(Pass(a, OFFSETS[2]), Pass(b, OFFSETS[2]));
      SamePrint(Pass(a, OFFSETS[3]), Pass(b, OFFSETS[3]));
    }
  }

  /**
   Drafts whose canonical texts differ in exactly one code unit never share a fingerprint, and every pass tells
   them apart.
   */
  lemma OneUnitApart(a: Value, b: Value, before: Text, u1: CodeUnit, u2: CodeUnit, after: Text)
    requires Canonical(a) == Ok(before + [u1] + after) && Canonical(b) == Ok(before + [u2] + after)
    requires u1 != u2
    ensures forall offset: Word :: Pass(before + [u1] + after, offset) != Pass(before + [u2] + after, offset)
    ensures DraftFingerprint(a) != DraftFingerprint(b) && DraftScope(a) != DraftScope(b)
  {
    forall offset: Word ensures Pass(before + [u1] + after, offset) != Pass(before + [u2] + after, offset) {
      PassSeparates(before, u1, u2, after, offset);
    }
    LabelExactly(before + [u1] + after, before + [u2] + after);
    assert Pass(before + [u1] + after, OFFSETS[0]) != Pass(before + [u2] + after, OFFSETS[0]);
    var s, t := Label(before + [u1] + after), Label(before + [u2] + after);
    assert (DRAFT + s)[6..] == s && (DRAFT + t)[6..] == t;
  }

  // ----- the hash of bytes it is

  /** FNV-1a over bytes: exclusive or, then times the prime, modulo 2^32. */
  function OfBytes(bytes: seq<nat>, offset: Word): Word {
    if bytes == [] then offset
    else Xor(OfBytes(bytes[..|bytes| - 1], offset), bytes[|bytes| - 1], 32) * 16777619 % 4294967296
  }

  /** Two bytes a unit, the low one first. */
  ghost predicate LittleEndian(text: Text, bytes: seq<nat>) {
    |bytes| == 2 * |text|
    && forall i :: 0 <= i < |text| ==>
         bytes[2 * i] < 256 && bytes[2 * i + 1] < 256 && text[i] == bytes[2 * i] + 256 * bytes[2 * i + 1]
  }

  /** A pass is FNV-1a over the text's units as little-endian bytes. */
  lemma {:induction false} PassOfBytes(text: Text, bytes: seq<nat>, offset: Word)
    requires LittleEndian(text, bytes)
    ensures Pass(text, offset) == OfBytes(bytes, offset)
  {
    hide Xor;
    if text != [] {
      var n := |bytes|;
      var front, rest := text[..|text| - 1], bytes[..n - 2];
      assert forall i :: 0 <= i < |front| ==> front[i] == text[i] && rest[2 * i] == bytes[2 * i]
                                              && rest[2 * i + 1] == bytes[2 * i + 1];
      PassOfBytes(front, rest, offset);
      assert bytes[..n - 1][..n - 2] == rest && bytes[..n - 1][n - 2] == bytes[n - 2];
      var unit := text[|text| - 1];
      assert unit % 256 == bytes[n - 2] && unit / 256 == bytes[n - 1];
    }
  }

  /** The label spells the passes from the four offsets, eight digits each, in their order. */
  lemma LabelSpells(t: Text)
    ensures |Label(t)| == 32
    ensures FromHex(Label(t)[0..8]) == Pass(t, 2166136261) && FromHex(Label(t)[8..16]) == Pass(t, 16777619)
    ensures FromHex(Label(t)[16..24]) == Pass(t, 2654435769) && FromHex(Label(t)[24..32]) == Pass(t, 2246822507)
  {
    hide Pass, PadStart, ToHex, FromHex;
    LabelParts(t);
    WordPrints(Pass(t, OFFSETS[0]));
    WordPrints(Pass(t, OFFSETS[1]));
    WordPrints(Pass(t, OFFSETS[2]));
    WordPrints(Pass(t, OFFSETS[3]));
  }
}
