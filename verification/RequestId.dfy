/**
 The bytes an InstantSend request id is the digest of, and a reader that gets
 the inputs back from them: no two input lists share a preimage.
 */
module RequestId {
  import opened Wrappers
  import opened ByteStrings

  /** What Python raises: `bytes([n])` and `struct.pack` on a value that does not fit. */
  datatype PackError = OutOfRange

  /** An outpoint as the node names it: the transaction id in display order. */
  datatype Outpoint = Outpoint(txid: Bytes, vout: int)

  datatype PrefixMode = AsString | Raw

  const PREFIX: Bytes := [105, 115, 108, 111, 99, 107]  // "islock"

  function LittleEndian(n: nat, width: nat): Bytes {
    if width == 0 then [] else [n % 256] + LittleEndian(n / 256, width - 1)
  }

  function CompactSize(n: int): Result<Bytes, PackError> {
    if n < 0 then Err(OutOfRange)
    else if n < 253 then Ok([n])
    else if n <= 0xFFFF then Ok([0xfd] + LittleEndian(n, 2))
    else if n <= 0xFFFF_FFFF then Ok([0xfe] + LittleEndian(n, 4))
    else if n <= 0xFFFF_FFFF_FFFF_FFFF then Ok([0xff] + LittleEndian(n, 8))
    else Err(OutOfRange)
  }

  function PackOutpoints(inputs: seq<Outpoint>): Result<Bytes, PackError> {
    if inputs == [] then Ok([])
    else if !(0 <= inputs[0].vout <= 0xFFFF_FFFF) then Err(OutOfRange)
    else match PackOutpoints(inputs[1..])
      case Err(e) => Err(e)
      case Ok(rest) => Ok(Internal(inputs[0].txid) + LittleEndian(inputs[0].vout, 4) + rest)
  }

  function Preimage(inputs: seq<Outpoint>, mode: PrefixMode): Result<Bytes, PackError> {
    var head := if mode == AsString then CompactSize(|PREFIX|).value + PREFIX else PREFIX;
    match (CompactSize(|inputs|), PackOutpoints(inputs))
    case (Ok(count), Ok(body)) => Ok(head + count + body)
    case _ => Err(OutOfRange)
  }

  // ----- the reader

  function FromLittleEndian(b: Bytes): nat {
    if b == [] then 0 else b[0] + 256 * FromLittleEndian(b[1..])
  }

  /** Reads one compact size, refusing a number written in a wider class than it needs. */
  function ReadCompactSize(b: Bytes): Option<(nat, Bytes)> {
    if b == [] then None
    else if b[0] < 253 then Some((b[0], b[1..]))
    else
      var width := if b[0] == 253 then 2 else if b[0] == 254 then 4 else 8;
      if |b| < 1 + width then None
      else
        var n := FromLittleEndian(b[1..1 + width]);
        var least := if width == 2 then 253 else if width == 4 then 0x1_0000 else 0x1_0000_0000;
        if n < least then None else Some((n, b[1 + width..]))
  }

  function ReadOutpoints(b: Bytes, count: nat): Option<(seq<Outpoint>, Bytes)> {
    if count == 0 then Some(([], b))
    else if |b| < 36 then None
    else match ReadOutpoints(b[36..], count - 1)
      case None => None
      case Some((more, rest)) => Some(([Outpoint(Internal(b[..32]), FromLittleEndian(b[32..36]))] + more, rest))
  }

  function ReadRequest(b: Bytes): Option<seq<Outpoint>> {
    if |b| < 7 || b[..7] != [6] + PREFIX then None
    else match ReadCompactSize(b[7..])
      case None => None
      case Some((count, body)) =>
        match ReadOutpoints(body, count)
        case Some((inputs, rest)) => if rest == [] then Some(inputs) else None
        case None => None
  }

  // ----- number laws

  function Pow256(width: nat): nat { if width == 0 then 1 else 256 * Pow256(width - 1) }

  lemma {:induction false} LittleEndianReads(n: nat, width: nat)
    requires n < Pow256(width)
    ensures |LittleEndian(n, width)| == width
    ensures FromLittleEndian(LittleEndian(n, width)) == n
  {
    if width > 0 {
      LittleEndianReads(n / 256, width - 1);
    }
  }

  lemma {:induction false} LittleEndianWrites(b: Bytes)
    ensures FromLittleEndian(b) < Pow256(|b|)
    ensures LittleEndian(FromLittleEndian(b), |b|) == b
  {
    if b != [] {
      LittleEndianWrites(b[1..]);
      assert b == [b[0]] + b[1..];
    }
  }

  lemma Powers()
    ensures Pow256(2) == 0x1_0000 && Pow256(4) == 0x1_0000_0000 && Pow256(8) == 0x1_0000_0000_0000_0000
  {
    assert Pow256(1) == 256;
    assert Pow256(3) == 256 * Pow256(2);
    assert Pow256(5) == 256 * Pow256(4);
    assert Pow256(6) == 256 * Pow256(5);
    assert Pow256(7) == 256 * Pow256(6);
  }

  /** What is read back is what was written, whatever follows it. */
  lemma CompactSizeReads(n: int, rest: Bytes)
    requires CompactSize(n).Ok?
    ensures ReadCompactSize(CompactSize(n).value + rest) == Some((n, rest))
  {
    Powers();
    var written := CompactSize(n).value;
    var width := |written| - 1;
    if n >= 253 {
      var w := if n <= 0xFFFF then 2 else if n <= 0xFFFF_FFFF then 4 else 8;
      LittleEndianReads(n, w);
      assert width == w;
      assert (written + rest)[1..1 + w] == LittleEndian(n, w);
      assert (written + rest)[1 + w..] == rest;
    } else {
      assert (written + rest)[1..] == rest;
    }
  }

  /** And whatever reads as a number was written for it: the encoding is minimal and unique. */
  lemma CompactSizeOnly(b: Bytes)
    requires ReadCompactSize(b).Some?
    ensures var (n, rest) := ReadCompactSize(b).value;
            CompactSize(n).Ok? && b == CompactSize(n).value + rest
  {
    Powers();
    assert b == [b[0]] + b[1..];
    if b[0] >= 253 {
      var w := if b[0] == 253 then 2 else if b[0] == 254 then 4 else 8;
      LittleEndianWrites(b[1..1 + w]);
      assert b == [b[0]] + b[1..1 + w] + b[1 + w..];
    }
  }

  /** No encoding is a prefix of another, so a count never runs into what follows it. */
  lemma CompactSizePrefixFree(n: int, m: int, rest: Bytes)
    requires CompactSize(n).Ok? && CompactSize(m).Ok?
    requires CompactSize(m).value == CompactSize(n).value + rest
    ensures n == m && rest == []
  {
    CompactSizeReads(n, rest);
    CompactSizeReads(m, []);
    assert CompactSize(m).value + [] == CompactSize(m).value;
  }

  ghost predicate Hashes(inputs: seq<Outpoint>) {
    forall i :: i in inputs ==> |i.txid| == 32
  }

  lemma {:induction false} OutpointsRead(inputs: seq<Outpoint>, rest: Bytes)
    requires Hashes(inputs) && PackOutpoints(inputs).Ok?
    ensures ReadOutpoints(PackOutpoints(inputs).value + rest, |inputs|) == Some((inputs, rest))
  {
    if inputs != [] {
      var b := PackOutpoints(inputs).value + rest;
      var txid, vout := Internal(inputs[0].txid), LittleEndian(inputs[0].vout, 4);
      InternalTwice(inputs[0].txid);
      Powers();
      LittleEndianReads(inputs[0].vout, 4);
      OutpointsRead(inputs[1..], rest);
      assert b == txid + vout + (PackOutpoints(inputs[1..]).value + rest);
      assert b[..32] == txid && b[32..36] == vout && b[36..] == PackOutpoints(inputs[1..]).value + rest;
      assert inputs == [Outpoint(inputs[0].txid, inputs[0].vout)] + inputs[1..];
    } else {
      assert [] + rest == rest;
    }
  }

  /** Reading a preimage gives exactly the inputs it was built from. */
  lemma PreimageReads(inputs: seq<Outpoint>)
    requires Hashes(inputs) && Preimage(inputs, AsString).Ok?
    ensures ReadRequest(Preimage(inputs, AsString).value) == Some(inputs)
  {
    var b := Preimage(inputs, AsString).value;
    var count, body := CompactSize(|inputs|).value, PackOutpoints(inputs).value;
    assert CompactSize(|PREFIX|).value == [6];
    assert b == [6] + PREFIX + (count + body);
    assert b[..7] == [6] + PREFIX && b[7..] == count + body;
    CompactSizeReads(|inputs|, body);
    OutpointsRead(inputs, []);
    assert body + [] == body;
  }

  /** Different input lists never hash the same bytes. */
  lemma PreimageInjective(a: seq<Outpoint>, b: seq<Outpoint>)
    requires Hashes(a) && Hashes(b) && Preimage(a, AsString).Ok?
    requires Preimage(a, AsString) == Preimage(b, AsString)
    ensures a == b
  {
    PreimageReads(a);
    PreimageReads(b);
  }

  /** The negative control, which drops the prefix's length, never hashes the node's bytes. */
  lemma RawNeverMatches(a: seq<Outpoint>, b: seq<Outpoint>)
    requires Preimage(a, AsString).Ok? && Preimage(b, Raw).Ok?
    ensures Preimage(a, AsString) != Preimage(b, Raw)
  {
    assert CompactSize(|PREFIX|).value == [6];
    assert Preimage(a, AsString).value[0] == 6;
    assert Preimage(b, Raw).value[0] == 105;
  }

  // ----- which byte stands where

  ghost predicate Packable(inputs: seq<Outpoint>) {
    forall i :: 0 <= i < |inputs| ==> |inputs[i].txid| == 32 && 0 <= inputs[i].vout <= 0xFFFF_FFFF
  }

  /** Byte `j` of an outpoint: the id from its last displayed byte on, then the index from its lowest byte on. */
  function OutpointByte(o: Outpoint, j: nat): int
    requires |o.txid| == 32 && j < 36
  {
    if j < 32 then o.txid[31 - j]
    else if j == 32 then o.vout % 256
    else if j == 33 then o.vout / 256 % 256
    else if j == 34 then o.vout / 65536 % 256
    else o.vout / 16777216 % 256
  }

  lemma OnePacked(o: Outpoint, j: nat)
    requires |o.txid| == 32 && 0 <= o.vout <= 0xFFFF_FFFF && j < 36
    ensures var b := Internal(o.txid) + LittleEndian(o.vout, 4); |b| == 36 && b[j] == OutpointByte(o, j)
  {
    FourBytes(o.vout);
    InternalTwice(o.txid);
    if j < 32 {
      InternalAt(o.txid, j);
    }
  }

  lemma FourBytes(n: nat)
    requires n <= 0xFFFF_FFFF
    ensures LittleEndian(n, 4) == [n % 256, n / 256 % 256, n / 65536 % 256, n / 16777216 % 256]
  {
    assert LittleEndian(n / 256 / 256 / 256, 1) == [n / 256 / 256 / 256 % 256];
    assert LittleEndian(n / 256 / 256, 2) == [n / 256 / 256 % 256] + LittleEndian(n / 256 / 256 / 256, 1);
    assert LittleEndian(n / 256, 3) == [n / 256 % 256] + LittleEndian(n / 256 / 256, 2);
  }

  lemma {:induction false} PackedAt(inputs: seq<Outpoint>, i: nat, j: nat)
    requires Packable(inputs) && i < |inputs| && j < 36
    ensures PackOutpoints(inputs).Ok? && |PackOutpoints(inputs).value| == 36 * |inputs|
    ensures PackOutpoints(inputs).value[36 * i + j] == OutpointByte(inputs[i], j)
  {
    hide LittleEndian, OutpointByte;
    PackedSize(inputs);
    PackedSize(inputs[1..]);
    OnePacked(inputs[0], j);
    var one, more := Internal(inputs[0].txid) + LittleEndian(inputs[0].vout, 4), PackOutpoints(inputs[1..]).value;
    assert PackOutpoints(inputs).value == one + more;
    if i > 0 {
      PackedAt(inputs[1..], i - 1, j);
      assert 36 * i + j == 36 + (36 * (i - 1) + j);
    }
  }

  lemma {:induction false} PackedSize(inputs: seq<Outpoint>)
    requires Packable(inputs)
    ensures PackOutpoints(inputs).Ok? && |PackOutpoints(inputs).value| == 36 * |inputs|
  {
    hide LittleEndian, OutpointByte;
    if inputs != [] {
      OnePacked(inputs[0], 0);
      PackedSize(inputs[1..]);
    }
  }

  /**
   The bytes hashed for fewer than 253 inputs: six and `islock`, the count, and 36 bytes an input; raw, the same
   without the six.
   */
  lemma PreimageLayout(inputs: seq<Outpoint>, i: nat, j: nat)
    requires Packable(inputs) && |inputs| < 253 && i < |inputs| && j < 36
    ensures var b, raw := Preimage(inputs, AsString), Preimage(inputs, Raw);
            && b.Ok? && raw == Ok(b.value[1..]) && |b.value| == 8 + 36 * |inputs|
            && b.value[..8] == [6, 105, 115, 108, 111, 99, 107, |inputs|]
            && b.value[8 + 36 * i + j] == OutpointByte(inputs[i], j)
  {
    hide OutpointByte, PackOutpoints;
    PackedSize(inputs);
    PackedAt(inputs, i, j);
    var body := PackOutpoints(inputs).value;
    var b := Preimage(inputs, AsString).value;
    assert b == [6] + PREFIX + [|inputs|] + body;
    assert b[1..] == PREFIX + [|inputs|] + body;
    assert b[..8] == [6] + PREFIX + [|inputs|];
  }

  /** A size in its wider classes: a mark, then the number from its lowest byte on. */
  lemma SizeBytes(n: nat)
    requires 253 <= n <= 0xFFFF_FFFF
    ensures n <= 0xFFFF ==> CompactSize(n) == Ok([253, n % 256, n / 256 % 256])
    ensures n > 0xFFFF ==>
              CompactSize(n) == Ok([254, n % 256, n / 256 % 256, n / 65536 % 256, n / 16777216 % 256])
  {
    FourBytes(n);
    assert LittleEndian(n / 256, 1) == [n / 256 % 256];
    assert [0xfd] + LittleEndian(n, 2) == [253, n % 256, n / 256 % 256];
    assert [0xfe] + LittleEndian(n, 4) == [254, n % 256, n / 256 % 256, n / 65536 % 256, n / 16777216 % 256];
  }
}
