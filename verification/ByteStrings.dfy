/** Byte strings, the node's in-memory hash order, and the order `memcmp` and code units sort by. */
module ByteStrings {
  import opened Sorting

  type Byte = n: int | 0 <= n < 256
  type Bytes = seq<Byte>

  /** A display hash as the node holds it: reversed. */
  function Internal(display: Bytes): Bytes {
    if display == [] then [] else Internal(display[1..]) + [display[0]]
  }

  lemma {:induction false} InternalSplit(a: Bytes, b: Bytes)
    ensures Internal(a + b) == Internal(b) + Internal(a)
  {
    if a == [] {
      assert a + b == b;
    } else {
      assert (a + b)[1..] == a[1..] + b;
      InternalSplit(a[1..], b);
    }
  }

  lemma {:induction false} InternalTwice(a: Bytes)
    ensures |Internal(a)| == |a| && Internal(Internal(a)) == a
  {
    if a != [] {
      InternalTwice(a[1..]);
      InternalSplit(Internal(a[1..]), [a[0]]);
      assert Internal([a[0]]) == [a[0]];
      assert a == [a[0]] + a[1..];
    }
  }

  /** Lexicographic order, a prefix first. */
  predicate LexLeq(a: seq<int>, b: seq<int>) {
    a == [] || (b != [] && (a[0] < b[0] || (a[0] == b[0] && LexLeq(a[1..], b[1..]))))
  }

  lemma {:induction false} LexTotal(a: seq<int>, b: seq<int>)
    ensures LexLeq(a, b) || LexLeq(b, a)
    ensures LexLeq(a, b) && LexLeq(b, a) ==> a == b
  {
    if a != [] && b != [] {
      LexTotal(a[1..], b[1..]);
      assert a == [a[0]] + a[1..] && b == [b[0]] + b[1..];
    }
  }

  lemma {:induction false} LexTransitive(a: seq<int>, b: seq<int>, c: seq<int>)
    requires LexLeq(a, b) && LexLeq(b, c)
    ensures LexLeq(a, c)
  {
    if a != [] && b != [] && c != [] && a[0] == b[0] == c[0] {
      LexTransitive(a[1..], b[1..], c[1..]);
    }
  }

  /** The order of a commitment's bits: by the bytes in memory, not by the display. */
  predicate InternalOrder(a: Bytes, b: Bytes) {
    LexLeq(Internal(a), Internal(b))
  }

  lemma InternalOrderSound()
    ensures TotalPreorder(InternalOrder)
    ensures forall s: seq<Bytes> :: Discerns(s, InternalOrder)
  {
    forall a: Bytes, b: Bytes
      ensures InternalOrder(a, b) || InternalOrder(b, a)
      ensures InternalOrder(a, b) && InternalOrder(b, a) ==> a == b
    {
      LexTotal(Internal(a), Internal(b));
      InternalTwice(a);
      InternalTwice(b);
    }
    forall a: Bytes, b: Bytes, c: Bytes | InternalOrder(a, b) && InternalOrder(b, c) ensures InternalOrder(a, c) {
      LexTransitive(Internal(a), Internal(b), Internal(c));
    }
  }

  // ----- which of two hashes comes first

  /** Byte `k` in memory is byte `k` of the display from its end. */
  lemma {:induction false} InternalAt(a: Bytes, k: nat)
    requires k < |a|
    ensures |Internal(a)| == |a| && Internal(a)[k] == a[|a| - 1 - k]
  {
    InternalTwice(a[1..]);
    if k < |a| - 1 {
      InternalAt(a[1..], k);
    }
  }

  /** Of two hashes as displayed, the last byte in which they differ decides. */
  ghost predicate Below(a: Bytes, b: Bytes) {
    |a| == |b| && exists k :: 0 <= k < |a| && a[k] < b[k] && a[k + 1..] == b[k + 1..]
  }

  lemma {:induction false} LexDiffer(a: seq<int>, b: seq<int>) returns (i: nat)
    requires LexLeq(a, b) && |a| == |b| && a != b
    ensures i < |a| && a[..i] == b[..i] && a[i] < b[i]
  {
    if a[0] < b[0] {
      i := 0;
    } else {
      assert a == [a[0]] + a[1..] && b == [b[0]] + b[1..];
      var j := LexDiffer(a[1..], b[1..]);
      i := j + 1;
      assert a[..i] == [a[0]] + a[1..][..j] && b[..i] == [b[0]] + b[1..][..j];
    }
  }

  lemma BelowOneWay(a: Bytes, b: Bytes)
    requires Below(a, b)
    ensures !Below(b, a) && a != b
  {
  }

  /** So the order in memory of hashes of one length is decided by the last byte displayed, then by the one before. */
  lemma InternalOrderIff(a: Bytes, b: Bytes)
    requires |a| == |b|
    ensures InternalOrder(a, b) <==> a == b || Below(a, b)
  {
    InternalTwice(a);
    InternalTwice(b);
    LexTotal(Internal(a), Internal(b));
    if a != b {
      if InternalOrder(a, b) {
        InternalBelow(a, b);
      } else {
        InternalBelow(b, a);
        BelowOneWay(b, a);
      }
    }
  }

  lemma InternalBelow(a: Bytes, b: Bytes)
    requires |a| == |b| && a != b && InternalOrder(a, b)
    ensures Below(a, b)
  {
    InternalTwice(a);
    InternalTwice(b);
    var i := LexDiffer(Internal(a), Internal(b));
    var k := |a| - 1 - i;
    InternalAt(a, i);
    InternalAt(b, i);
    forall m | k < m < |a| ensures a[m] == b[m] {
      InternalAt(a, |a| - 1 - m);
      InternalAt(b, |a| - 1 - m);
      assert Internal(a)[..i][|a| - 1 - m] == Internal(b)[..i][|a| - 1 - m];
    }
    assert a[k + 1..] == b[k + 1..];
  }
}
