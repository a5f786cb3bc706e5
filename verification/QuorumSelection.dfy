/**
 Which quorum signs an InstantSend lock, which quorum a verifier re-derives for
 it, and exactly when the two differ.

 A score is the double SHA-256 digest of the candidate; equal-length digests
 compare bytewise as the integers they spell, so a score is an integer here and
 the hash itself stays uninterpreted.
 */
module QuorumSelection {
  import opened Wrappers
  import opened Sorting
  import opened Sets

  const SIGN_HEIGHT_OFFSET := 8

  datatype Quorum = Quorum(base: int, mined: int, hash: string)

  datatype Decision = Accept | Accept2 | Reject

  /** The decision, where the first attempt selected and what it found, and the same for the second. */
  datatype Verdict = Verdict(decision: Decision, at1: int, attempt1: Option<int>, second: Option<(int, Option<int>)>)

  predicate MinedOrder(a: Quorum, b: Quorum) {
    a.mined < b.mined || (a.mined == b.mined && a.base <= b.base)
  }

  function MinedBy(quorums: seq<Quorum>, height: int): seq<Quorum> {
    if quorums == [] then []
    else if quorums[0].mined <= height then [quorums[0]] + MinedBy(quorums[1..], height)
    else MinedBy(quorums[1..], height)
  }

  /** Python's `s[start:]`, for every integer `start`. */
  function SliceFrom<T>(s: seq<T>, start: int): seq<T> {
    if start < 0 then if |s| + start < 0 then s else s[|s| + start..]
    else if start > |s| then [] else s[start..]
  }

  function Reverse<T>(s: seq<T>): seq<T> {
    seq(|s|, i requires 0 <= i < |s| => s[|s| - 1 - i])
  }

  /** The last `pool` quorums mined by `start`, newest first. */
  function ActiveAt(quorums: seq<Quorum>, start: int, pool: int): seq<Quorum> {
    Reverse(SliceFrom(Sort(MinedBy(quorums, start), MinedOrder), -pool))
  }

  /** The first of the first `n` candidates with the lowest score. */
  function Best(candidates: seq<Quorum>, n: nat, score: Quorum -> int): (b: nat)
    requires 0 < n <= |candidates|
    ensures b < n
  {
    if n == 1 then 0
    else
      var b := Best(candidates, n - 1, score);
      if score(candidates[n - 1]) < score(candidates[b]) then n - 1 else b
  }

  function Pick(candidates: seq<Quorum>, score: Quorum -> int): Option<int> {
    if candidates == [] then None else Some(candidates[Best(candidates, |candidates|, score)].base)
  }

  function Select(quorums: seq<Quorum>, pool: int, start: int, score: Quorum -> int): Option<int> {
    Pick(ActiveAt(quorums, start, pool), score)
  }

  function SignerChoice(quorums: seq<Quorum>, pool: int, tipAtSign: int, score: Quorum -> int): Option<int> {
    Select(quorums, pool, tipAtSign - SIGN_HEIGHT_OFFSET, score)
  }

  function SignHeight(interval: int, signerBase: int, tipAtVerify: int): int {
    if signerBase + interval < tipAtVerify then signerBase + interval - 1 else tipAtVerify
  }

  function VerifierVerdict(
    quorums: seq<Quorum>, pool: int, interval: int, signerBase: int, tipAtVerify: int, score: Quorum -> int
  ): Verdict
  {
    var at := SignHeight(interval, signerBase, tipAtVerify);
    var first := Select(quorums, pool, at, score);
    if first == Some(signerBase) then Verdict(Accept, at, first, None)
    else
      var second := Select(quorums, pool, at - interval, score);
      Verdict(if second == Some(signerBase) then Accept2 else Reject, at, first, Some((at - interval, second)))
  }

  // ----- what the chain guarantees of a quorum table

  /** Cycles do not overlap: bases are at least an interval apart, each commitment is mined inside its own. */
  ghost predicate Spaced(quorums: seq<Quorum>, interval: int) {
    && (forall q :: q in quorums ==> q.base < q.mined < q.base + interval)
    && (forall i, j :: 0 <= i < j < |quorums| ==>
          quorums[i].base + interval <= quorums[j].base || quorums[j].base + interval <= quorums[i].base)
  }

  // ----- the sorted table, and every window as a slice of it

  /** A sorted table: bases, and so commitments, move forward a whole interval at a time. */
  ghost predicate Advancing(line: seq<Quorum>, interval: int) {
    && (forall i :: 0 <= i < |line| ==> line[i].base < line[i].mined < line[i].base + interval)
    && (forall i, j :: 0 <= i < j < |line| ==> line[i].base + interval <= line[j].base)
  }

  /** The first `n` quorums of a sorted table are those mined by `height`. */
  ghost predicate IsCut(line: seq<Quorum>, height: int, n: nat) {
    n <= |line| && forall i :: 0 <= i < |line| ==> (line[i].mined <= height <==> i < n)
  }

  /** Where the window that ends before position `n` begins. */
  function Lo(n: nat, pool: int): (lo: nat)
    ensures lo <= n
  {
    if pool > 0 then if n < pool then 0 else n - pool
    else if -pool > n then n else -pool
  }

  function Window(line: seq<Quorum>, n: nat, pool: int): (w: seq<Quorum>)
    requires n <= |line|
    ensures |w| == n - Lo(n, pool)
    ensures forall i :: 0 <= i < |w| ==> w[i] == line[n - 1 - i]
  {
    Reverse(line[Lo(n, pool)..n])
  }

  lemma {:induction false} MinedByCounts(s: seq<Quorum>, height: int, q: Quorum)
    ensures multiset(MinedBy(s, height))[q] == if q.mined <= height then multiset(s)[q] else 0
  {
    if s != [] {
      MinedByCounts(s[1..], height, q);
      assert s == [s[0]] + s[1..];
    }
  }

  lemma {:induction false} CutExists(line: seq<Quorum>, interval: int, height: int) returns (n: nat)
    requires Advancing(line, interval)
    ensures IsCut(line, height, n)
  {
    if line == [] {
      n := 0;
    } else {
      var front, last := line[..|line| - 1], line[|line| - 1];
      n := CutExists(front, interval, height);
      if last.mined <= height {
        assert forall i :: 0 <= i < |front| ==> front[i].mined < last.mined;
        n := |line|;
      }
    }
  }

  lemma {:induction false} MinedByAppends(a: seq<Quorum>, b: seq<Quorum>, height: int)
    ensures MinedBy(a + b, height) == MinedBy(a, height) + MinedBy(b, height)
  {
    if a == [] {
      assert a + b == b;
    } else {
      assert (a + b)[1..] == a[1..] + b;
      MinedByAppends(a[1..], b, height);
    }
  }

  lemma {:induction false} MinedByAll(s: seq<Quorum>, height: int)
    ensures (forall q :: q in s ==> q.mined <= height) ==> MinedBy(s, height) == s
    ensures (forall q :: q in s ==> q.mined > height) ==> MinedBy(s, height) == []
  {
    if s != [] {
      MinedByAll(s[1..], height);
    }
  }

  lemma MinedByIsPrefix(line: seq<Quorum>, height: int, n: nat)
    requires IsCut(line, height, n)
    ensures MinedBy(line, height) == line[..n]
  {
    assert line == line[..n] + line[n..];
    MinedByAppends(line[..n], line[n..], height);
    MinedByAll(line[..n], height);
    MinedByAll(line[n..], height);
  }

  lemma SpacedDiscerns(quorums: seq<Quorum>, interval: int)
    requires Spaced(quorums, interval)
    ensures Discerns(quorums, MinedOrder)
    ensures Distinct(quorums)
  {
    forall x, y | x in quorums && y in quorums && x.base == y.base ensures x == y {
      var i :| 0 <= i < |quorums| && quorums[i] == x;
      var j :| 0 <= j < |quorums| && quorums[j] == y;
      assert x.base < x.base + interval;
    }
    forall i, j | 0 <= i < j < |quorums| ensures quorums[i] != quorums[j] {
      assert quorums[i] in quorums;
    }
  }

  lemma BasesApart(quorums: seq<Quorum>, interval: int, x: Quorum, y: Quorum)
    requires Spaced(quorums, interval) && x in quorums && y in quorums && x != y
    ensures x.base + interval <= y.base || y.base + interval <= x.base
  {
    var i :| 0 <= i < |quorums| && quorums[i] == x;
    var j :| 0 <= j < |quorums| && quorums[j] == y;
  }

  /** The sorted table, which holds the same quorums as the dictionary it came from. */
  lemma SortedTable(quorums: seq<Quorum>, interval: int) returns (line: seq<Quorum>)
    requires Spaced(quorums, interval)
    ensures line == Sort(quorums, MinedOrder)
    ensures Advancing(line, interval)
    ensures multiset(line) == multiset(quorums)
    ensures forall q :: q in line <==> q in quorums
  {
    line := Sort(quorums, MinedOrder);
    SortSorts(quorums, MinedOrder);
    SortPermutes(quorums, MinedOrder);
    SpacedDiscerns(quorums, interval);
    SortKeepsDistinct(quorums, MinedOrder);
    forall i, j | 0 <= i < j < |line| ensures line[i].base + interval <= line[j].base {
      assert MinedOrder(line[i], line[j]);
      BasesApart(quorums, interval, line[i], line[j]);
      assert line[i] in quorums && line[j] in quorums;
    }
  }

  lemma AdvancingSorted(line: seq<Quorum>, interval: int)
    requires Advancing(line, interval)
    ensures Sorted(line, MinedOrder) && Discerns(line, MinedOrder) && Distinct(line)
  {
  }

  lemma EligibleSorted(quorums: seq<Quorum>, interval: int, line: seq<Quorum>, height: int, n: nat)
    requires Advancing(line, interval) && multiset(line) == multiset(quorums) && IsCut(line, height, n)
    ensures Sort(MinedBy(quorums, height), MinedOrder) == line[..n]
  {
    MinedByIsPrefix(line, height, n);
    forall q ensures multiset(line[..n])[q] == multiset(MinedBy(quorums, height))[q] {
      MinedByCounts(line, height, q);
      MinedByCounts(quorums, height, q);
    }
    AdvancingSorted(line[..n], interval);
    SortPermutes(MinedBy(quorums, height), MinedOrder);
    SortSorts(MinedBy(quorums, height), MinedOrder);
    SortedUnique(line[..n], Sort(MinedBy(quorums, height), MinedOrder), MinedOrder);
  }

  /** Every window of the dictionary is a slice of the one sorted table. */
  lemma WindowIsSlice(quorums: seq<Quorum>, interval: int, line: seq<Quorum>, height: int, n: nat, pool: int)
    requires Advancing(line, interval) && multiset(line) == multiset(quorums) && IsCut(line, height, n)
    ensures ActiveAt(quorums, height, pool) == Window(line, n, pool)
  {
    EligibleSorted(quorums, interval, line, height, n);
    assert SliceFrom(line[..n], -pool) == line[Lo(n, pool)..n];
  }

  lemma SliceHolds(line: seq<Quorum>, interval: int, n: nat, pool: int, k: nat)
    requires Advancing(line, interval) && n <= |line| && k < |line|
    ensures line[k] in Window(line, n, pool) <==> Lo(n, pool) <= k < n
  {
    AdvancingSorted(line, interval);
    var w := Window(line, n, pool);
    if Lo(n, pool) <= k < n {
      assert w[n - 1 - k] == line[k];
    }
  }

  // ----- what a window is

  ghost function Newer(quorums: seq<Quorum>, q: Quorum, height: int): set<Quorum> {
    set r | r in quorums && q.mined < r.mined <= height
  }

  lemma {:induction false} DistinctSize<T>(s: seq<T>)
    requires Distinct(s)
    ensures |set x | x in s| == |s|
  {
    if s != [] {
      DistinctSize(s[1..]);
      assert (set x | x in s) == (set x | x in s[1..]) + {s[0]};
    }
  }

  lemma NewerSize(line: seq<Quorum>, interval: int, height: int, n: nat, i: nat)
    requires Advancing(line, interval) && IsCut(line, height, n) && i < n
    ensures |Newer(line, line[i], height)| == n - 1 - i
  {
    AdvancingSorted(line, interval);
    var after := line[i + 1..n];
    assert Distinct(after);
    DistinctSize(after);
    forall r | r in Newer(line, line[i], height) ensures r in after {
      var p :| 0 <= p < |line| && line[p] == r;
      assert i < p < n;
      assert after[p - i - 1] == r;
    }
    assert Newer(line, line[i], height) == set r | r in after;
  }

  /** A quorum is a candidate at a height iff it is mined by then and fewer than `pool` newer ones are. */
  lemma WindowMembers(quorums: seq<Quorum>, interval: int, height: int, pool: int, q: Quorum)
    requires Spaced(quorums, interval) && pool >= 1
    ensures q in ActiveAt(quorums, height, pool)
            <==> q in quorums && q.mined <= height && |Newer(quorums, q, height)| < pool
  {
    var line := SortedTable(quorums, interval);
    var n := CutExists(line, interval, height);
    WindowIsSlice(quorums, interval, line, height, n, pool);
    assert Newer(quorums, q, height) == Newer(line, q, height);
    if q in line {
      var i :| 0 <= i < |line| && line[i] == q;
      SliceHolds(line, interval, n, pool, i);
      if i < n {
        NewerSize(line, interval, height, n, i);
      }
    } else {
      assert forall x :: x in Window(line, n, pool) ==> x in line;
    }
  }

  // ----- signer against verifier

  lemma {:induction false} BestIsLeast(candidates: seq<Quorum>, n: nat, score: Quorum -> int)
    requires 0 < n <= |candidates|
    ensures var b := Best(candidates, n, score);
            forall i :: 0 <= i < n && i != b ==>
              score(candidates[b]) <= score(candidates[i]) && (i < b ==> score(candidates[b]) < score(candidates[i]))
  {
    if n > 1 {
      BestIsLeast(candidates, n - 1, score);
    }
  }

  /** Being the pick from a window: a place in it, the lowest score, the newest among equals. */
  ghost predicate Picked(line: seq<Quorum>, lo: nat, n: nat, k: nat, score: Quorum -> int)
    requires n <= |line|
  {
    && lo <= k < n
    && (forall p :: lo <= p < k ==> score(line[k]) <= score(line[p]))
    && (forall p :: k < p < n ==> score(line[k]) < score(line[p]))
  }

  lemma PickIsPicked(line: seq<Quorum>, interval: int, n: nat, pool: int, k: nat, score: Quorum -> int)
    requires Advancing(line, interval) && n <= |line| && k < |line|
    ensures Pick(Window(line, n, pool), score) == Some(line[k].base) <==> Picked(line, Lo(n, pool), n, k, score)
  {
    var window := Window(line, n, pool);
    if window != [] {
      BestIsLeast(window, |window|, score);
      var at := n - 1 - Best(window, |window|, score);
      assert Picked(line, Lo(n, pool), n, at, score) by {
        forall p | Lo(n, pool) <= p < n && p != at
          ensures score(line[at]) <= score(line[p]) && (p > at ==> score(line[at]) < score(line[p]))
        {
          assert window[n - 1 - p] == line[p];
        }
      }
      if at < k {
        assert line[at].base + interval <= line[k].base;
      } else if k < at {
        assert line[k].base + interval <= line[at].base;
      }
    }
  }

  // ----- whom the signer picks

  /** What the signer may pick: eight blocks deep, with fewer than `pool` newer ones that are. */
  ghost predicate Deep(quorums: seq<Quorum>, pool: int, tip: int, q: Quorum) {
    q in quorums && q.mined + 8 <= tip && |set r | r in quorums && q.mined < r.mined && r.mined + 8 <= tip| < pool
  }

  lemma DeepIsListed(quorums: seq<Quorum>, pool: int, tip: int, q: Quorum)
    requires Deep(quorums, pool, tip, q)
    ensures q in quorums
  {
  }

  lemma DeepIsWeighed(quorums: seq<Quorum>, interval: int, pool: int, tip: int, q: Quorum)
    requires Spaced(quorums, interval) && pool >= 1
    ensures Deep(quorums, pool, tip, q) <==> q in ActiveAt(quorums, tip - SIGN_HEIGHT_OFFSET, pool)
  {
    hide ActiveAt, Spaced;
    WindowMembers(quorums, interval, tip - SIGN_HEIGHT_OFFSET, pool, q);
    assert Newer(quorums, q, tip - SIGN_HEIGHT_OFFSET)
        == set r | r in quorums && q.mined < r.mined && r.mined + 8 <= tip;
  }

  /** The signer picks the quorum with the lowest score among those eight blocks deep, the newest of equals. */
  lemma SignsIff(quorums: seq<Quorum>, interval: int, pool: int, tip: int, b: Quorum, score: Quorum -> int)
    requires Spaced(quorums, interval) && b in quorums && pool >= 1
    ensures SignerChoice(quorums, pool, tip, score) == Some(b.base)
       <==> && Deep(quorums, pool, tip, b)
            && forall q :: Deep(quorums, pool, tip, q) && q != b ==>
                 score(b) <= score(q) && (q.mined > b.mined ==> score(b) < score(q))
  {
    hide ActiveAt, Window, Pick, Deep, Spaced;
    var line := SortedTable(quorums, interval);
    var n := CutExists(line, interval, tip - SIGN_HEIGHT_OFFSET);
    WindowIsSlice(quorums, interval, line, tip - SIGN_HEIGHT_OFFSET, n, pool);
    var k :| 0 <= k < |line| && line[k] == b;
    PickIsPicked(line, interval, n, pool, k, score);
    forall p | 0 <= p < |line| ensures Deep(quorums, pool, tip, line[p]) <==> Lo(n, pool) <= p < n {
      DeepIsWeighed(quorums, interval, pool, tip, line[p]);
      SliceHolds(line, interval, n, pool, p);
    }
    assert forall q :: Deep(quorums, pool, tip, q) ==> q in line by {
      forall q | Deep(quorums, pool, tip, q) ensures q in line {
        DeepIsListed(quorums, pool, tip, q);
      }
    }
    assert forall p :: 0 <= p < |line| ==> (p < k <==> line[p].mined < b.mined) && (p == k <==> line[p] == b);
  }

  /** It picks none exactly when none is deep enough. */
  lemma SignsNothingIff(quorums: seq<Quorum>, interval: int, pool: int, tip: int, score: Quorum -> int)
    requires Spaced(quorums, interval) && pool >= 1
    ensures SignerChoice(quorums, pool, tip, score) == None <==> forall q :: q in quorums ==> q.mined + 8 > tip
  {
    hide ActiveAt, Spaced;
    var window := ActiveAt(quorums, tip - SIGN_HEIGHT_OFFSET, pool);
    var line := SortedTable(quorums, interval);
    var m := CutExists(line, interval, tip - SIGN_HEIGHT_OFFSET);
    WindowIsSlice(quorums, interval, line, tip - SIGN_HEIGHT_OFFSET, m, pool);
    assert window == [] <==> m == 0;
    assert forall q :: q in quorums ==> exists i :: 0 <= i < |line| && line[i] == q;
    assert m > 0 ==> line[0] in quorums && line[0].mined + 8 <= tip;
  }

  lemma Two(older: Quorum, newer: Quorum, interval: int)
    requires Spaced([older, newer], interval) && older.base < newer.base
    ensures older.mined < newer.mined && older in [older, newer] && newer in [older, newer]
  {
    assert [older, newer][0] == older && [older, newer][1] == newer;
  }

  lemma TwoDeep(older: Quorum, newer: Quorum, pool: int, tip: int)
    requires pool >= 2 && older.mined < newer.mined
    ensures forall q :: Deep([older, newer], pool, tip, q) <==> q in [older, newer] && q.mined + 8 <= tip
  {
    forall q ensures Deep([older, newer], pool, tip, q) <==> q in [older, newer] && q.mined + 8 <= tip {
      var newest := set r | r in [older, newer] && q.mined < r.mined && r.mined + 8 <= tip;
      if q in [older, newer] {
        assert newest <= {newer};
        SubsetSize(newest, {newer});
      }
    }
  }

  /** One block decides: eight deep the newer quorum is weighed, seven deep it is not. */
  lemma OneBlockApart(older: Quorum, newer: Quorum, interval: int, pool: int, score: Quorum -> int)
    requires Spaced([older, newer], interval) && older.base < newer.base && pool >= 2 && score(newer) < score(older)
    ensures SignerChoice([older, newer], pool, newer.mined + 8, score) == Some(newer.base)
    ensures SignerChoice([older, newer], pool, newer.mined + 7, score) == Some(older.base)
  {
    hide SignerChoice, Spaced, Deep;
    Two(older, newer, interval);
    TwoDeep(older, newer, pool, newer.mined + 8);
    TwoDeep(older, newer, pool, newer.mined + 7);
    SignsIff([older, newer], interval, pool, newer.mined + 8, newer, score);
    SignsIff([older, newer], interval, pool, newer.mined + 7, older, score);
  }

  /**
   At the height a verifier selects, the lock's own quorum is the newest one mined; an interval lower it is not
   mined.
   */
  lemma SignerIsNewest(line: seq<Quorum>, interval: int, k: nat, tipAtVerify: int, m: nat)
    requires Advancing(line, interval) && k < |line|
    requires line[k].mined <= tipAtVerify
    requires IsCut(line, SignHeight(interval, line[k].base, tipAtVerify) - interval, m)
    ensures IsCut(line, SignHeight(interval, line[k].base, tipAtVerify), k + 1)
    ensures IsCut(line, line[k].mined, k + 1)
    ensures m <= k
  {
    if k + 1 < |line| {
      assert line[k].base + interval <= line[k + 1].base;
    }
  }

  /** A lock the rule signed, seen on the sorted table: quorum `k` is the pick among `[Lo(n), n)`. */
  lemma Signed(
    quorums: seq<Quorum>, interval: int, pool: int, tipAtSign: int, b: Quorum, score: Quorum -> int
  ) returns (line: seq<Quorum>, k: nat, n: nat)
    requires Spaced(quorums, interval) && b in quorums
    requires SignerChoice(quorums, pool, tipAtSign, score) == Some(b.base)
    ensures Advancing(line, interval) && multiset(line) == multiset(quorums)
    ensures IsCut(line, tipAtSign - SIGN_HEIGHT_OFFSET, n) && k < n && line[k] == b
    ensures Picked(line, Lo(n, pool), n, k, score)
  {
    line := SortedTable(quorums, interval);
    n := CutExists(line, interval, tipAtSign - SIGN_HEIGHT_OFFSET);
    k :| 0 <= k < |line| && line[k] == b;
    WindowIsSlice(quorums, interval, line, tipAtSign - SIGN_HEIGHT_OFFSET, n, pool);
    PickIsPicked(line, interval, n, pool, k, score);
  }

  /**
   The verifier's first window is the `pool` newest quorums up to and including
   the signer's, at every tip from the signing one on: the window as it stood
   when the signer's commitment was mined. The second window never holds it.
   */
  lemma VerifierWindow(
    quorums: seq<Quorum>, interval: int, pool: int, tipAtSign: int, tipAtVerify: int, b: Quorum, score: Quorum -> int
  )
    requires Spaced(quorums, interval) && b in quorums
    requires SignerChoice(quorums, pool, tipAtSign, score) == Some(b.base)
    requires tipAtSign <= tipAtVerify
    ensures var at := SignHeight(interval, b.base, tipAtVerify);
            && ActiveAt(quorums, at, pool) == ActiveAt(quorums, b.mined, pool)
            && ActiveAt(quorums, at, pool) != [] && ActiveAt(quorums, at, pool)[0] == b
            && b !in ActiveAt(quorums, at - interval, pool)
  {
    hide ActiveAt, Window, Advancing, Picked;
    var line, k, n := Signed(quorums, interval, pool, tipAtSign, b, score);
    var at := SignHeight(interval, b.base, tipAtVerify);
    var m := CutExists(line, interval, at - interval);
    SignerIsNewest(line, interval, k, tipAtVerify, m);
    WindowIsSlice(quorums, interval, line, at, k + 1, pool);
    WindowIsSlice(quorums, interval, line, b.mined, k + 1, pool);
    WindowIsSlice(quorums, interval, line, at - interval, m, pool);
    SliceHolds(line, interval, m, pool, k);
    assert Lo(k + 1, pool) <= k;
  }

  /** The rejections, located on the sorted table: an older quorum the signer's window left out scores lower. */
  lemma RejectedAt(
    quorums: seq<Quorum>, interval: int, pool: int, tipAtVerify: int,
    line: seq<Quorum>, k: nat, n: nat, score: Quorum -> int
  )
    requires Advancing(line, interval) && multiset(line) == multiset(quorums)
    requires k < n <= |line| && Picked(line, Lo(n, pool), n, k, score)
    requires line[k].mined <= tipAtVerify
    ensures var v := VerifierVerdict(quorums, pool, interval, line[k].base, tipAtVerify, score);
            && v.decision != Accept2
            && (v.decision == Reject
                <==> exists p :: Lo(k + 1, pool) <= p < Lo(n, pool) && score(line[p]) < score(line[k]))
  {
    hide ActiveAt, Window, Advancing, Pick;
    var at := SignHeight(interval, line[k].base, tipAtVerify);
    var m := CutExists(line, interval, at - interval);
    SignerIsNewest(line, interval, k, tipAtVerify, m);
    WindowIsSlice(quorums, interval, line, at, k + 1, pool);
    WindowIsSlice(quorums, interval, line, at - interval, m, pool);
    PickIsPicked(line, interval, k + 1, pool, k, score);
    PickIsPicked(line, interval, m, pool, k, score);
    assert Lo(k + 1, pool) <= Lo(n, pool) <= k;
  }

  /**
   The verdict on a lock signed by the rule: the same whenever the verifier
   looks; a rejection iff a quorum in the verifier's window but outside the
   signer's scores strictly below the signer's; never the second attempt.
   */
  lemma VerdictCharacterised(
    quorums: seq<Quorum>, interval: int, pool: int, tipAtSign: int, tipAtVerify: int, b: Quorum, score: Quorum -> int
  )
    requires Spaced(quorums, interval) && b in quorums
    requires SignerChoice(quorums, pool, tipAtSign, score) == Some(b.base)
    requires tipAtSign <= tipAtVerify
    ensures var v := VerifierVerdict(quorums, pool, interval, b.base, tipAtVerify, score);
            var signers := ActiveAt(quorums, tipAtSign - SIGN_HEIGHT_OFFSET, pool);
            var verifiers := ActiveAt(quorums, b.mined, pool);
            && v.decision != Accept2
            && (v.decision == Reject <==> exists q :: q in verifiers && q !in signers && score(q) < score(b))
            && signers != [] && (signers[0] == b ==> v.decision == Accept)
  {
    hide ActiveAt, Window, VerifierVerdict, Picked, Advancing, Spaced, SignerChoice;
    var line, k, n := Signed(quorums, interval, pool, tipAtSign, b, score);
    RejectedAt(quorums, interval, pool, tipAtVerify, line, k, n, score);
    var m := CutExists(line, interval, SignHeight(interval, b.base, tipAtVerify) - interval);
    SignerIsNewest(line, interval, k, tipAtVerify, m);
    WindowIsSlice(quorums, interval, line, tipAtSign - SIGN_HEIGHT_OFFSET, n, pool);
    WindowIsSlice(quorums, interval, line, b.mined, k + 1, pool);
    OutsideSigners(line, interval, n, pool, k, score);
    AdvancingSorted(line, interval);
  }

  /** The verifier's quorums the signer did not weigh are those from `Lo(k + 1)` up to `Lo(n)`. */
  lemma OutsideSigners(line: seq<Quorum>, interval: int, n: nat, pool: int, k: nat, score: Quorum -> int)
    requires Advancing(line, interval) && Lo(n, pool) <= k < n <= |line|
    ensures var signers, verifiers := Window(line, n, pool), Window(line, k + 1, pool);
            (exists p :: Lo(k + 1, pool) <= p < Lo(n, pool) && score(line[p]) < score(line[k]))
            <==> (exists q :: q in verifiers && q !in signers && score(q) < score(line[k]))
  {
    hide Window, Advancing;
    var signers, verifiers := Window(line, n, pool), Window(line, k + 1, pool);
    if p :| Lo(k + 1, pool) <= p < Lo(n, pool) && score(line[p]) < score(line[k]) {
      SliceHolds(line, interval, n, pool, p);
      SliceHolds(line, interval, k + 1, pool, p);
    }
    if q :| q in verifiers && q !in signers && score(q) < score(line[k]) {
      var i :| 0 <= i < |verifiers| && verifiers[i] == q;
      SliceHolds(line, interval, n, pool, k - i);
    }
  }

  lemma VerdictIgnoresWhen(
    quorums: seq<Quorum>, interval: int, pool: int, tipAtSign: int, tip1: int, tip2: int, b: Quorum,
    score: Quorum -> int
  )
    requires Spaced(quorums, interval) && b in quorums
    requires SignerChoice(quorums, pool, tipAtSign, score) == Some(b.base)
    requires tipAtSign <= tip1 && tipAtSign <= tip2
    ensures var v1 := VerifierVerdict(quorums, pool, interval, b.base, tip1, score);
            var v2 := VerifierVerdict(quorums, pool, interval, b.base, tip2, score);
            v1.decision == v2.decision && v1.attempt1 == v2.attempt1
  {
    VerifierWindow(quorums, interval, pool, tipAtSign, tip1, b, score);
    VerifierWindow(quorums, interval, pool, tipAtSign, tip2, b, score);
    VerdictCharacterised(quorums, interval, pool, tipAtSign, tip1, b, score);
    VerdictCharacterised(quorums, interval, pool, tipAtSign, tip2, b, score);
  }

  /** Until the next cycle is under way the first attempt is at the verifier's tip. */
  lemma FirstAttemptAtTip(
    quorums: seq<Quorum>, interval: int, pool: int, tipAtVerify: int, b: Quorum, score: Quorum -> int
  )
    ensures var v := VerifierVerdict(quorums, pool, interval, b.base, tipAtVerify, score);
            v.at1 == tipAtVerify || (b.base + interval < tipAtVerify && v.at1 < b.base + interval)
  {
  }

  /**
   Once the next cycle is under way the first attempt is at the last height of the lock's own, and a second
   at the last height before it, where it weighs the `pool` newest quorums before the lock's own.
   */
  lemma SecondWindow(
    quorums: seq<Quorum>, interval: int, pool: int, tipAtVerify: int, b: Quorum, q: Quorum, score: Quorum -> int
  )
    requires Spaced(quorums, interval) && b in quorums && pool >= 1 && b.base + interval < tipAtVerify
    ensures var v := VerifierVerdict(quorums, pool, interval, b.base, tipAtVerify, score);
            v.at1 + 1 == b.base + interval && (v.decision == Accept <==> v.second == None)
            && (v.second.Some? ==>
                  v.second.value.0 + 1 == b.base && v.second.value.1 == Select(quorums, pool, v.second.value.0, score)
                  && (q in ActiveAt(quorums, v.second.value.0, pool) <==>
                        q in quorums && q.mined < b.mined
                        && |set r | r in quorums && q.mined < r.mined < b.mined| < pool))
  {
    hide ActiveAt, Pick;
    var before := b.base - 1;
    WindowMembers(quorums, interval, before, pool, q);
    forall r | r in quorums ensures r.mined <= before <==> r.mined < b.mined {
      if r != b {
        BasesApart(quorums, interval, r, b);
      }
    }
    assert Newer(quorums, q, before) == set r | r in quorums && q.mined < r.mined < b.mined;
  }
}
