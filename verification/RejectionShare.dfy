/** How often a signed lock is rejected, over every strict ranking of the quorums involved. */
module RejectionShare {
  import opened Wrappers
  import opened Sorting
  import opened Rankings
  import opened QuorumSelection

  function IndexOf(s: seq<Quorum>, q: Quorum): (i: nat)
    requires q in s
    ensures i < |s| && s[i] == q
  {
    if s[0] == q then 0 else 1 + IndexOf(s[1..], q)
  }

  /** The scores a ranking of the quorums involved stands for. */
  function ScoreOf(involved: seq<Quorum>, r: seq<nat>): Quorum -> int {
    q => if q in involved && IndexOf(involved, q) < |r| then r[IndexOf(involved, q)] else 0
  }

  /** The signer's window and the verifier's together: `newer` quorums after the signer's, it, and those before it. */
  function Involved(quorums: seq<Quorum>, pool: int, tipAtSign: int, newer: nat): seq<Quorum> {
    ActiveAt(quorums, tipAtSign - SIGN_HEIGHT_OFFSET, pool + newer)
  }

  function SignedRankings(quorums: seq<Quorum>, pool: nat, tipAtSign: int, newer: nat, b: Quorum): set<seq<nat>> {
    set r | r in StrictRankings(pool + newer)
            && SignerChoice(quorums, pool, tipAtSign, ScoreOf(Involved(quorums, pool, tipAtSign, newer), r))
                == Some(b.base)
  }

  function RejectedRankings(
    quorums: seq<Quorum>, interval: int, pool: nat, tipAtSign: int, tipAtVerify: int, newer: nat, b: Quorum
  ): set<seq<nat>>
  {
    set r | r in SignedRankings(quorums, pool, tipAtSign, newer, b)
            && VerifierVerdict(quorums, pool, interval, b.base, tipAtVerify,
                               ScoreOf(Involved(quorums, pool, tipAtSign, newer), r)).decision == Reject
  }

  /** The quorum `b` has `newer` newer ones in the signer's window, and at least `pool` quorums are mined up to it. */
  ghost predicate Contested(quorums: seq<Quorum>, pool: nat, tipAtSign: int, newer: nat, b: Quorum) {
    && b in quorums && b.mined <= tipAtSign - SIGN_HEIGHT_OFFSET
    && |Newer(quorums, b, tipAtSign - SIGN_HEIGHT_OFFSET)| == newer < pool
    && |set q | q in quorums && q.mined <= b.mined| >= pool
  }

  lemma UpTo(line: seq<Quorum>, interval: int, k: nat)
    requires Advancing(line, interval) && k < |line|
    ensures |set q | q in line && q.mined <= line[k].mined| == k + 1
  {
    AdvancingSorted(line, interval);
    var upTo := line[..k + 1];
    assert Distinct(upTo);
    DistinctSize(upTo);
    forall q ensures q in upTo <==> q in line && q.mined <= line[k].mined {
      if q in line && q.mined <= line[k].mined {
        var p :| 0 <= p < |line| && line[p] == q;
        assert p <= k;
        assert upTo[p] == q;
      }
    }
    assert (set q | q in line && q.mined <= line[k].mined) == (set q | q in upTo);
  }

  lemma Located(quorums: seq<Quorum>, interval: int, pool: nat, tipAtSign: int, newer: nat, b: Quorum)
    returns (line: seq<Quorum>, n: nat)
    requires Spaced(quorums, interval) && Contested(quorums, pool, tipAtSign, newer, b)
    ensures Advancing(line, interval) && multiset(line) == multiset(quorums)
    ensures IsCut(line, tipAtSign - SIGN_HEIGHT_OFFSET, n)
    ensures pool + newer <= n && line[n - 1 - newer] == b
    ensures Involved(quorums, pool, tipAtSign, newer) == Window(line, n, pool + newer)
  {
    hide Window, ActiveAt, Advancing, Spaced;
    var height := tipAtSign - SIGN_HEIGHT_OFFSET;
    line := SortedTable(quorums, interval);
    n := CutExists(line, interval, height);
    var k :| 0 <= k < |line| && line[k] == b;
    assert Newer(quorums, b, height) == Newer(line, b, height);
    NewerSize(line, interval, height, n, k);
    UpTo(line, interval, k);
    assert (set q | q in quorums && q.mined <= b.mined) == (set q | q in line && q.mined <= b.mined);
    WindowIsSlice(quorums, interval, line, height, n, pool + newer);
  }

  /** On the table, a ranking scores the quorum `i` places before the window's end by `r[i]`. */
  lemma ScoreAt(line: seq<Quorum>, interval: int, n: nat, m: nat, r: seq<nat>, i: nat)
    requires Advancing(line, interval) && m <= n <= |line| && i < m == |r|
    ensures ScoreOf(Window(line, n, m), r)(line[n - 1 - i]) == r[i]
  {
    var involved := Window(line, n, m);
    AdvancingSorted(line, interval);
    assert involved[i] == line[n - 1 - i];
  }

  lemma SignedMeans(quorums: seq<Quorum>, interval: int, pool: nat, tipAtSign: int, newer: nat, b: Quorum, r: seq<nat>)
    requires Spaced(quorums, interval) && Contested(quorums, pool, tipAtSign, newer, b)
    requires r in StrictRankings(pool + newer)
    ensures r in SignedRankings(quorums, pool, tipAtSign, newer, b) <==> Leads(r, Below(pool), newer)
  {
    hide Window, ActiveAt, Advancing, Spaced, Pick, ScoreOf, Leads, Picked, Involved;
    var line, n := Located(quorums, interval, pool, tipAtSign, newer, b);
    var m := pool + newer;
    WordsMembers(m, m, r);
    WindowIsSlice(quorums, interval, line, tipAtSign - SIGN_HEIGHT_OFFSET, n, pool);
    PickIsPicked(line, interval, n, pool, n - 1 - newer, ScoreOf(Window(line, n, m), r));
    PickedLeads(line, interval, n, pool, newer, r);
  }

  lemma SignedCount(quorums: seq<Quorum>, interval: int, pool: nat, tipAtSign: int, newer: nat, b: Quorum)
    requires Spaced(quorums, interval) && Contested(quorums, pool, tipAtSign, newer, b)
    ensures SignedRankings(quorums, pool, tipAtSign, newer, b) == LedBy(pool + newer, Below(pool), newer)
  {
    hide SignerChoice, Leads, Spaced, Contested, ScoreOf;
    forall r | r in StrictRankings(pool + newer)
      ensures r in SignedRankings(quorums, pool, tipAtSign, newer, b) <==> Leads(r, Below(pool), newer)
    {
      SignedMeans(quorums, interval, pool, tipAtSign, newer, b, r);
    }
  }

  /** A ranking read along the table: contender `i` stands `i` places before position `n`. */
  lemma LeadsBackwards(v: seq<int>, n: nat, group: nat, newer: nat, r: seq<nat>)
    requires newer < group <= |r| <= n == |v|
    requires forall p :: n - |r| <= p < n ==> v[p] == r[n - 1 - p]
    ensures Leads(r, Below(group), newer) <==> forall p :: n - group <= p < n ==> v[n - 1 - newer] <= v[p]
  {
    var k := n - 1 - newer;
    if Leads(r, Below(group), newer) {
      forall p | n - group <= p < n ensures v[k] <= v[p] {
        assert n - 1 - p in Below(group);
      }
    }
    if forall p :: n - group <= p < n ==> v[k] <= v[p] {
      forall i | i in Below(group) && i < |r| ensures r[newer] <= r[i] {
        assert v[n - 1 - i] == r[i];
      }
    }
  }

  lemma Unequal(v: seq<int>, n: nat, newer: nat, r: seq<nat>, p: nat)
    requires newer < |r| <= n == |v| && n - |r| <= p < n && p != n - 1 - newer
    requires forall p :: n - |r| <= p < n ==> v[p] == r[n - 1 - p]
    requires forall i, j :: 0 <= i < j < |r| ==> r[i] != r[j]
    ensures v[p] != v[n - 1 - newer]
  {
  }

  function ScoresAlong(line: seq<Quorum>, n: nat, score: Quorum -> int): (v: seq<int>)
    requires n <= |line|
    ensures |v| == n && forall p :: 0 <= p < n ==> v[p] == score(line[p])
  {
    seq(n, p requires 0 <= p < n => score(line[p]))
  }

  lemma ScoresReadBack(line: seq<Quorum>, interval: int, n: nat, m: nat, r: seq<nat>)
    requires Advancing(line, interval) && m <= n <= |line| && m == |r|
    ensures var v := ScoresAlong(line, n, ScoreOf(Window(line, n, m), r));
            forall p :: n - m <= p < n ==> v[p] == r[n - 1 - p]
  {
    hide Window, ScoreOf, Advancing;
    forall p | n - m <= p < n ensures ScoreOf(Window(line, n, m), r)(line[p]) == r[n - 1 - p] {
      ScoreAt(line, interval, n, m, r, n - 1 - p);
    }
  }

  lemma PickedLeads(line: seq<Quorum>, interval: int, n: nat, pool: nat, newer: nat, r: seq<nat>)
    requires Advancing(line, interval) && newer < pool && pool + newer <= n <= |line| && |r| == pool + newer
    requires forall i, j :: 0 <= i < j < |r| ==> r[i] != r[j]
    ensures Picked(line, Lo(n, pool), n, n - 1 - newer, ScoreOf(Window(line, n, pool + newer), r))
            <==> Leads(r, Below(pool), newer)
  {
    hide Window, ScoreOf, Advancing, Leads, Below, ScoresAlong;
    var score := ScoreOf(Window(line, n, pool + newer), r);
    var v := ScoresAlong(line, n, score);
    ScoresReadBack(line, interval, n, pool + newer, r);
    LeadsBackwards(v, n, pool, newer, r);
    var k := n - 1 - newer;
    if Leads(r, Below(pool), newer) {
      forall p | k < p < n ensures score(line[k]) < score(line[p]) {
        Unequal(v, n, newer, r, p);
        assert v[p] == score(line[p]);
      }
      forall p | Lo(n, pool) <= p < k ensures score(line[k]) <= score(line[p]) {
        assert v[p] == score(line[p]);
      }
    } else {
      var p :| n - pool <= p < n && v[p] < v[k];
      assert score(line[p]) < score(line[k]);
    }
  }

  lemma RejectedMeans(
    quorums: seq<Quorum>, interval: int, pool: nat, tipAtSign: int, tipAtVerify: int, newer: nat, b: Quorum, r: seq<nat>
  )
    requires Spaced(quorums, interval) && Contested(quorums, pool, tipAtSign, newer, b)
    requires tipAtSign <= tipAtVerify && r in SignedRankings(quorums, pool, tipAtSign, newer, b)
    ensures r in RejectedRankings(quorums, interval, pool, tipAtSign, tipAtVerify, newer, b)
            <==> !Leads(r, Below(pool + newer), newer)
  {
    hide Window, Advancing, VerifierVerdict, SignerChoice, ScoreOf, Leads, Picked, Spaced, ActiveAt, Involved, Below,
        Lo;
    SignedMeans(quorums, interval, pool, tipAtSign, newer, b, r);
    var line, n := Located(quorums, interval, pool, tipAtSign, newer, b);
    var m, k := pool + newer, n - 1 - newer;
    WordsMembers(m, m, r);
    PickedLeads(line, interval, n, pool, newer, r);
    assert line[k].mined <= tipAtVerify;
    RejectedAt(quorums, interval, pool, tipAtVerify, line, k, n, ScoreOf(Window(line, n, m), r));
    LowerOutside(line, interval, n, pool, newer, r);
  }

  lemma LowerOutside(line: seq<Quorum>, interval: int, n: nat, pool: nat, newer: nat, r: seq<nat>)
    requires Advancing(line, interval) && newer < pool && pool + newer <= n <= |line| && |r| == pool + newer
    requires Leads(r, Below(pool), newer)
    ensures var k := n - 1 - newer; var score := ScoreOf(Window(line, n, pool + newer), r);
            (exists p :: Lo(k + 1, pool) <= p < Lo(n, pool) && score(line[p]) < score(line[k]))
            <==> !Leads(r, Below(pool + newer), newer)
  {
    hide Window, ScoreOf, Advancing, Leads, Below, ScoresAlong;
    var m, k := pool + newer, n - 1 - newer;
    var score := ScoreOf(Window(line, n, m), r);
    var v := ScoresAlong(line, n, score);
    ScoresReadBack(line, interval, n, m, r);
    LeadsBackwards(v, n, pool, newer, r);
    LeadsBackwards(v, n, m, newer, r);
    if p :| Lo(k + 1, pool) <= p < Lo(n, pool) && score(line[p]) < score(line[k]) {
      assert v[p] < v[k];
    }
    if p :| n - m <= p < n && v[p] < v[k] {
      assert Lo(k + 1, pool) <= p < Lo(n, pool) && score(line[p]) < score(line[k]);
    }
  }

  /**
   Over every strict ranking of the `pool + newer` quorums involved in which the
   rule signs with `b`, exactly the fraction `newer / (pool + newer)` is rejected.
   */
  lemma RejectedShare(
    quorums: seq<Quorum>, interval: int, pool: nat, tipAtSign: int, tipAtVerify: int, newer: nat, b: Quorum
  )
    requires Spaced(quorums, interval) && Contested(quorums, pool, tipAtSign, newer, b)
    requires tipAtSign <= tipAtVerify
    ensures var signed := SignedRankings(quorums, pool, tipAtSign, newer, b);
            var rejected := RejectedRankings(quorums, interval, pool, tipAtSign, tipAtVerify, newer, b);
            && |signed| > 0 && rejected <= signed
            && |rejected| * (pool + newer) == |signed| * newer
  {
    hide *;
    var m := pool + newer;
    var signed := SignedRankings(quorums, pool, tipAtSign, newer, b);
    var rejected := RejectedRankings(quorums, interval, pool, tipAtSign, tipAtVerify, newer, b);
    var accepted := LedBy(m, Below(m), newer);
    SignedCount(quorums, interval, pool, tipAtSign, newer, b);
    assert newer < pool by { NewerFits(quorums, pool, tipAtSign, newer, b); }
    OneInGroup(m, Below(pool), pool, newer);
    OneInGroup(m, Below(m), m, newer);
    RejectedSplit(quorums, interval, pool, tipAtSign, tipAtVerify, newer, b);
    Proportion(pool, newer, |signed|, |accepted|, |rejected|, |StrictRankings(m)|);
  }

  lemma NewerFits(quorums: seq<Quorum>, pool: nat, tipAtSign: int, newer: nat, b: Quorum)
    requires Contested(quorums, pool, tipAtSign, newer, b)
    ensures newer < pool
  {
  }

  lemma RejectedSplit(
    quorums: seq<Quorum>, interval: int, pool: nat, tipAtSign: int, tipAtVerify: int, newer: nat, b: Quorum
  )
    requires Spaced(quorums, interval) && Contested(quorums, pool, tipAtSign, newer, b)
    requires tipAtSign <= tipAtVerify
    ensures var signed := SignedRankings(quorums, pool, tipAtSign, newer, b);
            var accepted := LedBy(pool + newer, Below(pool + newer), newer);
            var rejected := RejectedRankings(quorums, interval, pool, tipAtSign, tipAtVerify, newer, b);
            accepted <= signed && rejected == signed - accepted && |rejected| == |signed| - |accepted|
  {
    hide VerifierVerdict, SignerChoice, ScoreOf, Involved, Spaced, Contested;
    var signed := SignedRankings(quorums, pool, tipAtSign, newer, b);
    var accepted := LedBy(pool + newer, Below(pool + newer), newer);
    var rejected := RejectedRankings(quorums, interval, pool, tipAtSign, tipAtVerify, newer, b);
    SignedCount(quorums, interval, pool, tipAtSign, newer, b);
    assert accepted <= signed;
    forall r | r in signed ensures r in rejected <==> r !in accepted {
      RejectedMeans(quorums, interval, pool, tipAtSign, tipAtVerify, newer, b, r);
    }
    assert rejected == signed - accepted;
  }

  lemma Proportion(pool: nat, newer: nat, signed: nat, accepted: nat, rejected: int, all: nat)
    requires pool * signed == all && (pool + newer) * accepted == all && rejected == signed - accepted
    ensures rejected * (pool + newer) == signed * newer
  {
    var m := pool + newer;
    assert rejected * m == signed * m - accepted * m;
    assert signed * m == signed * pool + signed * newer;
  }

  /** The three shares stated for a pool of four. */
  lemma SharesOfFour(quorums: seq<Quorum>, interval: int, tipAtSign: int, tipAtVerify: int, newer: nat, b: Quorum)
    requires Spaced(quorums, interval) && Contested(quorums, 4, tipAtSign, newer, b)
    requires tipAtSign <= tipAtVerify
    ensures var signed := |SignedRankings(quorums, 4, tipAtSign, newer, b)|;
            var rejected := |RejectedRankings(quorums, interval, 4, tipAtSign, tipAtVerify, newer, b)|;
            && (newer == 0 ==> rejected == 0)
            && (newer == 1 ==> 5 * rejected == signed)
            && (newer == 2 ==> 3 * rejected == signed)
            && (newer == 3 ==> 7 * rejected == 3 * signed)
  {
    hide SignedRankings, RejectedRankings;
    RejectedShare(quorums, interval, 4, tipAtSign, tipAtVerify, newer, b);
  }
}
