/**
 Counting strict rankings without factorials: exchanging two contenders is a
 bijection, so each member of a group is its lowest in equally many rankings.
 */
module Rankings {

  function Words(n: nat, m: nat): set<seq<nat>> {
    if n == 0 then {[]} else set w, x | w in Words(n - 1, m) && x in Below(m) :: w + [x]
  }

  function Below(m: nat): (s: set<nat>)
    ensures forall x: nat :: x in s <==> x < m
    ensures |s| == m
  {
    if m == 0 then {} else Below(m - 1) + {m - 1}
  }

  /** Every strict ranking of `n` contenders: contender `i` has rank `r[i]`. */
  function StrictRankings(n: nat): set<seq<nat>> {
    set r | r in Words(n, n) && forall i, j :: 0 <= i < j < |r| ==> r[i] != r[j]
  }

  /** The rankings in which `b` is the lowest of `group`. */
  function LedBy(n: nat, group: set<nat>, b: nat): set<seq<nat>> {
    set r | r in StrictRankings(n) && Leads(r, group, b)
  }

  predicate Leads(r: seq<nat>, group: set<nat>, b: nat) {
    b < |r| && forall p :: p in group && p < |r| ==> r[b] <= r[p]
  }

  function Exchange(r: seq<nat>, i: nat, j: nat): seq<nat> {
    if i < |r| && j < |r| then r[i := r[j]][j := r[i]] else r
  }

  lemma {:induction false} WordsMembers(n: nat, m: nat, w: seq<nat>)
    ensures w in Words(n, m) <==> |w| == n && forall i :: 0 <= i < |w| ==> w[i] < m
  {
    if n > 0 {
      if w in Words(n, m) {
        var v, x :| v in Words(n - 1, m) && x in Below(m) && w == v + [x];
        WordsMembers(n - 1, m, v);
      }
      if |w| == n && forall i :: 0 <= i < |w| ==> w[i] < m {
        WordsMembers(n - 1, m, w[..n - 1]);
        assert w == w[..n - 1] + [w[n - 1]];
        assert w[n - 1] in Below(m);
      }
    }
  }

  lemma {:induction false} ImageFits<T(!new), U(!new)>(a: set<T>, b: set<U>, f: T -> U)
    requires forall x :: x in a ==> f(x) in b
    requires forall x, y :: x in a && y in a && f(x) == f(y) ==> x == y
    ensures |a| <= |b|
  {
    if a != {} {
      var x :| x in a;
      ImageFits(a - {x}, b - {f(x)}, f);
    }
  }

  lemma ExchangeKeeps(n: nat, group: set<nat>, i: nat, b: nat, r: seq<nat>)
    requires i in group && b in group && b < n && r in LedBy(n, group, i)
    ensures Exchange(r, i, b) in LedBy(n, group, b)
    ensures Exchange(Exchange(r, i, b), i, b) == r
  {
    var s := Exchange(r, i, b);
    WordsMembers(n, n, r);
    WordsMembers(n, n, s);
  }

  lemma NoOftener(n: nat, group: set<nat>, i: nat, b: nat)
    requires i in group && b in group && b < n
    ensures |LedBy(n, group, i)| <= |LedBy(n, group, b)|
  {
    hide Exchange, LedBy;
    forall r | r in LedBy(n, group, i)
      ensures Exchange(r, i, b) in LedBy(n, group, b) && Exchange(Exchange(r, i, b), i, b) == r
    {
      ExchangeKeeps(n, group, i, b, r);
    }
    ImageFits(LedBy(n, group, i), LedBy(n, group, b), r => Exchange(r, i, b));
  }

  /** Exchanging `i` and `b` turns the rankings `i` leads into those `b` leads, and back. */
  lemma EquallyOften(n: nat, group: set<nat>, i: nat, b: nat)
    requires i in group && b in group && i < n && b < n
    ensures |LedBy(n, group, i)| == |LedBy(n, group, b)|
  {
    NoOftener(n, group, i, b);
    NoOftener(n, group, b, i);
  }

  ghost function LedBySome(n: nat, group: set<nat>, leaders: set<nat>): set<seq<nat>> {
    set r | r in StrictRankings(n) && exists i :: i in leaders && Leads(r, group, i)
  }

  lemma LedBySomeAdd(n: nat, group: set<nat>, leaders: set<nat>, i: nat)
    requires leaders <= group && i in group && i !in leaders && forall i :: i in group ==> i < n
    ensures |LedBySome(n, group, leaders + {i})| == |LedBySome(n, group, leaders)| + |LedBy(n, group, i)|
  {
    assert LedBySome(n, group, leaders + {i}) == LedBySome(n, group, leaders) + LedBy(n, group, i);
    forall r | r in LedBy(n, group, i) ensures r !in LedBySome(n, group, leaders) {
      WordsMembers(n, n, r);
      assert forall j :: j in leaders && Leads(r, group, j) ==> r[j] <= r[i] <= r[j] && j != i;
    }
    assert LedBySome(n, group, leaders) !! LedBy(n, group, i);
  }

  lemma {:induction false} LeadersAdd(n: nat, group: set<nat>, leaders: set<nat>, b: nat)
    requires leaders <= group && b in group && forall i :: i in group ==> i < n
    ensures |LedBySome(n, group, leaders)| == |leaders| * |LedBy(n, group, b)|
  {
    hide LedBy;
    if leaders == {} {
      assert LedBySome(n, group, leaders) == {};
    } else {
      var i :| i in leaders;
      var rest := leaders - {i};
      LeadersAdd(n, group, rest, b);
      EquallyOften(n, group, i, b);
      LedBySomeAdd(n, group, rest, i);
      assert rest + {i} == leaders;
      OneMore(|rest|, |LedBy(n, group, b)|);
    }
  }

  lemma OneMore(a: nat, x: nat)
    ensures (a + 1) * x == a * x + x
  {
  }

  lemma {:induction false} SomeoneLeads(r: seq<nat>, group: set<nat>)
    requires group != {} && forall i :: i in group ==> i < |r|
    ensures exists i :: i in group && Leads(r, group, i)
  {
    var x :| x in group;
    var rest := group - {x};
    if rest == {} {
      assert group == {x};
      assert Leads(r, group, x);
    } else {
      SomeoneLeads(r, rest);
      var i :| i in rest && Leads(r, rest, i);
      var low := if r[x] < r[i] then x else i;
      assert Leads(r, group, low);
    }
  }

  lemma SomeRanking(n: nat)
    ensures StrictRankings(n) != {}
  {
    var r := seq(n, i requires 0 <= i < n => i);
    WordsMembers(n, n, r);
    assert r in StrictRankings(n);
  }

  lemma Factor(a: nat, x: nat)
    ensures a * x > 0 ==> x > 0
  {
  }

  /** Of all rankings, exactly one in the group's size has a given member as the group's lowest. */
  lemma OneInGroup(n: nat, group: set<nat>, size: nat, b: nat)
    requires b in group && |group| == size && forall i :: i in group ==> i < n
    ensures size * |LedBy(n, group, b)| == |StrictRankings(n)|
    ensures |LedBy(n, group, b)| > 0
  {
    LeadersAdd(n, group, group, b);
    forall r | r in StrictRankings(n) ensures r in LedBySome(n, group, group) {
      WordsMembers(n, n, r);
      SomeoneLeads(r, group);
    }
    assert LedBySome(n, group, group) == StrictRankings(n);
    SomeRanking(n);
    Factor(size, |LedBy(n, group, b)|);
  }
}
