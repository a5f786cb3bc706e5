/**
 Which verdict a commitment gives which masternode, read off the list's hashes as
 displayed and the commitment's own numbers.
 */
module ReplayVerdicts {
  import opened Wrappers
  import opened Sorting
  import opened ByteStrings
  import opened Replay
  import opened ReplayMembers

  /** A list of different hashes of one length. */
  ghost predicate HashList(mnList: seq<Hash>) {
    Distinct(mnList) && forall p, q :: p in mnList && q in mnList ==> |p| == |q|
  }

  ghost function Under(mnList: seq<Hash>, p: Hash): set<Hash> { set q | q in mnList && Below(q, p) }

  /** A member's place in the commitment: how many of the list are below it, the last byte displayed deciding first. */
  ghost function Place(mnList: seq<Hash>, p: Hash): nat { |Under(mnList, p)| }

  lemma OrderIsBelow(mnList: seq<Hash>, i: nat, j: nat)
    requires HashList(mnList) && i < |CanonicalOrder(mnList)| && j < |CanonicalOrder(mnList)|
    ensures Below(CanonicalOrder(mnList)[i], CanonicalOrder(mnList)[j]) <==> i < j
  {
    var order := CanonicalOrder(mnList);
    ProperOrder(mnList);
    InternalOrderSound();
    SortSorts(mnList, InternalOrder);
    assert order[i] in mnList && order[j] in mnList;
    if i < j {
      InternalOrderIff(order[i], order[j]);
    } else if j < i {
      InternalOrderIff(order[j], order[i]);
      BelowOneWay(order[j], order[i]);
    }
  }

  lemma {:induction false} FirstSize<T>(s: seq<T>, n: nat)
    requires Distinct(s) && n <= |s|
    ensures |set i | 0 <= i < n :: s[i]| == n
  {
    if n > 0 {
      FirstSize(s, n - 1);
      assert (set i | 0 <= i < n :: s[i]) == (set i | 0 <= i < n - 1 :: s[i]) + {s[n - 1]};
    }
  }

  /** Index `i` of a commitment names the member with exactly `i` members of its list below it. */
  lemma IndexNames(mnList: seq<Hash>, i: nat)
    requires HashList(mnList) && i < |mnList|
    ensures |CanonicalOrder(mnList)| == |mnList| && CanonicalOrder(mnList)[i] in mnList
    ensures Place(mnList, CanonicalOrder(mnList)[i]) == i
  {
    hide CanonicalOrder, Below;
    ListedOnce(mnList);
    var order := CanonicalOrder(mnList);
    forall q ensures q in Under(mnList, order[i]) <==> q in set k | 0 <= k < i :: order[k] {
      if q in mnList {
        var j :| 0 <= j < |order| && order[j] == q;
        OrderIsBelow(mnList, j, i);
      }
    }
    FirstSize(order, i);
    assert Under(mnList, order[i]) == set k | 0 <= k < i :: order[k];
  }

  lemma ListedOnce(mnList: seq<Hash>)
    requires Distinct(mnList)
    ensures Distinct(CanonicalOrder(mnList)) && |CanonicalOrder(mnList)| == |mnList|
    ensures forall p :: p in CanonicalOrder(mnList) <==> p in mnList
  {
    ProperOrder(mnList);
    SortPermutes(mnList, InternalOrder);
  }

  /** So the members a list of indices names are those whose places it holds. */
  lemma NamedAtPlace(mnList: seq<Hash>, listed: seq<nat>, p: Hash)
    requires HashList(mnList) && p in mnList
    ensures p in Resolve(CanonicalOrder(mnList), Indices(listed)) <==> Place(mnList, p) in listed
  {
    hide CanonicalOrder, Place, HashList;
    assert HashList(mnList) ==> Distinct(mnList) by { HashesDiffer(mnList); }
    ListedOnce(mnList);
    var order := CanonicalOrder(mnList);
    var i :| 0 <= i < |order| && order[i] == p;
    IndexNames(mnList, i);
    if Place(mnList, p) in listed {
      assert i in Indices(listed);
    }
    if p in Resolve(order, Indices(listed)) {
      var k :| k in Indices(listed) && k < |order| && order[k] == p;
      assert k == i;
    }
  }

  lemma HashesDiffer(mnList: seq<Hash>)
    ensures HashList(mnList) ==> Distinct(mnList)
  {
  }

  ghost predicate HashLists(bases: map<int, BaseList>) { forall k :: k in bases ==> HashList(bases[k].mnList) }

  /** The list at the epoch's boundary block is at hand, and the member is no longer on it. */
  ghost predicate Gone(bases: map<int, BaseList>, row: Row, p: Hash) {
    && row.epoch + 1 in bases && p !in bases[row.epoch + 1].mnList
    && (bases[row.epoch + 1].base == None || bases[row.epoch + 1].base == Some(row.boundaryHeight))
  }

  /** The epoch counts for the member: committed over a list of its size, with the member on it and not gone since. */
  ghost predicate Counted(bases: map<int, BaseList>, row: Row, p: Hash) {
    && row.status == "committed" && row.epoch in bases
    && p in bases[row.epoch].mnList && row.listSize == |bases[row.epoch].mnList| && !Gone(bases, row, p)
  }

  /** The guard is off: the missed indices are less than the guard's share of the list. */
  ghost predicate Unguarded(rules: Rules, row: Row) {
    |set i | i in row.missedIndices| * 100 < row.listSize * rules.massPct
  }

  /**
   The verdict on a member: missed where its place is among the missed, online where it is not, and neither
   under the guard, where it is held as unobserved, or where the epoch does not count for it.
   */
  lemma VerdictWhen(rules: Rules, e: Enforcement, bases: map<int, BaseList>, row: Row, p: Hash)
    requires HashLists(bases)
    ensures var verdict := SignalOf(rules, e, bases, row, p);
            var speaks := Counted(bases, row, p) && Unguarded(rules, row)
                && !(rules.holdUnobserved && Place(bases[row.epoch].mnList, p) in row.unobservedIndices);
            && (verdict.SeenMissed? <==> speaks && Place(bases[row.epoch].mnList, p) in row.missedIndices)
            && (verdict.SeenOnline? <==> speaks && Place(bases[row.epoch].mnList, p) !in row.missedIndices)
            && (speaks ==>
                  verdict.epoch == row.epoch && verdict.height == row.boundaryHeight
                  && (verdict.enforced <==> (e.fromEpoch.Some? && row.epoch >= e.fromEpoch.value)
                                            || (e.fromHeight.Some? && row.boundaryHeight >= e.fromHeight.value)))
  {
    if row.status == "committed" && row.epoch in bases && p in bases[row.epoch].mnList {
      hide CanonicalOrder, Place, Resolve, Below;
      var mnList := bases[row.epoch].mnList;
      ListedOnce(mnList);
      NamedAtPlace(mnList, row.missedIndices, p);
      NamedAtPlace(mnList, row.unobservedIndices, p);
      assert Indices(row.missedIndices) == set i | i in row.missedIndices;
    }
  }

  /** Whichever way they are listed, 0201 is named before 0102. */
  lemma LastByteFirst()
    ensures CanonicalOrder([[2, 1], [1, 2]]) == [[2, 1], [1, 2]] && CanonicalOrder([[1, 2], [2, 1]]) == [[2, 1], [1, 2]]
  {
    var a: Hash, b: Hash := [2, 1], [1, 2];
    assert a[0 + 1] < b[0 + 1] && a[1 + 1..] == b[1 + 1..];
    assert Below(a, b);
    BelowOneWay(a, b);
    InternalOrderIff(a, b);
    InternalOrderIff(b, a);
    assert [a, b][1..] == [b] && [b, a][1..] == [a];
  }
}
