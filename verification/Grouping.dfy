/**
 Dictionaries of lists as the pipeline builds them: keys in order of first
 appearance, each with the positions that carry it.
 */
module Grouping {
  import opened Prelude

  /** Positions below `n` that carry `key`, ascending. */
  function IndicesOf<K(==)>(keys: seq<K>, key: K, n: nat): (r: seq<nat>)
    requires n <= |keys|
    ensures forall i :: 0 <= i < |r| ==> r[i] < n && keys[r[i]] == key
    ensures forall i, j :: 0 <= i < j < |r| ==> r[i] < r[j]
  {
    if n == 0 then []
    else
      var before := IndicesOf(keys, key, n - 1);
      if keys[n - 1] == key then before + [n - 1] else before
  }

  lemma {:induction false} IndicesComplete<K>(keys: seq<K>, key: K, n: nat, i: nat)
    requires n <= |keys|
    ensures i in IndicesOf(keys, key, n) <==> i < n && keys[i] == key
  {
    if n > 0 {
      IndicesComplete(keys, key, n - 1, i);
    }
  }

  /** The distinct keys among the first `n`, in order of first appearance. */
  function FirstKeys<K(==)>(keys: seq<K>, n: nat): seq<K>
    requires n <= |keys|
  {
    if n == 0 then []
    else
      var before := FirstKeys(keys, n - 1);
      if keys[n - 1] in before then before else before + [keys[n - 1]]
  }

  lemma {:induction false} FirstKeysAre<K>(keys: seq<K>, n: nat)
    requires n <= |keys|
    ensures Distinct(FirstKeys(keys, n))
    ensures forall i :: 0 <= i < n ==> keys[i] in FirstKeys(keys, n)
  {
    if n > 0 {
      FirstKeysAre(keys, n - 1);
    }
  }

  lemma {:induction false} FirstKeysOnly<K>(keys: seq<K>, n: nat, k: K)
    requires n <= |keys| && k in FirstKeys(keys, n)
    ensures exists i :: 0 <= i < n && keys[i] == k
  {
    if n > 0 && k != keys[n - 1] {
      FirstKeysOnly(keys, n - 1, k);
    }
  }

  lemma {:induction false} FirstKeysGrow<K>(keys: seq<K>, m: nat, n: nat)
    requires m <= n <= |keys|
    ensures FirstKeys(keys, m) <= FirstKeys(keys, n)
    decreases n
  {
    if m < n {
      FirstKeysGrow(keys, m, n - 1);
    }
  }

  method GroupBy<K(==)>(keys: seq<K>) returns (order: seq<K>, groups: map<K, seq<nat>>)
    ensures order == FirstKeys(keys, |keys|)
    ensures forall k :: k in groups <==> k in order
    ensures forall k :: k in groups ==> groups[k] == IndicesOf(keys, k, |keys|)
    ensures forall k :: k !in groups ==> IndicesOf(keys, k, |keys|) == []
  {
    order, groups := [], map[];
    for i := 0 to |keys|
      invariant order == FirstKeys(keys, i)
      invariant forall k :: k in groups <==> k in order
      invariant forall k :: k in groups ==> groups[k] == IndicesOf(keys, k, i)
      invariant forall k :: k !in groups ==> IndicesOf(keys, k, i) == []
    {
      var k := keys[i];
      if k !in groups {
        order, groups := order + [k], groups[k := []];
      }
      groups := groups[k := groups[k] + [i]];
    }
  }

  /** The groups' members, one group after the other. */
  function GroupOrder<K(==)>(keys: seq<K>, firsts: seq<K>): seq<nat> {
    if firsts == [] then []
    else
      GroupOrder(keys, firsts[..|firsts| - 1]) + IndicesOf(keys, firsts[|firsts| - 1], |keys|)
  }

  function Grouped<K(==)>(keys: seq<K>): seq<nat> {
    GroupOrder(keys, FirstKeys(keys, |keys|))
  }

  lemma {:induction false} GroupOrderMembers<K>(keys: seq<K>, firsts: seq<K>, i: nat)
    ensures i in GroupOrder(keys, firsts) <==> i < |keys| && keys[i] in firsts
  {
    if firsts != [] {
      var n := |firsts| - 1;
      GroupOrderMembers(keys, firsts[..n], i);
      IndicesComplete(keys, firsts[n], |keys|, i);
      assert firsts == firsts[..n] + [firsts[n]];
    }
  }

  lemma InGroupOrderAppend<K>(keys: seq<K>, before: seq<nat>, group: seq<nat>)
    requires InGroupOrder(keys, before) && InGroupOrder(keys, group)
    requires forall q, r :: 0 <= q < |before| && 0 <= r < |group| ==> keys[before[q]] != keys[group[r]]
    ensures InGroupOrder(keys, before + group)
  {
  }

  lemma {:induction false} GroupOrderKeeps<K>(keys: seq<K>, firsts: seq<K>)
    requires Distinct(firsts)
    ensures InGroupOrder(keys, GroupOrder(keys, firsts))
  {
    if firsts != [] {
      var n := |firsts| - 1;
      var before, group := GroupOrder(keys, firsts[..n]), IndicesOf(keys, firsts[n], |keys|);
      GroupOrderKeeps(keys, firsts[..n]);
      forall q, r | 0 <= q < |before| && 0 <= r < |group| ensures keys[before[q]] != keys[group[r]] {
        GroupOrderMembers(keys, firsts[..n], before[q]);
      }
      InGroupOrderAppend(keys, before, group);
    }
  }

  /** Grouping reorders the items but keeps every group in order. */
  lemma GroupedKeepsGroups<K>(keys: seq<K>)
    ensures KeepsGroups(keys, Grouped(keys))
  {
    var firsts := FirstKeys(keys, |keys|);
    FirstKeysAre(keys, |keys|);
    GroupOrderKeeps(keys, firsts);
    forall i | 0 <= i < |keys| ensures i in Grouped(keys) {
      assert keys[i] in firsts;
      GroupOrderMembers(keys, firsts, i);
    }
  }

  /** `order` lists every left item once and keeps each group in order. */
  ghost predicate KeepsGroups<K>(keys: seq<K>, order: seq<nat>) {
    && (forall q :: 0 <= q < |order| ==> order[q] < |keys|)
    && (forall i :: 0 <= i < |keys| ==> i in order)
    && InGroupOrder(keys, order)
  }

  /** Members of a group appear in ascending order, so no item appears twice. */
  ghost predicate InGroupOrder<K>(keys: seq<K>, order: seq<nat>) {
    && (forall q :: 0 <= q < |order| ==> order[q] < |keys|)
    && forall q, r :: 0 <= q < r < |order| && keys[order[q]] == keys[order[r]] ==> order[q] < order[r]
  }

  /** Such an order is a permutation. */
  lemma KeepsGroupsLength<K>(keys: seq<K>, order: seq<nat>)
    requires KeepsGroups(keys, order)
    ensures Distinct(order) && |order| == |keys|
  {
    assert Distinct(order);
    DistinctSize(order);
    forall i: nat ensures i in Elems(order) <==> i in UpTo(|keys|) {
      if i in order {
        var q :| 0 <= q < |order| && order[q] == i;
      }
    }
    assert Elems(order) == UpTo(|keys|);
  }
}
