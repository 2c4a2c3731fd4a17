/**
 The greedy assignment that both cross-source matchers run: each left item, in
 turn, takes the best-scoring unused right item of its own group, the first one
 on a tie. Stated over all right items first; the grouped loop refines it.
 */
module Greedy {
  import opened Prelude
  import opened Grouping

  /** Group keys of both sides and the score of a pair of indices. */
  datatype Problem<!K(==)> = Problem(left: seq<K>, right: seq<K>, score: (nat, nat) -> int)

  predicate Eligible<K(==)>(p: Problem<K>, i: nat, j: nat, used: set<nat>)
    requires i < |p.left|
  {
    j < |p.right| && p.right[j] == p.left[i] && j !in used && p.score(i, j) > 0
  }

  function Better<K(==)>(p: Problem<K>, i: nat, used: set<nat>, best: Option<nat>, j: nat): Option<nat>
    requires i < |p.left|
  {
    if Eligible(p, i, j, used) && (best.None? || p.score(i, j) > p.score(i, best.value)) then Some(j) else best
  }

  /** The best right item below `n` by a plain scan of them all. */
  function Best<K(==)>(p: Problem<K>, i: nat, used: set<nat>, n: nat): (b: Option<nat>)
    requires i < |p.left| && n <= |p.right|
    ensures b.Some? ==> b.value < n && Eligible(p, i, b.value, used)
  {
    if n == 0 then None else Better(p, i, used, Best(p, i, used, n - 1), n - 1)
  }

  function Taken(choices: seq<Option<nat>>): set<nat> {
    set i | 0 <= i < |choices| && choices[i].Some? :: choices[i].value
  }

  /** The plain quadratic loop: the choices of the first `k` left items. */
  function Choices<K(==)>(p: Problem<K>, k: nat): (cs: seq<Option<nat>>)
    requires k <= |p.left|
    ensures |cs| == k
  {
    if k == 0 then []
    else
      var before := Choices(p, k - 1);
      before + [Best(p, k - 1, Taken(before), |p.right|)]
  }

  function AllChoices<K(==)>(p: Problem<K>): (cs: seq<Option<nat>>)
    ensures |cs| == |p.left|
  {
    Choices(p, |p.left|)
  }

  // ----- what the plain loop achieves -----

  lemma {:induction false} ChoicesPrefix<K>(p: Problem<K>, i: nat, k: nat)
    requires i <= k <= |p.left|
    ensures Choices(p, k)[..i] == Choices(p, i)
    decreases k
  {
    if i < k {
      ChoicesPrefix(p, i, k - 1);
      assert Choices(p, k)[..i] == Choices(p, k - 1)[..i];
    } else {
      assert Choices(p, k)[..i] == Choices(p, k);
    }
  }

  lemma ChoiceAt<K>(p: Problem<K>, i: nat)
    requires i < |p.left|
    ensures AllChoices(p)[i] == Best(p, i, Taken(AllChoices(p)[..i]), |p.right|)
  {
    ChoicesPrefix(p, i, |p.left|);
    ChoicesPrefix(p, i + 1, |p.left|);
    assert AllChoices(p)[..i + 1][i] == AllChoices(p)[i];
  }

  /** The scan finds an eligible item if there is one, none scores higher, and
      none that ties comes earlier. */
  lemma {:induction false} BestIsBest<K>(p: Problem<K>, i: nat, used: set<nat>, n: nat, j: nat)
    requires i < |p.left| && j < n <= |p.right| && Eligible(p, i, j, used)
    ensures var b := Best(p, i, used, n);
            b.Some? && p.score(i, j) <= p.score(i, b.value)
            && (p.score(i, j) == p.score(i, b.value) ==> b.value <= j)
    decreases n
  {
    if j < n - 1 {
      BestIsBest(p, i, used, n - 1, j);
    }
  }

  /** Every right item is used at most once and only inside its group. */
  lemma ChoicesAreMatching<K>(p: Problem<K>)
    ensures forall i :: 0 <= i < |p.left| && AllChoices(p)[i].Some? ==>
      var j := AllChoices(p)[i].value;
      j < |p.right| && p.right[j] == p.left[i] && p.score(i, j) > 0
    ensures forall h, i :: 0 <= h < i < |p.left| && AllChoices(p)[h].Some? ==> AllChoices(p)[h] != AllChoices(p)[i]
  {
    var cs := AllChoices(p);
    forall i | 0 <= i < |p.left| && cs[i].Some?
      ensures var j := cs[i].value; j < |p.right| && p.right[j] == p.left[i] && p.score(i, j) > 0
    {
      ChoiceAt(p, i);
    }
    forall h, i | 0 <= h < i < |p.left| && cs[h].Some? ensures cs[h] != cs[i] {
      ChoiceAt(p, i);
      assert cs[..i][h] == cs[h];
      assert cs[h].value in Taken(cs[..i]);
    }
  }

  lemma TakenGrows(cs: seq<Option<nat>>, i: nat)
    requires i <= |cs|
    ensures Taken(cs[..i]) <= Taken(cs)
  {
  }

  /** Nothing left over could still be paired. */
  lemma ChoicesAreMaximal<K>(p: Problem<K>, i: nat, j: nat)
    requires i < |p.left| && j < |p.right| && p.right[j] == p.left[i]
    requires AllChoices(p)[i].None? && j !in Taken(AllChoices(p))
    ensures p.score(i, j) <= 0
  {
    var cs := AllChoices(p);
    ChoiceAt(p, i);
    TakenGrows(cs, i);
    if p.score(i, j) > 0 {
      BestIsBest(p, i, Taken(cs[..i]), |p.right|, j);
    }
  }

  /** Each left item gets the best of what the earlier ones left it. */
  lemma ChoicesAreGreedy<K>(p: Problem<K>, i: nat, j: nat)
    requires i < |p.left| && Eligible(p, i, j, Taken(AllChoices(p)[..i]))
    ensures var c := AllChoices(p)[i];
            c.Some? && p.score(i, j) <= p.score(i, c.value)
            && (p.score(i, j) == p.score(i, c.value) ==> c.value <= j)
  {
    ChoiceAt(p, i);
    BestIsBest(p, i, Taken(AllChoices(p)[..i]), |p.right|, j);
  }

  // ----- only the groups and the scores matter -----

  ghost predicate SameScores<K>(p: Problem<K>, r: Problem<K>) {
    && p.left == r.left && p.right == r.right
    && forall i: nat, j: nat :: i < |p.left| && j < |p.right| ==> p.score(i, j) == r.score(i, j)
  }

  lemma {:induction false} BestAlike<K>(p: Problem<K>, r: Problem<K>, i: nat, used: set<nat>, n: nat)
    requires SameScores(p, r) && i < |p.left| && n <= |p.right|
    ensures Best(p, i, used, n) == Best(r, i, used, n)
  {
    if n > 0 {
      BestAlike(p, r, i, used, n - 1);
    }
  }

  lemma {:induction false} ChoicesAlike<K>(p: Problem<K>, r: Problem<K>, k: nat)
    requires SameScores(p, r) && k <= |p.left|
    ensures Choices(p, k) == Choices(r, k)
  {
    if k > 0 {
      ChoicesAlike(p, r, k - 1);
      BestAlike(p, r, k - 1, Taken(Choices(p, k - 1)), |p.right|);
    }
  }

  // ----- only one's own group matters -----

  ghost predicate SameInGroup<K>(p: Problem<K>, key: K, used: set<nat>, used': set<nat>) {
    forall j :: 0 <= j < |p.right| && p.right[j] == key ==> (j in used <==> j in used')
  }

  lemma {:induction false} BestIsLocal<K>(p: Problem<K>, i: nat, used: set<nat>, used': set<nat>, n: nat)
    requires i < |p.left| && n <= |p.right| && SameInGroup(p, p.left[i], used, used')
    ensures Best(p, i, used, n) == Best(p, i, used', n)
  {
    if n > 0 {
      BestIsLocal(p, i, used, used', n - 1);
    }
  }

  /** The same scan over just the indices of a group. */
  function BestOf<K(==)>(p: Problem<K>, i: nat, used: set<nat>, candidates: seq<nat>): (b: Option<nat>)
    requires i < |p.left|
  {
    if candidates == [] then None
    else
      var n := |candidates| - 1;
      Better(p, i, used, BestOf(p, i, used, candidates[..n]), candidates[n])
  }

  lemma BestOfSnoc<K>(p: Problem<K>, i: nat, used: set<nat>, before: seq<nat>, j: nat)
    requires i < |p.left|
    ensures BestOf(p, i, used, before + [j]) == Better(p, i, used, BestOf(p, i, used, before), j)
  {
    assert (before + [j])[..|before|] == before;
  }

  lemma {:induction false} GroupScan<K>(p: Problem<K>, i: nat, used: set<nat>, n: nat)
    requires i < |p.left| && n <= |p.right|
    ensures BestOf(p, i, used, IndicesOf(p.right, p.left[i], n)) == Best(p, i, used, n)
  {
    if n > 0 {
      GroupScan(p, i, used, n - 1);
      var before := IndicesOf(p.right, p.left[i], n - 1);
      BestOfSnoc(p, i, used, before, n - 1);
    }
  }

  // ----- the order of the left items only matters inside a group -----

  function Reordered<K(==)>(p: Problem<K>, order: seq<nat>): Problem<K>
    requires forall q :: 0 <= q < |order| ==> order[q] < |p.left|
  {
    Problem(seq(|order|, q requires 0 <= q < |order| => p.left[order[q]]), p.right,
            (q: nat, j: nat) => if q < |order| then p.score(order[q], j) else 0)
  }

  lemma {:induction false} BestReordered<K>(p: Problem<K>, order: seq<nat>, q: nat, used: set<nat>, n: nat)
    requires forall q :: 0 <= q < |order| ==> order[q] < |p.left|
    requires q < |order| && n <= |p.right|
    ensures Best(Reordered(p, order), q, used, n) == Best(p, order[q], used, n)
  {
    if n > 0 {
      BestReordered(p, order, q, used, n - 1);
    }
  }

  /** Taking the left items in another order that keeps every group in order
      gives every item the same partner. */
  lemma {:induction false} OrderIrrelevant<K>(p: Problem<K>, order: seq<nat>, q: nat)
    requires KeepsGroups(p.left, order) && q < |order|
    ensures AllChoices(Reordered(p, order))[q] == AllChoices(p)[order[q]]
    decreases q
  {
    var p', cs := Reordered(p, order), AllChoices(p);
    var cs' := AllChoices(p');
    var i := order[q];
    var mine, theirs := Taken(cs'[..q]), Taken(cs[..i]);
    forall j | 0 <= j < |p.right| && p.right[j] == p.left[i] ensures j in mine <==> j in theirs {
      if j in mine {
        var r :| 0 <= r < q && cs'[..q][r] == Some(j);
        OrderIrrelevant(p, order, r);
        ChoiceAt(p, order[r]);
        assert order[r] < i;
        assert cs[..i][order[r]] == Some(j);
      }
      if j in theirs {
        var h :| 0 <= h < i && cs[..i][h] == Some(j);
        ChoiceAt(p, h);
        assert h in order;
        var r :| 0 <= r < |order| && order[r] == h;
        assert r < q;
        OrderIrrelevant(p, order, r);
        assert cs'[..q][r] == Some(j);
      }
    }
    ChoiceAt(p, i);
    ChoiceAt(p', q);
    BestReordered(p, order, q, mine, |p.right|);
    BestIsLocal(p, i, mine, theirs, |p.right|);
  }
}
