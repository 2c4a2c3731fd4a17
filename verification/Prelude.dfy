/** Shared datatypes, and the sequence facts and folds several modules need. */
module Prelude {

  /** A value, or the exception the source raises in its place. */
  datatype Option<+T> = None | Some(value: T)

  lemma Assoc<T>(a: seq<T>, b: seq<T>, c: seq<T>)
    ensures a + (b + c) == (a + b) + c
  {
  }

  lemma PrefixSnoc<T>(s: seq<T>, n: nat)
    requires n < |s|
    ensures s[..n + 1] == s[..n] + [s[n]]
  {
  }

  /** The concatenation of a sequence of sequences. */
  function Flatten<T>(ss: seq<seq<T>>): seq<T> {
    if ss == [] then [] else ss[0] + Flatten(ss[1..])
  }

  lemma {:induction false} FlattenSnoc<T>(ss: seq<seq<T>>, s: seq<T>)
    ensures Flatten(ss + [s]) == Flatten(ss) + s
  {
    if ss == [] {
      assert [s][1..] == [];
    } else {
      assert (ss + [s])[1..] == ss[1..] + [s];
      FlattenSnoc(ss[1..], s);
    }
  }

  /** What `f` gives for each number from `from` on and below `n`. */
  function Gather<T>(f: nat -> seq<T>, from: nat, n: nat): seq<T> {
    if n <= from then [] else Gather(f, from, n - 1) + f(n - 1)
  }

  lemma {:induction false} GatherAlike<T>(f: nat -> seq<T>, g: nat -> seq<T>, from: nat, n: nat)
    requires forall i: nat :: i < n ==> f(i) == g(i)
    ensures Gather(f, from, n) == Gather(g, from, n)
  {
    if n > from {
      GatherAlike(f, g, from, n - 1);
    }
  }

  lemma InEither<T>(s: seq<T>, t: seq<T>, x: T)
    ensures x in s + t <==> x in s || x in t
  {
  }

  lemma {:induction false} GatherMember<T>(f: nat -> seq<T>, from: nat, n: nat, x: T)
    ensures x in Gather(f, from, n) <==> exists i: nat :: from <= i < n && x in f(i)
  {
    if n > from {
      var before, last := Gather(f, from, n - 1), f(n - 1);
      GatherMember(f, from, n - 1, x);
      InEither(before, last, x);
      assert Gather(f, from, n) == before + last;
      if x in last {
        var i: nat := n - 1;
        assert from <= i < n && x in f(i);
      }
    }
  }

  /** What `f` gives for each element, one after the other. */
  function FlatMap<A, B>(f: A -> seq<B>, xs: seq<A>): seq<B> {
    if xs == [] then [] else FlatMap(f, xs[..|xs| - 1]) + f(xs[|xs| - 1])
  }

  lemma FlatMapSnoc<A, B>(f: A -> seq<B>, xs: seq<A>, i: nat)
    requires i < |xs|
    ensures FlatMap(f, xs[..i + 1]) == FlatMap(f, xs[..i]) + f(xs[i])
  {
    assert xs[..i + 1][..i] == xs[..i];
  }

  lemma FlatMapOne<A, B>(f: A -> seq<B>, x: A)
    ensures FlatMap(f, [x]) == f(x)
  {
    assert [x][..0] == [] && [] + f(x) == f(x);
  }

  lemma {:induction false} FlatMapMember<A, B>(f: A -> seq<B>, xs: seq<A>, y: B)
    ensures y in FlatMap(f, xs) <==> exists x :: x in xs && y in f(x)
  {
    if xs != [] {
      var before, last := xs[..|xs| - 1], xs[|xs| - 1];
      FlatMapMember(f, before, y);
      InEither(FlatMap(f, before), f(last), y);
      assert forall x :: x in xs <==> x in before || x == last;
    }
  }

  lemma DistinctAppend<T>(s: seq<T>, t: seq<T>)
    requires Distinct(s) && Distinct(t) && forall x :: x in s ==> x !in t
    ensures Distinct(s + t)
  {
    forall i, j | 0 <= i < j < |s + t| ensures (s + t)[i] != (s + t)[j] {
      assert i < |s| ==> s[i] in s;
      assert j >= |s| ==> t[j - |s|] in t;
    }
  }

  /** Distinct lists that share nothing, put together. */
  lemma {:induction false} FlatMapDistinct<A, B>(f: A -> seq<B>, xs: seq<A>)
    requires Distinct(xs) && forall x :: x in xs ==> Distinct(f(x))
    requires forall x, x', y :: x in xs && x' in xs && y in f(x) && y in f(x') ==> x == x'
    ensures Distinct(FlatMap(f, xs))
  {
    if xs != [] {
      var before, last := xs[..|xs| - 1], xs[|xs| - 1];
      assert forall x :: x in before ==> x in xs && x != last;
      FlatMapDistinct(f, before);
      forall y | y in FlatMap(f, before) ensures y !in f(last) {
        FlatMapMember(f, before, y);
      }
      DistinctAppend(FlatMap(f, before), f(last));
    }
  }

  function Fold<S, T>(step: (S, T) -> S, start: S, xs: seq<T>): S {
    if xs == [] then start else step(Fold(step, start, xs[..|xs| - 1]), xs[|xs| - 1])
  }

  lemma FoldSnoc<S, T>(step: (S, T) -> S, start: S, xs: seq<T>, x: T)
    ensures Fold(step, start, xs + [x]) == step(Fold(step, start, xs), x)
  {
    assert (xs + [x])[..|xs|] == xs;
  }

  /** One step keeps what holds of the state and the elements taken so far. */
  ghost predicate StepKeeps<S(!new), T(!new)>(inv: (S, seq<T>) -> bool, step: (S, T) -> S) {
    forall st, before, x :: inv(st, before) ==> inv(step(st, x), before + [x])
  }

  lemma {:induction false} FoldKeeps<S(!new), T(!new)>(inv: (S, seq<T>) -> bool, step: (S, T) -> S, start: S, xs: seq<T>)
    requires inv(start, []) && StepKeeps(inv, step)
    ensures inv(Fold(step, start, xs), xs)
  {
    if xs != [] {
      var n := |xs| - 1;
      FoldKeeps(inv, step, start, xs[..n]);
      assert xs == xs[..n] + [xs[n]];
      assert inv(step(Fold(step, start, xs[..n]), xs[n]), xs[..n] + [xs[n]]);
    }
  }

  /** `k` steps, each told its number. */
  function Steps<S>(step: (S, nat) -> S, start: S, k: nat): S {
    if k == 0 then start else step(Steps(step, start, k - 1), k - 1)
  }

  lemma {:induction false} StepsKeep<S(!new)>(inv: (S, nat) -> bool, step: (S, nat) -> S, start: S, k: nat)
    requires inv(start, 0)
    requires forall x, i: nat :: i < k && inv(x, i) ==> inv(step(x, i), i + 1)
    ensures inv(Steps(step, start, k), k)
  {
    if k > 0 {
      StepsKeep(inv, step, start, k - 1);
      assert inv(step(Steps(step, start, k - 1), k - 1), k);
    }
  }

  /** What each state of a series hands on to the next holds from there on. */
  lemma {:induction false} AlongSeries<S>(inv: (S, nat) -> bool, states: seq<S>, k: nat, n: nat)
    requires k <= n < |states| && inv(states[k], k)
    requires forall i: nat :: k <= i < n && inv(states[i], i) ==> inv(states[i + 1], i + 1)
    ensures inv(states[n], n)
    decreases n
  {
    if k < n {
      AlongSeries(inv, states, k, n - 1);
    }
  }

  /** How many numbers from `from` on and below `n` have the property. */
  function CountIn(p: nat -> bool, from: nat, n: nat): nat {
    if n <= from then 0 else CountIn(p, from, n - 1) + if p(n - 1) then 1 else 0
  }

  predicate CountStep<S>(inv: (S, nat) -> bool, p: nat -> bool, states: seq<S>, i: nat, c: nat)
    requires i + 1 < |states|
  {
    inv(states[i], c) ==> inv(states[i + 1], c + if p(i) then 1 else 0)
  }

  /** A series whose states depend on how often something happened on the way. */
  lemma {:induction false} CountedSeries<S>(inv: (S, nat) -> bool, p: nat -> bool, states: seq<S>, from: nat, n: nat)
    requires from <= n < |states| && inv(states[from], 0)
    requires forall i: nat, c: nat :: from <= i < n ==> CountStep(inv, p, states, i, c)
    ensures inv(states[n], CountIn(p, from, n))
    decreases n
  {
    if from < n {
      CountedSeries(inv, p, states, from, n - 1);
      assert CountStep(inv, p, states, n - 1, CountIn(p, from, n - 1));
    }
  }

  lemma {:induction false} StepsAlike<S(!new)>(f: (S, nat) -> S, g: (S, nat) -> S, start: S, k: nat)
    requires forall x, i: nat :: i < k ==> f(x, i) == g(x, i)
    ensures Steps(f, start, k) == Steps(g, start, k)
  {
    if k > 0 {
      StepsAlike(f, g, start, k - 1);
    }
  }

  ghost predicate Distinct<T>(s: seq<T>) {
    forall i, j :: 0 <= i < j < |s| ==> s[i] != s[j]
  }

  /** Two sequences related element by element. */
  ghost predicate AllPairs<A, B>(p: (A, B) -> bool, xs: seq<A>, ys: seq<B>) {
    |xs| == |ys| && forall i :: 0 <= i < |xs| ==> p(xs[i], ys[i])
  }

  lemma AllPairsCons<A, B>(p: (A, B) -> bool, x: A, y: B, xs: seq<A>, ys: seq<B>)
    requires p(x, y) && AllPairs(p, xs, ys)
    ensures AllPairs(p, [x] + xs, [y] + ys)
  {
  }

  lemma AllPairsAppend<A, B>(p: (A, B) -> bool, xs: seq<A>, ys: seq<B>, xs': seq<A>, ys': seq<B>)
    requires AllPairs(p, xs, ys) && AllPairs(p, xs', ys')
    ensures AllPairs(p, xs + xs', ys + ys')
  {
  }

  function Elems<T>(s: seq<T>): set<T> {
    set x | x in s
  }

  lemma ElemsSnoc<T>(s: seq<T>)
    requires s != []
    ensures Elems(s) == Elems(s[..|s| - 1]) + {s[|s| - 1]}
  {
    assert s == s[..|s| - 1] + [s[|s| - 1]];
  }

  lemma {:induction false} DistinctSize<T>(s: seq<T>)
    requires Distinct(s)
    ensures |Elems(s)| == |s|
  {
    if s != [] {
      var n := |s| - 1;
      DistinctSize(s[..n]);
      assert Elems(s) == Elems(s[..n]) + {s[n]};
    }
  }

  lemma SubsetSize<T>(s: set<T>, t: set<T>)
    requires s <= t
    ensures |s| <= |t|
  {
    assert t == s + (t - s);
  }

  /** The numbers below `n`. */
  function UpTo(n: nat): (r: set<nat>)
    ensures |r| == n
    ensures forall i: nat :: i in r <==> i < n
  {
    if n == 0 then {} else UpTo(n - 1) + {n - 1}
  }

  /** The first position of an element. */
  function PositionOf<T(==)>(s: seq<T>, x: T): (i: nat)
    requires x in s
    ensures i < |s| && s[i] == x
  {
    if s[0] == x then 0 else 1 + PositionOf(s[1..], x)
  }

  lemma {:induction false} PositionIsFirst<T>(s: seq<T>, x: T)
    requires x in s
    ensures forall k :: 0 <= k < PositionOf(s, x) ==> s[k] != x
  {
    if s[0] != x {
      PositionIsFirst(s[1..], x);
      assert forall k :: 0 < k < |s| ==> s[k] == s[1..][k - 1];
    }
  }

  function Reverse<T>(s: seq<T>): (r: seq<T>)
    ensures |r| == |s| && forall i :: 0 <= i < |s| ==> r[i] == s[|s| - 1 - i]
  {
    if s == [] then [] else Reverse(s[1..]) + [s[0]]
  }

  lemma {:induction false} ReverseTwice<T>(s: seq<T>)
    ensures Reverse(Reverse(s)) == s
  {
  }

  function Max(a: real, b: real): real { if a >= b then a else b }

  function Min(a: real, b: real): real { if a <= b then a else b }

  lemma MulLess(a: real, b: real, m: real)
    requires m > 0.0 && a < b
    ensures a * m < b * m
  {
    assert (b - a) * m > 0.0;
  }

  lemma MulKeepsOrder(a: real, b: real, m: real)
    requires m >= 0.0 && a <= b
    ensures a * m <= b * m
  {
    assert (b - a) * m >= 0.0;
  }
}
