/**
 Reassembly of a polyline from clipped pieces: a chain, started by the longest
 piece, takes every piece that continues it at either end until a pass over the
 pending pieces attaches none. Distance is a parameter.
 */
module Stitch {
  import opened Prelude
  import opened Sorting

  type Metric<!P> = (P, P) -> real

  // ----- what the worklist computes -----

  /** The first index below `n` closest to `point`. */
  function NearestBelow<P>(dist: Metric<P>, piece: seq<P>, point: P, n: nat): (j: nat)
    requires 1 <= n <= |piece|
    ensures j < n
    ensures forall i :: 0 <= i < n ==> dist(piece[j], point) <= dist(piece[i], point)
    ensures forall i :: 0 <= i < j ==> dist(piece[j], point) < dist(piece[i], point)
  {
    if n == 1 then 0
    else
      var j := NearestBelow(dist, piece, point, n - 1);
      if dist(piece[n - 1], point) < dist(piece[j], point) then n - 1 else j
  }

  function Nearest<P>(dist: Metric<P>, piece: seq<P>, point: P): (j: nat)
    requires piece != []
    ensures j < |piece|
  {
    NearestBelow(dist, piece, point, |piece|)
  }

  /** Where `point` lies on `piece`, if some vertex is close enough to be it. */
  function Seam<P>(dist: Metric<P>, joinM: real, piece: seq<P>, point: P): (j: Option<nat>)
    requires piece != []
    ensures j.Some? ==> j.value < |piece|
  {
    var j := Nearest(dist, piece, point);
    if dist(piece[j], point) <= joinM then Some(j) else None
  }

  /** The chain with the part of `piece` beyond the seam, at the end if it fits
      there and otherwise at the front. */
  function Attach<P>(dist: Metric<P>, joinM: real, chain: seq<P>, piece: seq<P>): Option<seq<P>>
    requires chain != [] && piece != []
  {
    var j := Seam(dist, joinM, piece, chain[|chain| - 1]);
    if j.Some? && j.value < |piece| - 1 then Some(chain + piece[j.value + 1..])
    else
      var k := Seam(dist, joinM, piece, chain[0]);
      if k.Some? && k.value > 0 then Some(piece[..k.value] + chain) else None
  }

  predicate NonEmpty<P>(pieces: seq<seq<P>>) {
    forall i :: 0 <= i < |pieces| ==> pieces[i] != []
  }

  /** One pass: the grown chain and the pieces left over. */
  function Pass<P>(dist: Metric<P>, joinM: real, chain: seq<P>, todo: seq<seq<P>>): (r: (seq<P>, seq<seq<P>>))
    requires chain != [] && NonEmpty(todo)
    ensures r.0 != [] && NonEmpty(r.1) && |r.1| <= |todo|
    decreases |todo|
  {
    if todo == [] then (chain, [])
    else
      match Attach(dist, joinM, chain, todo[0])
      case Some(longer) => Pass(dist, joinM, longer, todo[1..])
      case None =>
        var (c, left) := Pass(dist, joinM, chain, todo[1..]);
        (c, [todo[0]] + left)
  }

  /** Passes until one makes no progress. */
  function Grow<P>(dist: Metric<P>, joinM: real, chain: seq<P>, pending: seq<seq<P>>): (r: (seq<P>, seq<seq<P>>))
    requires chain != [] && NonEmpty(pending)
    ensures r.0 != []
    decreases |pending|
  {
    if pending == [] then (chain, [])
    else
      var (c, left) := Pass(dist, joinM, chain, pending);
      if |left| == |pending| then (c, left) else Grow(dist, joinM, c, left)
  }

  function Dedup<P(==)>(pieces: seq<seq<P>>): seq<seq<P>> {
    if pieces == [] then []
    else
      var before := Dedup(pieces[..|pieces| - 1]);
      var last := pieces[|pieces| - 1];
      if last in before then before else before + [last]
  }

  function Longer<P>(): (seq<P>, seq<P>) -> bool {
    (p: seq<P>, q: seq<P>) => |p| > |q|
  }

  function LongestFirst<P>(pieces: seq<seq<P>>): seq<seq<P>> {
    Sort(Longer(), pieces)
  }

  /** Every point of every leftover piece lies on the chain. */
  predicate Redundant<P>(dist: Metric<P>, joinM: real, chain: seq<P>, left: seq<seq<P>>)
    requires chain != []
  {
    forall i, k :: 0 <= i < |left| && 0 <= k < |left[i]| ==>
      Seam(dist, joinM, chain, left[i][k]).Some?
  }

  function Stitched<P(==)>(dist: Metric<P>, joinM: real, pieces: seq<seq<P>>): (seq<P>, bool)
    requires pieces != [] && NonEmpty(pieces)
  {
    SortedDedup(pieces);
    var unique := LongestFirst(Dedup(pieces));
    var (chain, left) := Grow(dist, joinM, unique[0], unique[1..]);
    (chain, Redundant(dist, joinM, chain, left))
  }

  // ----- deduplication and sorting -----

  lemma {:induction false} DedupMember<P>(pieces: seq<seq<P>>, p: seq<P>)
    ensures p in Dedup(pieces) <==> p in pieces
  {
    if pieces != [] {
      var n := |pieces| - 1;
      DedupMember(pieces[..n], p);
      assert pieces == pieces[..n] + [pieces[n]];
    }
  }

  lemma {:induction false} DedupKeeps<P>(pieces: seq<seq<P>>)
    ensures Distinct(Dedup(pieces))
  {
    if pieces != [] {
      DedupKeeps(pieces[..|pieces| - 1]);
    }
  }

  predicate Descending<P>(pieces: seq<seq<P>>) {
    forall i, j :: 0 <= i < j < |pieces| ==> |pieces[i]| >= |pieces[j]|
  }

  lemma LongestFirstDescends<P>(pieces: seq<seq<P>>)
    ensures Descending(LongestFirst(pieces))
  {
    SortOrders(Longer(), pieces);
    var r := LongestFirst(pieces);
    forall i, j | 0 <= i < j < |r| ensures |r[i]| >= |r[j]| {
      assert !Longer()(r[j], r[i]);
    }
  }

  lemma SortedDedup<P>(pieces: seq<seq<P>>)
    ensures var unique := LongestFirst(Dedup(pieces));
            && Distinct(unique) && Descending(unique)
            && (forall i :: 0 <= i < |unique| ==> unique[i] in pieces)
            && (forall p :: p in pieces ==> p in unique)
            && (pieces != [] ==> unique != [])
            && (NonEmpty(pieces) ==> NonEmpty(unique))
  {
    var unique := LongestFirst(Dedup(pieces));
    DedupKeeps(pieces);
    LongestFirstDescends(Dedup(pieces));
    SortDistinct(Longer(), Dedup(pieces));
    if pieces != [] {
      assert pieces[0] in pieces;
    }
    forall i | 0 <= i < |unique| ensures unique[i] in pieces {
      SortMember(Longer(), Dedup(pieces), unique[i]);
      DedupMember(pieces, unique[i]);
    }
    forall p | p in pieces ensures p in unique {
      SortMember(Longer(), Dedup(pieces), p);
      DedupMember(pieces, p);
    }
  }

  // ----- the worklist loop -----

  function Remove<P(==)>(pieces: seq<seq<P>>, piece: seq<P>): seq<seq<P>> {
    if pieces == [] then []
    else if pieces[0] == piece then pieces[1..]
    else [pieces[0]] + Remove(pieces[1..], piece)
  }

  lemma {:induction false} RemoveMiddle<P>(kept: seq<seq<P>>, piece: seq<P>, rest: seq<seq<P>>)
    requires piece !in kept
    ensures Remove(kept + [piece] + rest, piece) == kept + rest
  {
    var all := kept + [piece] + rest;
    if kept == [] {
      assert all[1..] == rest;
    } else {
      assert all[0] == kept[0] && all[1..] == kept[1..] + [piece] + rest;
      RemoveMiddle(kept[1..], piece, rest);
      assert [kept[0]] + (kept[1..] + rest) == kept + rest;
    }
  }

  /** The outcome of a pass whose first pieces were `kept` unattached. */
  ghost function Behind<P>(kept: seq<seq<P>>, r: (seq<P>, seq<seq<P>>)): (seq<P>, seq<seq<P>>) {
    (r.0, kept + r.1)
  }

  lemma PassStep<P>(dist: Metric<P>, joinM: real, chain: seq<P>, todo: seq<seq<P>>, kept: seq<seq<P>>)
    requires chain != [] && NonEmpty(todo) && todo != []
    ensures var here := Behind(kept, Pass(dist, joinM, chain, todo));
            match Attach(dist, joinM, chain, todo[0])
            case Some(longer) => here == Behind(kept, Pass(dist, joinM, longer, todo[1..]))
            case None => here == Behind(kept + [todo[0]], Pass(dist, joinM, chain, todo[1..]))
  {
    if Attach(dist, joinM, chain, todo[0]) == None {
      Assoc(kept, [todo[0]], Pass(dist, joinM, chain, todo[1..]).1);
    }
  }

  /** Trying one piece: the new chain, or None when it fits at neither end. */
  method TryAttach<P>(dist: Metric<P>, joinM: real, chain: seq<P>, piece: seq<P>) returns (r: Option<seq<P>>)
    requires chain != [] && piece != []
    ensures r == Attach(dist, joinM, chain, piece)
  {
    var j := Seam(dist, joinM, piece, chain[|chain| - 1]);
    if j.Some? && j.value < |piece| - 1 {
      return Some(chain + piece[j.value + 1..]);
    }
    var k := Seam(dist, joinM, piece, chain[0]);
    if k.Some? && k.value > 0 {
      return Some(piece[..k.value] + chain);
    }
    return None;
  }

  /** `for piece in list(pending)`: the chain and `pending` change under the loop. */
  method OnePass<P(==)>(dist: Metric<P>, joinM: real, start: seq<P>, list: seq<seq<P>>)
    returns (chain: seq<P>, pending: seq<seq<P>>, progress: bool)
    requires start != [] && NonEmpty(list) && Distinct(list)
    ensures (chain, pending) == Pass(dist, joinM, start, list)
    ensures progress <==> |pending| < |list|
  {
    chain, pending, progress := start, list, false;
    var todo := list;
    ghost var kept: seq<seq<P>> := [];
    ghost var goal := Pass(dist, joinM, start, list);
    assert [] + goal.1 == goal.1;
    while todo != []
      invariant chain != [] && NonEmpty(todo)
      invariant pending == kept + todo && Distinct(pending)
      invariant |pending| <= |list| && (progress <==> |pending| < |list|)
      invariant Behind(kept, Pass(dist, joinM, chain, todo)) == goal
      decreases |todo|
    {
      var piece := todo[0];
      var longer := TryAttach(dist, joinM, chain, piece);
      PassStep(dist, joinM, chain, todo, kept);
      FirstPending(kept, todo);
      if longer.Some? {
        RemovePending(kept, piece, todo[1..]);
        chain, pending, progress := longer.value, Remove(pending, piece), true;
      } else {
        kept := kept + [piece];
      }
      todo := todo[1..];
    }
    assert kept + [] == kept;
  }

  lemma FirstPending<P>(kept: seq<seq<P>>, todo: seq<seq<P>>)
    requires todo != []
    ensures kept + todo == kept + [todo[0]] + todo[1..]
  {
  }

  lemma RemovePending<P>(kept: seq<seq<P>>, piece: seq<P>, rest: seq<seq<P>>)
    requires Distinct(kept + [piece] + rest)
    ensures Remove(kept + [piece] + rest, piece) == kept + rest && Distinct(kept + rest)
  {
    var all := kept + [piece] + rest;
    assert all[|kept|] == piece && forall i :: 0 <= i < |kept| ==> all[i] == kept[i];
    RemoveMiddle(kept, piece, rest);
    forall i, j | 0 <= i < j < |kept + rest| ensures (kept + rest)[i] != (kept + rest)[j] {
      var i' := if i < |kept| then i else i + 1;
      var j' := if j < |kept| then j else j + 1;
      assert all[i'] == (kept + rest)[i] && all[j'] == (kept + rest)[j];
    }
  }

  lemma {:induction false} PassLeaves<P>(dist: Metric<P>, joinM: real, chain: seq<P>, todo: seq<seq<P>>, p: seq<P>)
    requires chain != [] && NonEmpty(todo) && p in Pass(dist, joinM, chain, todo).1
    ensures p in todo
    decreases |todo|
  {
    if todo != [] {
      assert todo == [todo[0]] + todo[1..];
      match Attach(dist, joinM, chain, todo[0]) {
        case Some(longer) => PassLeaves(dist, joinM, longer, todo[1..], p);
        case None =>
          if p != todo[0] {
            PassLeaves(dist, joinM, chain, todo[1..], p);
          }
      }
    }
  }

  lemma DistinctCons<P>(x: P, s: seq<P>)
    requires Distinct(s) && x !in s
    ensures Distinct([x] + s)
  {
  }

  lemma {:induction false} PassKeepsDistinct<P>(dist: Metric<P>, joinM: real, chain: seq<P>, todo: seq<seq<P>>)
    requires chain != [] && NonEmpty(todo) && Distinct(todo)
    ensures Distinct(Pass(dist, joinM, chain, todo).1)
    decreases |todo|
  {
    if todo != [] {
      match Attach(dist, joinM, chain, todo[0]) {
        case Some(longer) => PassKeepsDistinct(dist, joinM, longer, todo[1..]);
        case None =>
          var left := Pass(dist, joinM, chain, todo[1..]).1;
          PassKeepsDistinct(dist, joinM, chain, todo[1..]);
          if todo[0] in left {
            PassLeaves(dist, joinM, chain, todo[1..], todo[0]);
          }
          DistinctCons(todo[0], left);
      }
    }
  }

  method StitchPieces<P(==)>(dist: Metric<P>, joinM: real, pieces: seq<seq<P>>)
    returns (chain: seq<P>, complete: bool)
    requires pieces != [] && NonEmpty(pieces)
    ensures (chain, complete) == Stitched(dist, joinM, pieces)
  {
    var unique: seq<seq<P>>, seen: set<seq<P>> := [], {};
    for i := 0 to |pieces|
      invariant unique == Dedup(pieces[..i])
      invariant forall p :: p in seen <==> p in unique
    {
      assert pieces[..i + 1][..i] == pieces[..i];
      if pieces[i] !in seen {
        seen, unique := seen + {pieces[i]}, unique + [pieces[i]];
      }
    }
    assert pieces[..|pieces|] == pieces;
    SortedDedup(pieces);
    unique := LongestFirst(unique);
    chain := unique[0];
    var pending, progress := unique[1..], true;
    ghost var goal := Grow(dist, joinM, unique[0], unique[1..]);
    while progress && pending != []
      invariant chain != [] && NonEmpty(pending) && Distinct(pending)
      invariant progress ==> Grow(dist, joinM, chain, pending) == goal
      invariant !progress ==> (chain, pending) == goal
      decreases |pending|, progress
    {
      PassKeepsDistinct(dist, joinM, chain, pending);
      chain, pending, progress := OnePass(dist, joinM, chain, pending);
    }
    complete := Redundant(dist, joinM, chain, pending);
  }

  // ----- runs of vertices -----

  /** Points told apart: `vertex` numbers the vertex that each of `points` is. */
  datatype Chart<!P(==)> = Chart(points: set<P>, vertex: P -> int)

  /** Two of the points are one vertex exactly when they are within the join distance. */
  ghost predicate Tells<P>(dist: Metric<P>, joinM: real, c: Chart<P>) {
    forall x, y :: x in c.points && y in c.points ==> (dist(x, y) <= joinM <==> c.vertex(x) == c.vertex(y))
  }

  /** `p` passes through the vertices from `a` to before `b`. */
  ghost predicate Run<P>(c: Chart<P>, p: seq<P>, a: int, b: int) {
    a < b && |p| == b - a && forall k :: 0 <= k < |p| ==> p[k] in c.points && c.vertex(p[k]) == a + k
  }

  ghost predicate IsRun<P>(c: Chart<P>, p: seq<P>) {
    exists a, b :: Run(c, p, a, b)
  }

  ghost predicate AllRuns<P>(c: Chart<P>, pieces: seq<seq<P>>) {
    forall p :: p in pieces ==> IsRun(c, p)
  }

  ghost predicate RunIn<P>(c: Chart<P>, p: seq<P>, s: int, e: int) {
    exists a, b :: s <= a && b <= e && Run(c, p, a, b)
  }

  /** A piece passes through the vertices k and k + 1. */
  ghost predicate Bridged<P>(c: Chart<P>, pieces: seq<seq<P>>, k: int) {
    exists p, a, b :: p in pieces && Run(c, p, a, b) && a <= k && k + 1 < b
  }

  /** Some piece begins at the vertex, or ends there. */
  ghost predicate Starts<P>(c: Chart<P>, pieces: seq<seq<P>>, s: int) {
    exists p, b :: p in pieces && Run(c, p, s, b)
  }

  ghost predicate Ends<P>(c: Chart<P>, pieces: seq<seq<P>>, e: int) {
    exists p, a :: p in pieces && Run(c, p, a, e)
  }

  lemma RunIsUnique<P>(c: Chart<P>, p: seq<P>, a: int, b: int, a': int, b': int)
    requires Run(c, p, a, b) && Run(c, p, a', b')
    ensures a == a' && b == b'
  {
    assert c.vertex(p[0]) == a + 0 == a' + 0;
  }

  /** On a run a vertex is found where it is, or not at all. */
  lemma SeamInRun<P>(dist: Metric<P>, joinM: real, c: Chart<P>, p: seq<P>, a: int, b: int, x: P)
    requires Tells(dist, joinM, c) && Run(c, p, a, b) && x in c.points
    ensures Seam(dist, joinM, p, x) == if a <= c.vertex(x) < b then Some(c.vertex(x) - a) else None
  {
    var j := Nearest(dist, p, x);
    assert p[j] in c.points && c.vertex(p[j]) == a + j;
    if a <= c.vertex(x) < b {
      var v := c.vertex(x) - a;
      assert p[v] in c.points && c.vertex(p[v]) == a + v;
      assert dist(p[j], x) <= dist(p[v], x) <= joinM;
    }
  }

  lemma RunJoin<P>(c: Chart<P>, p: seq<P>, a: int, m: int, q: seq<P>, b: int)
    requires Run(c, p, a, m) && Run(c, q, m, b)
    ensures Run(c, p + q, a, b)
  {
  }

  lemma RunTail<P>(c: Chart<P>, p: seq<P>, a: int, b: int, m: int)
    requires Run(c, p, a, b) && a <= m < b
    ensures Run(c, p[m - a..], m, b)
  {
    var q := p[m - a..];
    forall k | 0 <= k < |q| ensures q[k] in c.points && c.vertex(q[k]) == m + k {
      assert q[k] == p[m - a + k];
    }
  }

  lemma RunHead<P>(c: Chart<P>, p: seq<P>, a: int, b: int, m: int)
    requires Run(c, p, a, b) && a < m <= b
    ensures Run(c, p[..m - a], a, m)
  {
  }

  lemma AttachAtEnd<P>(dist: Metric<P>, joinM: real, c: Chart<P>, chain: seq<P>, s: int, e: int, piece: seq<P>, a: int, b: int)
    requires Tells(dist, joinM, c) && Run(c, chain, s, e) && Run(c, piece, a, b) && a < e < b
    ensures Attach(dist, joinM, chain, piece) == Some(chain + piece[e - a..]) && Run(c, chain + piece[e - a..], s, b)
  {
    SeamInRun(dist, joinM, c, piece, a, b, chain[|chain| - 1]);
    RunTail(c, piece, a, b, e);
    RunJoin(c, chain, s, e, piece[e - a..], b);
  }

  lemma AttachAtFront<P>(dist: Metric<P>, joinM: real, c: Chart<P>, chain: seq<P>, s: int, e: int, piece: seq<P>, a: int, b: int)
    requires Tells(dist, joinM, c) && Run(c, chain, s, e) && Run(c, piece, a, b) && !(a < e < b)
    ensures if a < s < b then Attach(dist, joinM, chain, piece) == Some(piece[..s - a] + chain) && Run(c, piece[..s - a] + chain, a, e)
            else Attach(dist, joinM, chain, piece) == None
  {
    SeamInRun(dist, joinM, c, piece, a, b, chain[|chain| - 1]);
    SeamInRun(dist, joinM, c, piece, a, b, chain[0]);
    if a < s < b {
      RunHead(c, piece, a, b, s);
      RunJoin(c, piece[..s - a], a, s, chain, e);
    }
  }

  /** What attaching one run to another gives: a longer run, or nothing. */
  lemma AttachRun<P>(dist: Metric<P>, joinM: real, c: Chart<P>, chain: seq<P>, s: int, e: int, piece: seq<P>, a: int, b: int)
    requires Tells(dist, joinM, c) && Run(c, chain, s, e) && Run(c, piece, a, b)
    ensures var r := Attach(dist, joinM, chain, piece);
            if a < e < b then r == Some(chain + piece[e - a..]) && Run(c, r.value, s, b)
            else if a < s < b then r == Some(piece[..s - a] + chain) && Run(c, r.value, a, e)
            else r == None
  {
    if a < e < b {
      AttachAtEnd(dist, joinM, c, chain, s, e, piece, a, b);
    } else {
      AttachAtFront(dist, joinM, c, chain, s, e, piece, a, b);
    }
  }

  /** What holds of the chain and the pieces not yet attached: the chain is a run no
      shorter than any piece, every piece is pending or inside it, and between any two
      neighbours on it some piece passes. */
  ghost predicate Growing<P>(c: Chart<P>, pieces: seq<seq<P>>, chain: seq<P>, pending: seq<seq<P>>, s: int, e: int) {
    && Run(c, chain, s, e) && AllRuns(c, pieces) && Starts(c, pieces, s) && Ends(c, pieces, e)
    && (forall p :: p in pieces ==> p in pending || RunIn(c, p, s, e))
    && (forall p :: p in pending ==> p in pieces && |p| <= |chain|)
    && (forall k :: s <= k < e - 1 ==> Bridged(c, pieces, k))
  }

  lemma RunWidens<P>(c: Chart<P>, p: seq<P>, s: int, e: int, s': int, e': int)
    requires RunIn(c, p, s, e) && s' <= s && e <= e'
    ensures RunIn(c, p, s', e')
  {
  }

  /** The pieces once one of them has been taken into a wider chain. */
  lemma PiecesKept<P>(c: Chart<P>, pieces: seq<seq<P>>, before: seq<seq<P>>, piece: seq<P>, after: seq<seq<P>>,
                      s: int, e: int, s': int, e': int)
    requires forall p :: p in pieces ==> p in before + [piece] + after || RunIn(c, p, s, e)
    requires RunIn(c, piece, s', e') && s' <= s && e <= e'
    ensures forall p :: p in pieces ==> p in before + after || RunIn(c, p, s', e')
  {
    forall p | p in pieces ensures p in before + after || RunIn(c, p, s', e') {
      assert p in before + [piece] + after ==> p == piece || p in before + after;
      if p != piece && p !in before + after {
        RunWidens(c, p, s, e, s', e');
      }
    }
  }

  lemma StillBridged<P>(c: Chart<P>, pieces: seq<seq<P>>, piece: seq<P>, a: int, b: int, s: int, e: int, s': int, e': int)
    requires piece in pieces && Run(c, piece, a, b) && forall k :: s <= k < e - 1 ==> Bridged(c, pieces, k)
    requires (s' == s && e' == b && a < e) || (s' == a && e' == e && s < b)
    ensures forall k :: s' <= k < e' - 1 ==> Bridged(c, pieces, k)
  {
  }

  /** Attaching a piece keeps the invariant; the longest-first start is what
      rules out a piece that overhangs the chain at both ends. */
  lemma GrowingStep<P>(dist: Metric<P>, joinM: real, c: Chart<P>, pieces: seq<seq<P>>, chain: seq<P>,
                       before: seq<seq<P>>, piece: seq<P>, after: seq<seq<P>>, s: int, e: int)
    returns (s': int, e': int)
    requires Tells(dist, joinM, c) && chain != [] && piece != []
    requires Growing(c, pieces, chain, before + [piece] + after, s, e)
    requires Attach(dist, joinM, chain, piece).Some?
    ensures Growing(c, pieces, Attach(dist, joinM, chain, piece).value, before + after, s', e')
  {
    var all := before + [piece] + after;
    assert all[|before|] == piece && piece in all;
    assert IsRun(c, piece);
    var a, b :| Run(c, piece, a, b);
    AttachRun(dist, joinM, c, chain, s, e, piece, a, b);
    s', e' := if a < e < b then s else a, if a < e < b then b else e;
    assert s' <= s && e <= e' && s' <= a && b <= e';
    PiecesKept(c, pieces, before, piece, after, s, e, s', e');
    StillBridged(c, pieces, piece, a, b, s, e, s', e');
    forall p | p in before + after ensures p in all {
    }
  }

  lemma {:induction false} PassGrows<P>(dist: Metric<P>, joinM: real, c: Chart<P>, pieces: seq<seq<P>>,
                                        chain: seq<P>, kept: seq<seq<P>>, todo: seq<seq<P>>, s: int, e: int)
    returns (s': int, e': int)
    requires Tells(dist, joinM, c) && chain != [] && NonEmpty(todo)
    requires Growing(c, pieces, chain, kept + todo, s, e)
    ensures var (grown, left) := Pass(dist, joinM, chain, todo);
            Growing(c, pieces, grown, kept + left, s', e')
    decreases |todo|
  {
    if todo == [] {
      return s, e;
    }
    FirstPending(kept, todo);
    match Attach(dist, joinM, chain, todo[0]) {
      case Some(longer) =>
        var s1, e1 := GrowingStep(dist, joinM, c, pieces, chain, kept, todo[0], todo[1..], s, e);
        s', e' := PassGrows(dist, joinM, c, pieces, longer, kept, todo[1..], s1, e1);
      case None =>
        s', e' := PassGrows(dist, joinM, c, pieces, chain, kept + [todo[0]], todo[1..], s, e);
        Assoc(kept, [todo[0]], Pass(dist, joinM, chain, todo[1..]).1);
    }
  }

  /** A pass that leaves as many pieces as it was given attached none of them. */
  lemma {:induction false} PassStuck<P>(dist: Metric<P>, joinM: real, chain: seq<P>, todo: seq<seq<P>>)
    requires chain != [] && NonEmpty(todo)
    requires |Pass(dist, joinM, chain, todo).1| == |todo|
    ensures Pass(dist, joinM, chain, todo) == (chain, todo)
    ensures forall i :: 0 <= i < |todo| ==> Attach(dist, joinM, chain, todo[i]) == None
    decreases |todo|
  {
    if todo != [] {
      assert Attach(dist, joinM, chain, todo[0]) == None;
      PassStuck(dist, joinM, chain, todo[1..]);
      assert todo == [todo[0]] + todo[1..];
    }
  }

  lemma {:induction false} GrowEnds<P>(dist: Metric<P>, joinM: real, c: Chart<P>, pieces: seq<seq<P>>,
                                       chain: seq<P>, pending: seq<seq<P>>, s: int, e: int)
    returns (s': int, e': int)
    requires Tells(dist, joinM, c) && chain != [] && NonEmpty(pending)
    requires Growing(c, pieces, chain, pending, s, e)
    ensures var (grown, left) := Grow(dist, joinM, chain, pending);
            && Growing(c, pieces, grown, left, s', e')
            && NonEmpty(left)
            && forall i :: 0 <= i < |left| ==> Attach(dist, joinM, grown, left[i]) == None
    decreases |pending|
  {
    if pending == [] {
      return s, e;
    }
    assert [] + pending == pending;
    s', e' := PassGrows(dist, joinM, c, pieces, chain, [], pending, s, e);
    var (grown, left) := Pass(dist, joinM, chain, pending);
    assert [] + left == left;
    if |left| == |pending| {
      PassStuck(dist, joinM, chain, pending);
    } else {
      s', e' := GrowEnds(dist, joinM, c, pieces, grown, left, s', e');
    }
  }

  lemma GrowingFrom<P>(c: Chart<P>, pieces: seq<seq<P>>, unique: seq<seq<P>>) returns (s: int, e: int)
    requires AllRuns(c, pieces) && unique != [] && Descending(unique)
    requires (forall i :: 0 <= i < |unique| ==> unique[i] in pieces) && forall p :: p in pieces ==> p in unique
    ensures Growing(c, pieces, unique[0], unique[1..], s, e)
  {
    assert IsRun(c, unique[0]);
    s, e :| Run(c, unique[0], s, e);
    assert unique == [unique[0]] + unique[1..];
    assert RunIn(c, unique[0], s, e);
    forall p | p in pieces ensures p in unique[1..] || RunIn(c, p, s, e) {
      assert p in unique;
    }
    forall k | s <= k < e - 1 ensures Bridged(c, pieces, k) {
      assert unique[0] in pieces;
    }
  }

  /** When nothing attaches, a piece is inside the chain or shares no vertex with it. */
  lemma RunSettled<P>(dist: Metric<P>, joinM: real, c: Chart<P>, pieces: seq<seq<P>>, chain: seq<P>,
                      left: seq<seq<P>>, s: int, e: int, p: seq<P>, a: int, b: int)
    requires Tells(dist, joinM, c) && chain != [] && NonEmpty(left)
    requires Growing(c, pieces, chain, left, s, e)
    requires forall i :: 0 <= i < |left| ==> Attach(dist, joinM, chain, left[i]) == None
    requires p in pieces && Run(c, p, a, b)
    ensures (s <= a && b <= e) || b <= s || e <= a
  {
    if p in left {
      var i :| 0 <= i < |left| && left[i] == p;
      AttachRun(dist, joinM, c, chain, s, e, p, a, b);
    } else {
      var a', b' :| s <= a' && b' <= e && Run(c, p, a', b');
      RunIsUnique(c, p, a, b, a', b');
    }
  }

  lemma InsideIsRedundant<P>(dist: Metric<P>, joinM: real, c: Chart<P>, chain: seq<P>, left: seq<seq<P>>, s: int, e: int)
    requires Tells(dist, joinM, c) && Run(c, chain, s, e)
    requires forall p :: p in left ==> RunIn(c, p, s, e)
    ensures Redundant(dist, joinM, chain, left)
  {
    forall i, k | 0 <= i < |left| && 0 <= k < |left[i]| ensures Seam(dist, joinM, chain, left[i][k]).Some? {
      assert RunIn(c, left[i], s, e);
      var a, b :| s <= a && b <= e && Run(c, left[i], a, b);
      SeamInRun(dist, joinM, c, chain, s, e, left[i][k]);
    }
  }

  lemma LeftoversTell<P>(dist: Metric<P>, joinM: real, c: Chart<P>, pieces: seq<seq<P>>, chain: seq<P>,
                         left: seq<seq<P>>, s: int, e: int)
    requires Tells(dist, joinM, c) && chain != [] && NonEmpty(left)
    requires Growing(c, pieces, chain, left, s, e)
    requires forall i :: 0 <= i < |left| ==> Attach(dist, joinM, chain, left[i]) == None
    ensures Redundant(dist, joinM, chain, left) <==> forall p :: p in pieces ==> RunIn(c, p, s, e)
  {
    if forall p :: p in pieces ==> RunIn(c, p, s, e) {
      InsideIsRedundant(dist, joinM, c, chain, left, s, e);
    } else {
      var p :| p in pieces && !RunIn(c, p, s, e);
      assert p in left && IsRun(c, p);
      var i :| 0 <= i < |left| && left[i] == p;
      var a, b :| Run(c, p, a, b);
      RunSettled(dist, joinM, c, pieces, chain, left, s, e, p, a, b);
      SeamInRun(dist, joinM, c, chain, s, e, left[i][0]);
      assert Seam(dist, joinM, chain, left[i][0]) == None;
    }
  }

  /** For runs of vertices, in whatever order and however often: the result is a run that
      no piece continues, with a piece between any two neighbours on it, and `complete`
      says exactly that every piece lies in it. */
  lemma StitchedRun<P>(dist: Metric<P>, joinM: real, c: Chart<P>, pieces: seq<seq<P>>) returns (s: int, e: int)
    requires Tells(dist, joinM, c) && pieces != [] && NonEmpty(pieces) && AllRuns(c, pieces)
    ensures var (chain, complete) := Stitched(dist, joinM, pieces);
            && Run(c, chain, s, e) && Starts(c, pieces, s) && Ends(c, pieces, e)
            && (complete <==> forall p :: p in pieces ==> RunIn(c, p, s, e))
            && (forall p, a, b :: p in pieces && Run(c, p, a, b) ==> (s <= a && b <= e) || b <= s || e <= a)
            && (forall k :: s <= k < e - 1 ==> Bridged(c, pieces, k))
  {
    SortedDedup(pieces);
    var unique := LongestFirst(Dedup(pieces));
    var s0, e0 := GrowingFrom(c, pieces, unique);
    s, e := GrowEnds(dist, joinM, c, pieces, unique[0], unique[1..], s0, e0);
    var (chain, left) := Grow(dist, joinM, unique[0], unique[1..]);
    forall p, a, b | p in pieces && Run(c, p, a, b) ensures (s <= a && b <= e) || b <= s || e <= a {
      RunSettled(dist, joinM, c, pieces, chain, left, s, e, p, a, b);
    }
    LeftoversTell(dist, joinM, c, pieces, chain, left, s, e);
  }

  ghost predicate Ranged<P>(c: Chart<P>, pieces: seq<seq<P>>, n: int) {
    forall p :: p in pieces ==> RunIn(c, p, 0, n)
  }

  lemma RangedRun<P>(c: Chart<P>, pieces: seq<seq<P>>, n: int, p: seq<P>, a: int, b: int)
    requires Ranged(c, pieces, n) && p in pieces && Run(c, p, a, b)
    ensures 0 <= a && b <= n
  {
    var a', b' :| 0 <= a' && b' <= n && Run(c, p, a', b');
    RunIsUnique(c, p, a, b, a', b');
  }

  /** All `n` vertices come back, and are reported complete, exactly when between any two
      neighbours some piece passes. */
  lemma StitchRecoversRun<P>(dist: Metric<P>, joinM: real, c: Chart<P>, pieces: seq<seq<P>>, n: int)
    requires Tells(dist, joinM, c) && pieces != [] && NonEmpty(pieces) && Ranged(c, pieces, n)
    ensures var (chain, complete) := Stitched(dist, joinM, pieces);
            && (Run(c, chain, 0, n) <==> forall k :: 0 <= k < n - 1 ==> Bridged(c, pieces, k))
            && (Run(c, chain, 0, n) ==> complete)
            && IsRun(c, chain) && forall a, b :: Run(c, chain, a, b) ==> 0 <= a && b <= n
  {
    assert AllRuns(c, pieces) by {
      forall p | p in pieces ensures IsRun(c, p) {
        assert RunIn(c, p, 0, n);
      }
    }
    var s, e := StitchedRun(dist, joinM, c, pieces);
    var (chain, complete) := Stitched(dist, joinM, pieces);
    EndsInRange(c, pieces, s, e, n);
    forall a, b | Run(c, chain, a, b) ensures a == s && b == e {
      RunIsUnique(c, chain, a, b, s, e);
    }
    if forall k :: 0 <= k < n - 1 ==> Bridged(c, pieces, k) {
      assert 0 < s ==> Bridged(c, pieces, s - 1);
      assert e < n ==> Bridged(c, pieces, e - 1);
    }
  }

  lemma EndsInRange<P>(c: Chart<P>, pieces: seq<seq<P>>, s: int, e: int, n: int)
    requires Ranged(c, pieces, n) && Starts(c, pieces, s) && Ends(c, pieces, e)
    ensures 0 <= s && e <= n
  {
    var p, b :| p in pieces && Run(c, p, s, b);
    RangedRun(c, pieces, n, p, s, b);
    var q, a :| q in pieces && Run(c, q, a, e);
    RangedRun(c, pieces, n, q, a, e);
  }

  // ----- pieces of a line, to within a tolerance -----

  /** Names a triangle for the triangle inequality. */
  ghost predicate Corner<P>(a: P, b: P, c: P) { true }

  ghost predicate Metrical<P(!new)>(dist: Metric<P>) {
    && (forall a, b :: dist(a, b) == dist(b, a))
    && forall a, b, c {:trigger Corner(a, b, c)} :: Corner(a, b, c) ==> dist(a, c) <= dist(a, b) + dist(b, c)
  }

  lemma Around<P(!new)>(dist: Metric<P>, a: P, b: P, c: P)
    requires Metrical(dist)
    ensures dist(a, c) <= dist(a, b) + dist(b, c)
  {
    assert Corner(a, b, c);
  }

  /** The vertices of the line lie farther apart than two points can that are taken for
      one vertex, each up to `eps` off it. */
  ghost predicate Spread<P>(dist: Metric<P>, joinM: real, eps: real, line: seq<P>) {
    && 0.0 <= eps && 2.0 * eps <= joinM
    && forall i, j :: 0 <= i < |line| && 0 <= j < |line| && i != j ==> dist(line[i], line[j]) > joinM + 2.0 * eps
  }

  /** The piece follows the line from vertex `a` on, no point more than `eps` off. */
  ghost predicate Follows<P>(dist: Metric<P>, eps: real, line: seq<P>, p: seq<P>, a: int) {
    && p != [] && 0 <= a && a + |p| <= |line|
    && forall k :: 0 <= k < |p| ==> dist(p[k], line[a + k]) <= eps
  }

  ghost predicate AllFollow<P>(dist: Metric<P>, eps: real, line: seq<P>, pieces: seq<seq<P>>) {
    forall p :: p in pieces ==> exists a :: Follows(dist, eps, line, p, a)
  }

  ghost predicate FollowedAt<P>(dist: Metric<P>, eps: real, line: seq<P>, pieces: seq<seq<P>>, k: int) {
    exists p, a :: p in pieces && Follows(dist, eps, line, p, a) && a <= k && k + 1 < a + |p|
  }

  /** The first vertex below `n` no more than `eps` away. */
  function VertexAt<P>(dist: Metric<P>, eps: real, line: seq<P>, n: nat, x: P): (v: int)
    requires n <= |line|
    ensures v == -1 || (0 <= v < n && dist(x, line[v]) <= eps)
    ensures v == -1 ==> forall i :: 0 <= i < n ==> dist(x, line[i]) > eps
  {
    if n == 0 then -1
    else
      var v := VertexAt(dist, eps, line, n - 1, x);
      if v >= 0 then v else if dist(x, line[n - 1]) <= eps then n - 1 else -1
  }

  lemma OneVertex<P(!new)>(dist: Metric<P>, joinM: real, eps: real, line: seq<P>, x: P, v: nat)
    requires Metrical(dist) && Spread(dist, joinM, eps, line) && v < |line| && dist(x, line[v]) <= eps
    ensures VertexAt(dist, eps, line, |line|, x) == v
  {
    var w := VertexAt(dist, eps, line, |line|, x);
    Around(dist, line[v], x, line[w]);
  }

  function Vertices<P(==)>(pieces: seq<seq<P>>): set<P> {
    set p, x | p in pieces && x in p :: x
  }

  function LineChart<P>(dist: Metric<P>, eps: real, line: seq<P>, points: set<P>): Chart<P> {
    Chart(points, (x: P) => VertexAt(dist, eps, line, |line|, x))
  }

  lemma FollowsIff<P(!new)>(dist: Metric<P>, joinM: real, eps: real, line: seq<P>, points: set<P>, p: seq<P>, a: int)
    requires Metrical(dist) && Spread(dist, joinM, eps, line) && forall x :: x in p ==> x in points
    ensures Follows(dist, eps, line, p, a)
            <==> Run(LineChart(dist, eps, line, points), p, a, a + |p|) && 0 <= a && a + |p| <= |line|
  {
    var c := LineChart(dist, eps, line, points);
    if Follows(dist, eps, line, p, a) {
      forall k | 0 <= k < |p| ensures p[k] in points && c.vertex(p[k]) == a + k {
        assert p[k] in p;
        OneVertex(dist, joinM, eps, line, p[k], a + k);
      }
    }
    if Run(c, p, a, a + |p|) && 0 <= a && a + |p| <= |line| {
      forall k | 0 <= k < |p| ensures dist(p[k], line[a + k]) <= eps {
        assert c.vertex(p[k]) == a + k;
      }
    }
  }

  lemma VertexOfPiece<P(!new)>(dist: Metric<P>, joinM: real, eps: real, line: seq<P>, pieces: seq<seq<P>>, x: P) returns (v: nat)
    requires Metrical(dist) && Spread(dist, joinM, eps, line) && AllFollow(dist, eps, line, pieces) && x in Vertices(pieces)
    ensures v < |line| && dist(x, line[v]) <= eps && VertexAt(dist, eps, line, |line|, x) == v
  {
    var p :| p in pieces && x in p;
    var a :| Follows(dist, eps, line, p, a);
    var k :| 0 <= k < |p| && p[k] == x;
    v := a + k;
    OneVertex(dist, joinM, eps, line, x, v);
  }

  lemma SpreadTells<P(!new)>(dist: Metric<P>, joinM: real, eps: real, line: seq<P>, pieces: seq<seq<P>>)
    requires Metrical(dist) && Spread(dist, joinM, eps, line) && AllFollow(dist, eps, line, pieces)
    ensures Tells(dist, joinM, LineChart(dist, eps, line, Vertices(pieces)))
  {
    var c := LineChart(dist, eps, line, Vertices(pieces));
    forall x, y | x in c.points && y in c.points ensures dist(x, y) <= joinM <==> c.vertex(x) == c.vertex(y) {
      var v := VertexOfPiece(dist, joinM, eps, line, pieces, x);
      var w := VertexOfPiece(dist, joinM, eps, line, pieces, y);
      Around(dist, x, line[v], y);
      Around(dist, line[v], x, line[w]);
      Around(dist, x, y, line[w]);
    }
  }

  lemma FollowedIff<P(!new)>(dist: Metric<P>, joinM: real, eps: real, line: seq<P>, pieces: seq<seq<P>>, k: int)
    requires Metrical(dist) && Spread(dist, joinM, eps, line) && AllFollow(dist, eps, line, pieces)
    requires Ranged(LineChart(dist, eps, line, Vertices(pieces)), pieces, |line|)
    ensures FollowedAt(dist, eps, line, pieces, k) <==> Bridged(LineChart(dist, eps, line, Vertices(pieces)), pieces, k)
  {
    var c := LineChart(dist, eps, line, Vertices(pieces));
    if FollowedAt(dist, eps, line, pieces, k) {
      var p, a :| p in pieces && Follows(dist, eps, line, p, a) && a <= k && k + 1 < a + |p|;
      FollowsIff(dist, joinM, eps, line, c.points, p, a);
    }
    if Bridged(c, pieces, k) {
      var p, a, b :| p in pieces && Run(c, p, a, b) && a <= k && k + 1 < b;
      RangedRun(c, pieces, |line|, p, a, b);
      FollowsIff(dist, joinM, eps, line, c.points, p, a);
    }
  }

  lemma FollowersRange<P(!new)>(dist: Metric<P>, joinM: real, eps: real, line: seq<P>, pieces: seq<seq<P>>)
    requires Metrical(dist) && Spread(dist, joinM, eps, line) && AllFollow(dist, eps, line, pieces)
    ensures Ranged(LineChart(dist, eps, line, Vertices(pieces)), pieces, |line|)
  {
    forall p | p in pieces ensures RunIn(LineChart(dist, eps, line, Vertices(pieces)), p, 0, |line|) {
      var a :| Follows(dist, eps, line, p, a);
      FollowsIff(dist, joinM, eps, line, Vertices(pieces), p, a);
    }
  }

  /** Pieces whose points are up to `eps` off the line's vertices, half the join distance
      or less: the result always follows the line as closely, and follows all of it, and
      is reported complete, exactly when some piece follows it between any two vertices. */
  lemma StitchFollowsLine<P(!new)>(dist: Metric<P>, joinM: real, eps: real, line: seq<P>, pieces: seq<seq<P>>)
    requires Metrical(dist) && Spread(dist, joinM, eps, line)
    requires pieces != [] && NonEmpty(pieces) && AllFollow(dist, eps, line, pieces)
    ensures var (chain, complete) := Stitched(dist, joinM, pieces);
            && (exists a :: Follows(dist, eps, line, chain, a))
            && (|chain| == |line| <==> forall k :: 0 <= k < |line| - 1 ==> FollowedAt(dist, eps, line, pieces, k))
            && (|chain| == |line| ==> complete)
  {
    var c := LineChart(dist, eps, line, Vertices(pieces));
    var (chain, complete) := Stitched(dist, joinM, pieces);
    SpreadTells(dist, joinM, eps, line, pieces);
    FollowersRange(dist, joinM, eps, line, pieces);
    StitchRecoversRun(dist, joinM, c, pieces, |line|);
    forall k {
      FollowedIff(dist, joinM, eps, line, pieces, k);
    }
    RunFollows(dist, joinM, eps, line, c.points, chain);
  }

  lemma RunFollows<P(!new)>(dist: Metric<P>, joinM: real, eps: real, line: seq<P>, points: set<P>, chain: seq<P>)
    requires Metrical(dist) && Spread(dist, joinM, eps, line) && IsRun(LineChart(dist, eps, line, points), chain)
    requires forall a, b :: Run(LineChart(dist, eps, line, points), chain, a, b) ==> 0 <= a && b <= |line|
    ensures exists a :: Follows(dist, eps, line, chain, a)
    ensures |chain| == |line| <==> Run(LineChart(dist, eps, line, points), chain, 0, |line|)
  {
    var c := LineChart(dist, eps, line, points);
    var a, b :| Run(c, chain, a, b);
    FollowsIff(dist, joinM, eps, line, points, chain, a);
  }

  // ----- pieces that are windows of a line -----

  /** Neighbours on the line, or any two of its vertices, are never confused. */
  ghost predicate Separated<P>(dist: Metric<P>, joinM: real, line: seq<P>) {
    && 0.0 <= joinM
    && (forall i :: 0 <= i < |line| ==> dist(line[i], line[i]) == 0.0)
    && forall i, j :: 0 <= i < |line| && 0 <= j < |line| && i != j ==> dist(line[i], line[j]) > joinM
  }

  ghost predicate WindowIn<P>(line: seq<P>, piece: seq<P>, s: nat, e: nat) {
    exists a, b :: s <= a < b <= e <= |line| && piece == line[a..b]
  }

  ghost predicate Windows<P>(line: seq<P>, pieces: seq<seq<P>>) {
    forall p :: p in pieces ==> WindowIn(line, p, 0, |line|)
  }

  /** The vertices k and k + 1 lie together in some piece. */
  ghost predicate EdgeCovered<P>(line: seq<P>, pieces: seq<seq<P>>, k: nat) {
    exists a: nat, b: nat :: a <= k && k + 1 < b <= |line| && line[a..b] in pieces
  }

  ghost predicate Covers<P>(line: seq<P>, pieces: seq<seq<P>>) {
    forall k :: 0 <= k < |line| - 1 ==> EdgeCovered(line, pieces, k)
  }

  function Positions<P>(line: seq<P>): Chart<P> {
    Chart(Elems(line), (x: P) => if x in line then PositionOf(line, x) else -1)
  }

  lemma SeparatedTells<P>(dist: Metric<P>, joinM: real, line: seq<P>)
    requires Separated(dist, joinM, line)
    ensures Tells(dist, joinM, Positions(line)) && Distinct(line)
  {
    forall x, y | x in line && y in line
      ensures dist(x, y) <= joinM <==> PositionOf(line, x) == PositionOf(line, y)
    {
      assert line[PositionOf(line, x)] == x && line[PositionOf(line, y)] == y;
    }
  }

  lemma PositionAt<P>(line: seq<P>, k: nat)
    requires Distinct(line) && k < |line|
    ensures Positions(line).vertex(line[k]) == k
  {
  }

  lemma RunPoint<P>(line: seq<P>, p: seq<P>, a: int, b: int, k: nat)
    requires Run(Positions(line), p, a, b) && k < |p|
    ensures 0 <= a + k < |line| && p[k] == line[a + k]
  {
    assert Positions(line).vertex(p[k]) == a + k && p[k] in line;
  }

  lemma WindowIff<P>(line: seq<P>, p: seq<P>, a: int, b: int)
    requires Distinct(line)
    ensures Run(Positions(line), p, a, b) <==> 0 <= a < b <= |line| && p == line[a..b]
  {
    var c := Positions(line);
    if 0 <= a < b <= |line| && p == line[a..b] {
      forall k | 0 <= k < |p| ensures p[k] in c.points && c.vertex(p[k]) == a + k {
        PositionAt(line, a + k);
      }
    }
    if Run(c, p, a, b) {
      RunPoint(line, p, a, b, 0);
      RunPoint(line, p, a, b, |p| - 1);
      forall k | 0 <= k < |p| ensures p[k] == line[a..b][k] {
        RunPoint(line, p, a, b, k);
      }
    }
  }

  lemma WindowInIff<P>(line: seq<P>, p: seq<P>, s: int, e: int)
    requires Distinct(line) && 0 <= s && 0 <= e <= |line|
    ensures WindowIn(line, p, s, e) <==> RunIn(Positions(line), p, s, e)
  {
    if WindowIn(line, p, s, e) {
      var a, b :| s <= a < b <= e <= |line| && p == line[a..b];
      WindowIff(line, p, a, b);
    }
    if RunIn(Positions(line), p, s, e) {
      var a, b :| s <= a && b <= e && Run(Positions(line), p, a, b);
      WindowIff(line, p, a, b);
    }
  }

  lemma CoveredIff<P>(line: seq<P>, pieces: seq<seq<P>>, k: nat)
    requires Distinct(line)
    ensures EdgeCovered(line, pieces, k) <==> Bridged(Positions(line), pieces, k)
  {
    var c := Positions(line);
    if EdgeCovered(line, pieces, k) {
      var a: nat, b: nat :| a <= k && k + 1 < b <= |line| && line[a..b] in pieces;
      WindowIff(line, line[a..b], a, b);
    }
    if Bridged(c, pieces, k) {
      var p, a, b :| p in pieces && Run(c, p, a, b) && a <= k && k + 1 < b;
      WindowIff(line, p, a, b);
    }
  }

  lemma WindowsRange<P>(line: seq<P>, pieces: seq<seq<P>>)
    requires Distinct(line) && Windows(line, pieces)
    ensures Ranged(Positions(line), pieces, |line|) && AllRuns(Positions(line), pieces)
  {
    forall p | p in pieces ensures RunIn(Positions(line), p, 0, |line|) && IsRun(Positions(line), p) {
      WindowInIff(line, p, 0, |line|);
    }
  }

  /** For windows of any line, covering it or not: the result is a window that no
      piece continues, and `complete` says exactly that every piece lies in it. */
  lemma StitchedWindow<P>(dist: Metric<P>, joinM: real, line: seq<P>, pieces: seq<seq<P>>)
    returns (s: nat, e: nat)
    requires Separated(dist, joinM, line) && pieces != [] && NonEmpty(pieces) && Windows(line, pieces)
    ensures var (chain, complete) := Stitched(dist, joinM, pieces);
            && s < e <= |line| && chain == line[s..e]
            && (complete <==> forall p :: p in pieces ==> WindowIn(line, p, s, e))
            && (forall a: nat, b: nat :: a < b <= |line| && line[a..b] in pieces ==> (s <= a && b <= e) || b <= s || e <= a)
            && (forall k :: s <= k < e - 1 ==> EdgeCovered(line, pieces, k))
  {
    SeparatedTells(dist, joinM, line);
    WindowsRange(line, pieces);
    var s0, e0 := StitchedRun(dist, joinM, Positions(line), pieces);
    WindowIff(line, Stitched(dist, joinM, pieces).0, s0, e0);
    s, e := s0, e0;
    forall p {
      WindowInIff(line, p, s, e);
    }
    forall k: nat {
      CoveredIff(line, pieces, k);
    }
    forall a: nat, b: nat | a < b <= |line| && line[a..b] in pieces ensures (s <= a && b <= e) || b <= s || e <= a {
      WindowIff(line, line[a..b], a, b);
    }
  }

  /** The line comes back, whole and reported complete, exactly when every two
      neighbouring vertices lie together in some piece - whatever the order and
      duplication of the pieces. */
  lemma StitchRecoversLine<P>(dist: Metric<P>, joinM: real, line: seq<P>, pieces: seq<seq<P>>)
    requires Separated(dist, joinM, line) && pieces != [] && NonEmpty(pieces) && Windows(line, pieces)
    ensures Stitched(dist, joinM, pieces) == (line, true) <==> Covers(line, pieces)
    ensures Stitched(dist, joinM, pieces).0 == line ==> Stitched(dist, joinM, pieces).1
  {
    SeparatedTells(dist, joinM, line);
    WindowsRange(line, pieces);
    forall k: nat {
      CoveredIff(line, pieces, k);
    }
    StitchRecoversRun(dist, joinM, Positions(line), pieces, |line|);
    WindowIff(line, Stitched(dist, joinM, pieces).0, 0, |line|);
    assert line[0..|line|] == line;
  }
}
