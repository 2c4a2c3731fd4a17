/**
 Seams that share a side. Snapping promises that shared cameras coincide; where an
 end lies within reach of two starts, or two ends of one start, it keeps the
 promise exactly when the second visit does not move what the first one settled.
 */
module SharedSeams {
  import opened Prelude
  import opened Text
  import opened Zones
  import opened Grouping
  import opened Sorting
  import opened Seams
  import opened SeamLoop

  /** Every end in `ends` is within reach of every start in `starts`. */
  datatype Junction = Junction(ends: set<nat>, starts: set<nat>) {
    predicate Inside(a: nat, b: nat) {
      a in ends && b in starts
    }

    predicate Touches(a: nat, b: nat) {
      a in ends || b in starts
    }
  }

  function Outer(among: set<(nat, nat)>, j: Junction): set<(nat, nat)> {
    set p | p in among && !j.Inside(p.0, p.1)
  }

  /** Apart from the junction all seams are clear, and nothing else is near it. */
  ghost predicate LoneJunction(r: Run, st: Seats, among: set<(nat, nat)>, j: Junction)
    requires Fits(r, st)
  {
    && ClearSeams(r, st, Outer(among, j))
    && forall a, b :: (a, b) in Outer(among, j) && a != b && j.Touches(a, b) ==> Far(r, st, a, b, 4.0)
  }

  /** The seats of `st`, those of the junction moved to where `now` has them. */
  function Patch(st: Seats, now: Seats, j: Junction): (r: Seats)
    requires |now.starts| == |st.starts| && |now.ends| == |st.ends|
    ensures |r.starts| == |st.starts| && |r.ends| == |st.ends|
  {
    Seats(seq(|st.starts|, i requires 0 <= i < |st.starts| => if i in j.starts then now.starts[i] else st.starts[i]),
          seq(|st.ends|, i requires 0 <= i < |st.ends| => if i in j.ends then now.ends[i] else st.ends[i]))
  }

  ghost predicate MovedLittle(r: Run, st: Seats, now: Seats, j: Junction)
    requires Fits(r, st) && Fits(r, now)
  {
    && (forall a :: a in j.ends && a < |r.sites| ==> r.dist(now.ends[a], st.ends[a]) <= Reach(r))
    && forall b :: b in j.starts && b < |r.sites| ==> r.dist(now.starts[b], st.starts[b]) <= Reach(r)
  }

  lemma FarIsNoSeam(r: Run, st: Seats, a: nat, b: nat, times: real)
    requires Fits(r, st) && Far(r, st, a, b, times) && times >= 1.0
    ensures !Seam(r, st, a, b)
  {
    MulKeepsOrder(1.0, times, Reach(r));
  }

  /** A pair outside the junction is as clear after the move as before it. */
  lemma OuterPair(r: Run, st: Seats, now: Seats, among: set<(nat, nat)>, j: Junction, a: nat, b: nat)
    requires Fits(r, st) && Fits(r, now) && IsMetric(r.dist) && MovedLittle(r, st, now, j)
    requires LoneJunction(r, st, among, j) && (a, b) in Outer(among, j) && a != b
    ensures j.Touches(a, b) ==>
              Far(r, Patch(st, now, j), a, b, 3.0) && !Seam(r, Patch(st, now, j), a, b) && !Seam(r, st, a, b)
    ensures !j.Touches(a, b) && a < |r.sites| && b < |r.sites| ==>
              Patch(st, now, j).ends[a] == st.ends[a] && Patch(st, now, j).starts[b] == st.starts[b]
  {
    var p := Patch(st, now, j);
    if j.Touches(a, b) {
      assert Far(r, st, a, b, 4.0);
      Triangle(r.dist, st.ends[a], p.ends[a], st.starts[b]);
      Triangle(r.dist, p.ends[a], p.starts[b], st.starts[b]);
      FarIsNoSeam(r, st, a, b, 4.0);
      FarIsNoSeam(r, p, a, b, 3.0);
    }
  }

  lemma PatchedIsClear(r: Run, st: Seats, now: Seats, among: set<(nat, nat)>, j: Junction)
    requires Fits(r, st) && Fits(r, now) && IsMetric(r.dist) && MovedLittle(r, st, now, j)
    requires LoneJunction(r, st, among, j)
    ensures ClearSeams(r, Patch(st, now, j), Outer(among, j))
  {
    var p := Patch(st, now, j);
    forall a, b | (a, b) in Outer(among, j) && a != b
      ensures Seam(r, p, a, b) == Seam(r, st, a, b)
      ensures Seam(r, p, a, b) || Far(r, p, a, b, 3.0)
    {
      OuterPair(r, st, now, among, j, a, b);
    }
  }

  /** The junction's first seam is as clear as the rest, up to its second visit. */
  lemma FirstSeamClear(r: Run, st: Seats, among: set<(nat, nat)>, j: Junction, a: nat, b: nat)
    requires Fits(r, st) && LoneJunction(r, st, among, j) && j.Inside(a, b) && Seam(r, st, a, b)
    ensures ClearSeams(r, st, Outer(among, j) + {(a, b)})
  {
    forall c, d | (c, d) in Outer(among, j) && c != d && j.Touches(c, d) ensures !Seam(r, st, c, d) {
      FarIsNoSeam(r, st, c, d, 4.0);
    }
  }

  /** A visit inside the junction moves nothing else: seen from the moved seats, the
      run has come as far as before. */
  lemma JunctionProgress(r: Run, st: Seats, s: Seats, s': Seats, among: set<(nat, nat)>, done: set<(nat, nat)>, j: Junction)
    requires Fits(r, st) && Fits(r, s) && Fits(r, s') && IsMetric(r.dist) && MovedLittle(r, st, s', j)
    requires LoneJunction(r, st, among, j) && done <= among && Progress(r, st, s, done)
    requires forall c :: 0 <= c < |r.sites| && c !in j.ends ==> s'.ends[c] == s.ends[c]
    requires forall c :: 0 <= c < |r.sites| && c !in j.starts ==> s'.starts[c] == s.starts[c]
    ensures Progress(r, Patch(st, s', j), s', Outer(done, j))
  {
    var p := Patch(st, s', j);
    forall a, b | (a, b) in Outer(done, j) && Seam(r, p, a, b)
      ensures s'.ends[a] == Meeting(r, p, a, b) && s'.starts[b] == Meeting(r, p, a, b)
    {
      OuterPair(r, st, s', among, j, a, b);
      assert (a, b) in done && Seam(r, st, a, b);
    }
    forall a | 0 <= a < |r.sites| && !EndDone(r, p, Outer(done, j), a) ensures s'.ends[a] == p.ends[a] {
      if a !in j.ends && EndDone(r, st, done, a) {
        var b :| (a, b) in done && Seam(r, st, a, b);
        assert (a, b) in Outer(done, j);
        OuterPair(r, st, s', among, j, a, b);
      }
    }
    forall b | 0 <= b < |r.sites| && !StartDone(r, p, Outer(done, j), b) ensures s'.starts[b] == p.starts[b] {
      if b !in j.starts && StartDone(r, st, done, b) {
        var a :| (a, b) in done && Seam(r, st, a, b);
        assert (a, b) in Outer(done, j);
        OuterPair(r, st, s', among, j, a, b);
      }
    }
  }

  /** Visits outside the junction leave it where it is. */
  lemma JunctionStays(r: Run, st: Seats, s: Seats, among: set<(nat, nat)>, done: set<(nat, nat)>, q: seq<(nat, nat)>,
                      j: Junction)
    requires Fits(r, st) && Fits(r, s) && IsMetric(r.dist) && MovedLittle(r, st, s, j) && InBounds(r, q)
    requires LoneJunction(r, st, among, j) && done <= among && Elems(q) <= Outer(among, j)
    requires Progress(r, Patch(st, s, j), s, Outer(done, j))
    ensures forall a :: a in j.ends && a < |r.sites| ==> Snap(r, s, q).ends[a] == s.ends[a]
    ensures forall b :: b in j.starts && b < |r.sites| ==> Snap(r, s, q).starts[b] == s.starts[b]
  {
    var p, all := Patch(st, s, j), Outer(done, j) + Elems(q);
    assert all <= Outer(among, j);
    PatchedIsClear(r, st, s, among, j);
    ClearFewer(r, p, all, Outer(among, j));
    SnapProgressFrom(r, p, s, Outer(done, j), q);
    forall a, b | (a, b) in all && j.Touches(a, b) ensures !Seam(r, p, a, b) {
      if a != b {
        OuterPair(r, st, s, among, j, a, b);
      }
    }
    forall a | a in j.ends && a < |r.sites| ensures Snap(r, s, q).ends[a] == s.ends[a] {
      assert !EndDone(r, p, all, a);
    }
    forall b | b in j.starts && b < |r.sites| ensures Snap(r, s, q).starts[b] == s.starts[b] {
      assert !StartDone(r, p, all, b);
    }
  }

  /** The run up to the junction's second visit, with only the first one inside. */
  lemma BeforeSecond(r: Run, st: Seats, p: seq<(nat, nat)>, among: set<(nat, nat)>, j: Junction, a: nat, b: nat)
    requires Fits(r, st) && IsMetric(r.dist) && InBounds(r, p) && LoneJunction(r, st, among, j)
    requires j.Inside(a, b) && Seam(r, st, a, b) && (a, b) in p
    requires Elems(p) <= Outer(among, j) + {(a, b)}
    ensures Progress(r, st, Snap(r, st, p), Elems(p))
    ensures var s := Snap(r, st, p);
            && s.ends[a] == s.starts[b] == Meeting(r, st, a, b)
            && (forall c :: c in j.ends && c < |r.sites| && c != a ==> s.ends[c] == st.ends[c])
            && (forall d :: d in j.starts && d < |r.sites| && d != b ==> s.starts[d] == st.starts[d])
  {
    FirstSeamClear(r, st, among, j, a, b);
    ClearFewer(r, st, Elems(p), Outer(among, j) + {(a, b)});
    SnapProgress(r, st, p);
    assert (a, b) in Elems(p);
    forall c, d | (c, d) in Elems(p) && j.Touches(c, d) && (c, d) != (a, b) ensures !Seam(r, st, c, d) {
      if c != d {
        FarIsNoSeam(r, st, c, d, 4.0);
      }
    }
    forall c | c in j.ends && c < |r.sites| && c != a ensures Snap(r, st, p).ends[c] == st.ends[c] {
      assert !EndDone(r, st, Elems(p), c);
    }
    forall d | d in j.starts && d < |r.sites| && d != b ensures Snap(r, st, p).starts[d] == st.starts[d] {
      assert !StartDone(r, st, Elems(p), d);
    }
  }

  /** The junction ends up as its second visit, to `s`, leaves it. */
  lemma SecondDecides(r: Run, st: Seats, s0: Seats, v: (nat, nat), q: seq<(nat, nat)>, j: Junction, s: Seats,
                      among: set<(nat, nat)>, done: set<(nat, nat)>)
    requires Fits(r, st) && Fits(r, s0) && Fits(r, s) && IsMetric(r.dist) && InBounds(r, q)
    requires v.0 < |r.sites| && v.1 < |r.sites| && s == Step(r, s0, v.0, v.1) && MovedLittle(r, st, s, j)
    requires LoneJunction(r, st, among, j) && j.Inside(v.0, v.1)
    requires done <= among && Elems(q) <= Outer(among, j) && Progress(r, st, s0, done)
    ensures forall a :: a in j.ends && a < |r.sites| ==> Snap(r, s, q).ends[a] == s.ends[a]
    ensures forall b :: b in j.starts && b < |r.sites| ==> Snap(r, s, q).starts[b] == s.starts[b]
  {
    JunctionProgress(r, st, s0, s, among, done, j);
    JunctionStays(r, st, s, among, done, q, j);
  }

  // ----- a shared end, a shared start -----

  /** The junction is visited twice: at `first`, and after `p` once more, at `v`. */
  ghost predicate TwoVisits(p: seq<(nat, nat)>, v: (nat, nat), q: seq<(nat, nat)>, j: Junction, first: (nat, nat)) {
    && first in p && first != v
    && (forall i :: 0 <= i < |p| && j.Inside(p[i].0, p[i].1) ==> p[i] == first)
    && forall i :: 0 <= i < |q| ==> !j.Inside(q[i].0, q[i].1)
  }

  lemma SplitVisits(p: seq<(nat, nat)>, v: (nat, nat), q: seq<(nat, nat)>, j: Junction, first: (nat, nat))
    requires TwoVisits(p, v, q, j, first)
    ensures var among := Elems(p + [v] + q);
            Elems(p) <= among && Elems(p) <= Outer(among, j) + {first} && Elems(q) <= Outer(among, j)
  {
  }

  lemma SplitRun(r: Run, st: Seats, p: seq<(nat, nat)>, v: (nat, nat), q: seq<(nat, nat)>)
    requires Fits(r, st) && InBounds(r, p + [v] + q)
    ensures InBounds(r, p) && InBounds(r, q) && v.0 < |r.sites| && v.1 < |r.sites|
    ensures Snap(r, st, p + [v] + q) == Snap(r, Step(r, Snap(r, st, p), v.0, v.1), q)
  {
    var all := p + [v] + q;
    assert forall i :: 0 <= i < |p| ==> p[i] == all[i];
    assert forall i :: 0 <= i < |q| ==> q[i] == all[|p| + 1 + i];
    assert all[|p|] == v;
    SnapSnoc(r, st, p, v.0, v.1);
    SnapAppend(r, st, p + [v], q);
  }

  lemma SeamWithinReach(r: Run, st: Seats, a: nat, b: nat)
    requires Fits(r, st) && IsMetric(r.dist) && Seam(r, st, a, b)
    ensures r.dist(st.ends[a], st.starts[b]) <= Reach(r) && r.dist(st.starts[b], st.ends[a]) <= Reach(r)
    ensures r.dist(Meeting(r, st, a, b), st.ends[a]) <= Reach(r) && r.dist(Meeting(r, st, a, b), st.starts[b]) <= Reach(r)
  {
  }

  /** The second visit to a shared end. */
  lemma SecondStart(r: Run, st: Seats, s0: Seats, a: nat, b: nat, c: nat)
    requires Fits(r, st) && Fits(r, s0) && IsMetric(r.dist) && b != c && Seam(r, st, a, b) && Seam(r, st, a, c)
    requires s0.ends[a] == s0.starts[b] == Meeting(r, st, a, b) && s0.starts[c] == st.starts[c]
    ensures var m, s := Meeting(r, st, a, b), Step(r, s0, a, c);
            && MovedLittle(r, st, s, Junction({a}, {b, c}))
            && s.starts[b] == m
            && (Recognised(r, r.dist(m, st.starts[c]), a, c) ==>
                  s.ends[a] == s.starts[c] == (if EndYields(r, a, c) then st.starts[c] else m))
            && (!Recognised(r, r.dist(m, st.starts[c]), a, c) ==> s.ends[a] == m && s.starts[c] == st.starts[c])
  {
    SeamWithinReach(r, st, a, b);
    SeamWithinReach(r, st, a, c);
  }

  /** The second visit to a shared start. */
  lemma SecondEnd(r: Run, st: Seats, s0: Seats, a: nat, b: nat, c: nat)
    requires Fits(r, st) && Fits(r, s0) && IsMetric(r.dist) && a != b && Seam(r, st, a, c) && Seam(r, st, b, c)
    requires s0.ends[a] == s0.starts[c] == Meeting(r, st, a, c) && s0.ends[b] == st.ends[b]
    ensures var m, s := Meeting(r, st, a, c), Step(r, s0, b, c);
            && MovedLittle(r, st, s, Junction({a, b}, {c}))
            && s.ends[a] == m
            && (Recognised(r, r.dist(st.ends[b], m), b, c) ==>
                  s.ends[b] == s.starts[c] == (if EndYields(r, b, c) then m else st.ends[b]))
            && (!Recognised(r, r.dist(st.ends[b], m), b, c) ==> s.starts[c] == m && s.ends[b] == st.ends[b])
  {
    SeamWithinReach(r, st, a, c);
    SeamWithinReach(r, st, b, c);
  }

  /** An end within reach of two starts: both seams close exactly when the second
      start lies where the first one met the end, or is recognised there and does
      not make the end move on. An end that moves on leaves the first seam open. */
  lemma SharedEndClosesIff(r: Run, st: Seats, p: seq<(nat, nat)>, q: seq<(nat, nat)>, a: nat, b: nat, c: nat)
    requires Fits(r, st) && IsMetric(r.dist) && InBounds(r, p + [(a, c)] + q)
    requires b != c && Seam(r, st, a, b) && Seam(r, st, a, c)
    requires LoneJunction(r, st, Elems(p + [(a, c)] + q), Junction({a}, {b, c}))
    requires TwoVisits(p, (a, c), q, Junction({a}, {b, c}), (a, b))
    ensures var m, end := Meeting(r, st, a, b), Snap(r, st, p + [(a, c)] + q);
            var seen := Recognised(r, r.dist(m, st.starts[c]), a, c);
            && (end.ends[a] == end.starts[b] == end.starts[c] <==>
                m == st.starts[c] || (seen && !EndYields(r, a, c)))
            && (seen && EndYields(r, a, c) ==> end.ends[a] == st.starts[c] && end.starts[b] == m)
  {
    var j, among := Junction({a}, {b, c}), Elems(p + [(a, c)] + q);
    SplitRun(r, st, p, (a, c), q);
    SplitVisits(p, (a, c), q, j, (a, b));
    BeforeSecond(r, st, p, among, j, a, b);
    var s0 := Snap(r, st, p);
    SecondStart(r, st, s0, a, b, c);
    SecondDecides(r, st, s0, (a, c), q, j, Step(r, s0, a, c), among, Elems(p));
  }

  /** A start within reach of two ends, likewise. */
  lemma SharedStartClosesIff(r: Run, st: Seats, p: seq<(nat, nat)>, q: seq<(nat, nat)>, a: nat, b: nat, c: nat)
    requires Fits(r, st) && IsMetric(r.dist) && InBounds(r, p + [(b, c)] + q)
    requires a != b && Seam(r, st, a, c) && Seam(r, st, b, c)
    requires LoneJunction(r, st, Elems(p + [(b, c)] + q), Junction({a, b}, {c}))
    requires TwoVisits(p, (b, c), q, Junction({a, b}, {c}), (a, c))
    ensures var m, end := Meeting(r, st, a, c), Snap(r, st, p + [(b, c)] + q);
            var seen := Recognised(r, r.dist(st.ends[b], m), b, c);
            && (end.ends[a] == end.starts[c] == end.ends[b] <==>
                m == st.ends[b] || (seen && EndYields(r, b, c)))
            && (seen && !EndYields(r, b, c) ==> end.starts[c] == st.ends[b] && end.ends[a] == m)
  {
    var j, among := Junction({a, b}, {c}), Elems(p + [(b, c)] + q);
    SplitRun(r, st, p, (b, c), q);
    SplitVisits(p, (b, c), q, j, (a, c));
    BeforeSecond(r, st, p, among, j, a, c);
    var s0 := Snap(r, st, p);
    SecondEnd(r, st, s0, a, b, c);
    SecondDecides(r, st, s0, (b, c), q, j, Step(r, s0, b, c), among, Elems(p));
  }

  /** Where each pair is visited once, the earlier of a junction's two visits is the
      first one. */
  lemma VisitedInTurn(pairs: seq<(nat, nat)>, j: Junction, f: nat, n: nat)
    requires Distinct(pairs) && f < n < |pairs|
    requires forall p :: p in pairs && j.Inside(p.0, p.1) ==> p == pairs[f] || p == pairs[n]
    ensures pairs == pairs[..n] + [pairs[n]] + pairs[n + 1..]
    ensures TwoVisits(pairs[..n], pairs[n], pairs[n + 1..], j, pairs[f])
  {
    var p, q := pairs[..n], pairs[n + 1..];
    assert p[f] == pairs[f];
    forall i | 0 <= i < |p| && j.Inside(p[i].0, p[i].1) ensures p[i] == pairs[f] {
      assert p[i] == pairs[i] && pairs[i] in pairs && pairs[i] != pairs[n];
    }
    forall i | 0 <= i < |q| ensures !j.Inside(q[i].0, q[i].1) {
      var later := n + 1 + i;
      assert q[i] == pairs[later] && pairs[later] in pairs;
      assert pairs[later] != pairs[n] && pairs[later] != pairs[f];
    }
  }

  /** The loops' own visits: the start met second decides, however far apart in the
      run the two visits to the shared end lie. */
  lemma SharedEndInTheLoops(r: Run, id: nat -> string, st: Seats, f: nat, n: nat, a: nat, b: nat, c: nat)
    requires Fits(r, st) && IsMetric(r.dist) && b != c && Seam(r, st, a, b) && Seam(r, st, a, c)
    requires var pairs := AllVisits(r, id, st);
             && InBounds(r, pairs) && f < n < |pairs| && pairs[f] == (a, b) && pairs[n] == (a, c)
             && LoneJunction(r, st, Elems(pairs), Junction({a}, {b, c}))
    ensures var m, end := Meeting(r, st, a, b), Snap(r, st, AllVisits(r, id, st));
            end.ends[a] == end.starts[b] == end.starts[c] <==>
              m == st.starts[c] || (Recognised(r, r.dist(m, st.starts[c]), a, c) && !EndYields(r, a, c))
  {
    var pairs, j := AllVisits(r, id, st), Junction({a}, {b, c});
    AllVisitsOnce(r, id, st);
    VisitedInTurn(pairs, j, f, n);
    SharedEndClosesIff(r, st, pairs[..n], pairs[n + 1..], a, b, c);
  }

  /** A shared start, likewise. */
  lemma SharedStartInTheLoops(r: Run, id: nat -> string, st: Seats, f: nat, n: nat, a: nat, b: nat, c: nat)
    requires Fits(r, st) && IsMetric(r.dist) && a != b && Seam(r, st, a, c) && Seam(r, st, b, c)
    requires var pairs := AllVisits(r, id, st);
             && InBounds(r, pairs) && f < n < |pairs| && pairs[f] == (a, c) && pairs[n] == (b, c)
             && LoneJunction(r, st, Elems(pairs), Junction({a, b}, {c}))
    ensures var m, end := Meeting(r, st, a, c), Snap(r, st, AllVisits(r, id, st));
            end.ends[a] == end.starts[c] == end.ends[b] <==>
              m == st.ends[b] || (Recognised(r, r.dist(st.ends[b], m), b, c) && EndYields(r, b, c))
  {
    var pairs, j := AllVisits(r, id, st), Junction({a, b}, {c});
    AllVisitsOnce(r, id, st);
    VisitedInTurn(pairs, j, f, n);
    SharedStartClosesIff(r, st, pairs[..n], pairs[n + 1..], a, b, c);
  }

  // ----- such a run -----

  function Abs(x: real): real { if x < 0.0 then -x else x }

  /** Metres by taxicab, a hundred kilometres to the degree. */
  function Taxicab(p: Pt, q: Pt): real {
    100000.0 * (Abs(p.lat - q.lat) + Abs(p.lng - q.lng))
  }

  lemma TaxicabIsMetric()
    ensures IsMetric(Taxicab)
  {
    forall a, b, c | Corner(a, b, c) ensures Taxicab(a, c) <= Taxicab(a, b) + Taxicab(b, c) {
    }
  }

  /** The box the schema accepts coordinates from. */
  predicate InCountry(p: Pt) {
    41.2 <= p.lat <= 44.2 && 22.3 <= p.lng <= 28.7
  }

  /** Three zones of one road: the first ends twenty metres from both other starts,
      and only the third has TollTracker's coordinates. */
  const FORK_KEY: Key := ("A1", East)
  const FORK_IDS: seq<string> := ["1", "2", "3"]

  function ForkRun(): Run {
    var plain := Site(FORK_KEY, None, None, false);
    Run(Taxicab, JUNCTION_SNAP_M, [plain, plain, plain.(backed := true)])
  }

  function ForkSeats(end: real, second: real): Seats {
    Seats([Pt(42.0, 23.0), Pt(second, 23.5), Pt(42.4998, 23.5)], [Pt(end, 23.5), Pt(43.0, 24.0), Pt(43.5, 24.5)])
  }

  const FIRST_ROW: seq<(nat, nat)> := [(0, 0), (0, 1), (0, 2)]
  const OTHER_ROWS: seq<(nat, nat)> := [(1, 0), (1, 1), (1, 2), (2, 0), (2, 1), (2, 2)]

  function ForkVisits(st: Seats): seq<(nat, nat)>
    requires |st.starts| == 3
  {
    AllVisits(ForkRun(), IdAt(FORK_IDS), st)
  }

  lemma ForkLocated(st: Seats)
    requires |st.starts| == 3 && forall i :: 0 <= i < 3 ==> st.starts[i] != ORIGIN
    ensures Located(st, 3) == [0, 1, 2]
  {
    assert Located(st, 1) == [0];
    assert Located(st, 2) == [0, 1];
  }

  lemma ForkKeys()
    ensures LocatedKeys(ForkRun(), [0, 1, 2]) == [FORK_KEY, FORK_KEY, FORK_KEY]
  {
  }

  lemma ThreeAlike<K>(key: K)
    ensures IndicesOf([key, key, key], key, 3) == [0, 1, 2]
    ensures FirstKeys([key, key, key], 3) == [key]
  {
    var keys := [key, key, key];
    assert IndicesOf(keys, key, 1) == [0];
    assert IndicesOf(keys, key, 2) == [0, 1];
    assert FirstKeys(keys, 1) == [key];
    assert FirstKeys(keys, 2) == [key];
  }

  lemma ForkSorted()
    ensures Sort(ById(IdAt(FORK_IDS)), [0, 1, 2]) == [0, 1, 2]
  {
    var before := ById(IdAt(FORK_IDS));
    var id := IdAt(FORK_IDS);
    assert id(0) == "1" && id(1) == "2" && id(2) == "3";
    assert !Less("2", "1") && !Less("3", "1") && !Less("3", "2");
    assert before(1, 0) == Less("2", "1") && before(2, 0) == Less("3", "1") && before(2, 1) == Less("3", "2");
    SortKeepsOrdered<nat>(before, [0, 1, 2]);
  }

  lemma PickAll(all: seq<nat>)
    requires forall g :: 0 <= g < |all| ==> all[g] == g
    ensures Pick(all, all) == all
  {
  }

  lemma ForkMembers()
    ensures Pick([0, 1, 2], IndicesOf(LocatedKeys(ForkRun(), [0, 1, 2]), FORK_KEY, 3)) == [0, 1, 2]
  {
    ForkKeys();
    ThreeAlike(FORK_KEY);
    PickAll([0, 1, 2]);
  }

  lemma ForkGroup()
    ensures Group(ForkRun(), IdAt(FORK_IDS), [0, 1, 2], FORK_KEY) == [0, 1, 2]
  {
    ForkMembers();
    ForkSorted();
  }

  lemma ForkRows()
    ensures Rows([0, 1, 2], [0, 1, 2]) == FIRST_ROW + OTHER_ROWS
  {
    var g: seq<nat> := [0, 1, 2];
    assert g[..2] == [0, 1] && [0, 1][..1] == [0] && [0][..0] == [];
    assert Rows([0], g) == Row(0, g);
    assert Rows([0, 1], g) == Row(0, g) + Row(1, g);
  }

  /** All located zones are of one key. */
  lemma OneGroupVisits(r: Run, id: nat -> string, st: Seats, located: seq<nat>, keys: seq<Key>, key: Key, group: seq<nat>)
    requires |st.starts| == |r.sites| && located == Located(st, |r.sites|)
    requires keys == LocatedKeys(r, located) && FirstKeys(keys, |keys|) == [key]
    requires Group(r, id, located, key) == group
    ensures AllVisits(r, id, st) == Rows(group, group)
  {
    FlatMapOne(GroupVisits(r, id, located), key);
  }

  lemma ForkVisited(st: Seats)
    requires |st.starts| == 3 && forall i :: 0 <= i < 3 ==> st.starts[i] != ORIGIN
    ensures ForkVisits(st) == FIRST_ROW + OTHER_ROWS
  {
    ForkLocated(st);
    ForkKeys();
    ThreeAlike(FORK_KEY);
    ForkGroup();
    OneGroupVisits(ForkRun(), IdAt(FORK_IDS), st, [0, 1, 2], [FORK_KEY, FORK_KEY, FORK_KEY], FORK_KEY, [0, 1, 2]);
    ForkRows();
  }

  lemma ForkFirstRow(end: real, second: real)
    requires Abs(end - second) <= 0.0003 && Abs(end - 42.4998) <= 0.0003
    ensures InBounds(ForkRun(), FIRST_ROW)
    ensures Snap(ForkRun(), ForkSeats(end, second), FIRST_ROW) == ForkSeats(42.4998, end)
  {
    var r, st := ForkRun(), ForkSeats(end, second);
    assert FIRST_ROW[..2] == [(0, 0), (0, 1)] && FIRST_ROW[..2][..1] == [(0, 0)] && FIRST_ROW[..1][..0] == [];
    assert Snap(r, st, FIRST_ROW[..1]) == st;
    assert Step(r, st, 0, 1) == ForkSeats(end, end) by {
      assert st.starts[1 := Pt(end, 23.5)] == ForkSeats(end, end).starts;
    }
    assert Snap(r, st, FIRST_ROW[..2]) == ForkSeats(end, end);
    assert Step(r, ForkSeats(end, end), 0, 2) == ForkSeats(42.4998, end) by {
      assert ForkSeats(end, end).ends[0 := Pt(42.4998, 23.5)] == ForkSeats(42.4998, end).ends;
    }
  }

  lemma ForkOthersFar(end: real, second: real)
    requires 42.0 < end < 43.0 && 42.0 < second < 43.0
    ensures InBounds(ForkRun(), OTHER_ROWS)
    ensures Snap(ForkRun(), ForkSeats(end, second), OTHER_ROWS) == ForkSeats(end, second)
  {
    NothingToSnap(ForkRun(), ForkSeats(end, second), OTHER_ROWS);
  }

  lemma ForkSnap(end: real, second: real)
    requires 42.0 < end < 43.0 && 42.0 < second < 43.0
    requires Abs(end - second) <= 0.0003 && Abs(end - 42.4998) <= 0.0003
    ensures InBounds(ForkRun(), ForkVisits(ForkSeats(end, second)))
    ensures Snap(ForkRun(), ForkSeats(end, second), ForkVisits(ForkSeats(end, second))) == ForkSeats(42.4998, end)
  {
    var st := ForkSeats(end, second);
    ForkVisited(st);
    ForkFirstRow(end, second);
    ForkOthersFar(42.4998, end);
    SnapAppend(ForkRun(), st, FIRST_ROW, OTHER_ROWS);
  }

  /** All endpoints are where zones may be, and the first end is in two seams. */
  lemma ForkIsReal()
    ensures var r, st := ForkRun(), ForkSeats(42.5, 42.5002);
            && IsMetric(r.dist) && (forall i :: 0 <= i < 3 ==> InCountry(st.starts[i]) && InCountry(st.ends[i]))
            && Seam(r, st, 0, 1) && Seam(r, st, 0, 2)
  {
    TaxicabIsMetric();
  }

  /** One of the two seams is snapped to where the end was before it moved on, so it
      stays open, and snapping again moves it again. */
  lemma SharedEndDoesNotSettle()
    ensures var r, st := ForkRun(), ForkSeats(42.5, 42.5002);
            && InBounds(r, ForkVisits(st))
            && var once := Snap(r, st, ForkVisits(st));
            && InBounds(r, ForkVisits(once))
            && once.ends[0] != once.starts[1] && Snap(r, once, ForkVisits(once)) != once
  {
    ForkSnap(42.5, 42.5002);
    ForkSnap(42.4998, 42.5);
    assert ForkSeats(42.4998, 42.5).starts[1].lat == 42.5 && ForkSeats(42.4998, 42.4998).starts[1].lat == 42.4998;
  }
}
