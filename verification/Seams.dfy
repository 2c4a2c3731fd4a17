/**
 Seam snapping: where one zone ends and the next of its road and direction begins,
 both endpoints are the same camera and are made to coincide, pair after pair, each
 step seeing what the steps before it moved.
 */
module Seams {
  import opened Prelude
  import opened Text
  import opened Zones

  const JUNCTION_SNAP_M := 30.0
  const JUNCTION_GAP_MIN_M := 10.0
  const JUNCTION_GAP_MAX_M := 500.0

  type Metric = (Pt, Pt) -> real

  /** What a step reads of a zone but never changes. */
  datatype Site = Site(key: Key, startKm: Option<string>, endKm: Option<string>, backed: bool)

  /** The endpoints, which steps move. */
  datatype Seats = Seats(starts: seq<Pt>, ends: seq<Pt>)

  /** The fixed part of a run: distance, snap radius and the sites. */
  datatype Run = Run(dist: Metric, snapM: real, sites: seq<Site>)

  ghost predicate Fits(r: Run, st: Seats) {
    |st.starts| == |r.sites| && |st.ends| == |r.sites|
  }

  predicate SameMarker(r: Run, a: nat, b: nat)
    requires a < |r.sites| && b < |r.sites|
  {
    Truthy(r.sites[a].endKm) && r.sites[a].endKm == r.sites[b].startKm
  }

  /** Close enough to be one camera, or numbered as one and not too far. */
  predicate Recognised(r: Run, gap: real, a: nat, b: nat)
    requires a < |r.sites| && b < |r.sites|
  {
    gap <= r.snapM || (SameMarker(r, a, b) && gap < JUNCTION_GAP_MAX_M)
  }

  /** The end of `a` yields to the start of `b` only for better coordinates. */
  predicate EndYields(r: Run, a: nat, b: nat)
    requires a < |r.sites| && b < |r.sites|
  {
    r.sites[b].backed && !r.sites[a].backed
  }

  function Step(r: Run, st: Seats, a: nat, b: nat): (st': Seats)
    requires Fits(r, st) && a < |r.sites| && b < |r.sites|
    ensures Fits(r, st')
  {
    var gap := r.dist(st.ends[a], st.starts[b]);
    if a == b || gap <= 0.0 || !Recognised(r, gap, a, b) then st
    else if EndYields(r, a, b) then st.(ends := st.ends[a := st.starts[b]])
    else st.(starts := st.starts[b := st.ends[a]])
  }

  predicate InBounds(r: Run, pairs: seq<(nat, nat)>) {
    forall i :: 0 <= i < |pairs| ==> pairs[i].0 < |r.sites| && pairs[i].1 < |r.sites|
  }

  function Snap(r: Run, st: Seats, pairs: seq<(nat, nat)>): (st': Seats)
    requires Fits(r, st) && InBounds(r, pairs)
    ensures Fits(r, st')
  {
    if pairs == [] then st
    else
      var n := |pairs| - 1;
      Step(r, Snap(r, st, pairs[..n]), pairs[n].0, pairs[n].1)
  }

  // ----- when no shared side yields -----

  function Reach(r: Run): real {
    Max(r.snapM, JUNCTION_GAP_MAX_M)
  }

  /** Two zones of one group. */
  predicate Neighbours(r: Run, a: nat, b: nat) {
    a < |r.sites| && b < |r.sites| && a != b && r.sites[a].key == r.sites[b].key
  }

  /** `a` ends where `b` starts. */
  predicate Seam(r: Run, st: Seats, a: nat, b: nat)
    requires Fits(r, st)
  {
    Neighbours(r, a, b) && Recognised(r, r.dist(st.ends[a], st.starts[b]), a, b)
  }

  predicate Far(r: Run, st: Seats, a: nat, b: nat, times: real)
    requires Fits(r, st)
  {
    a < |r.sites| && b < |r.sites| && r.dist(st.ends[a], st.starts[b]) > times * Reach(r)
  }

  /** Among the pairs visited: two zones either meet in a seam or are far apart, and
      an end or a start in two seams is never the side that yields. */
  ghost predicate ClearSeams(r: Run, st: Seats, among: set<(nat, nat)>)
    requires Fits(r, st)
  {
    && (forall a, b :: (a, b) in among && a != b ==> Seam(r, st, a, b) || Far(r, st, a, b, 3.0))
    && (forall a, b, c :: (a, b) in among && (a, c) in among && b != c && Seam(r, st, a, b) && Seam(r, st, a, c) ==>
          !EndYields(r, a, b))
    && (forall a, b, c :: (a, c) in among && (b, c) in among && a != b && Seam(r, st, a, c) && Seam(r, st, b, c) ==>
          EndYields(r, a, c))
  }

  /** The pairs visited are all pairs of located zones of one group, and no others. */
  ghost predicate Visits(r: Run, pairs: seq<(nat, nat)>, located: set<nat>) {
    forall a, b :: (a, b) in pairs <==>
      a in located && b in located && a < |r.sites| && b < |r.sites| && r.sites[a].key == r.sites[b].key
  }

  lemma VisitsInBounds(r: Run, pairs: seq<(nat, nat)>, located: set<nat>)
    requires Visits(r, pairs, located)
    ensures InBounds(r, pairs)
  {
    forall i | 0 <= i < |pairs| ensures pairs[i].0 < |r.sites| && pairs[i].1 < |r.sites| {
      assert (pairs[i].0, pairs[i].1) in pairs;
    }
  }

  /** Where the two sides of a seam meet. */
  function Meeting(r: Run, st: Seats, a: nat, b: nat): Pt
    requires Fits(r, st) && a < |r.sites| && b < |r.sites|
  {
    if EndYields(r, a, b) then st.starts[b] else st.ends[a]
  }

  ghost predicate EndDone(r: Run, st0: Seats, done: set<(nat, nat)>, a: nat)
    requires Fits(r, st0)
  {
    exists b :: (a, b) in done && Seam(r, st0, a, b)
  }

  ghost predicate StartDone(r: Run, st0: Seats, done: set<(nat, nat)>, b: nat)
    requires Fits(r, st0)
  {
    exists a :: (a, b) in done && Seam(r, st0, a, b)
  }

  /** After visiting `done`: their seams meet, everything else is where it was. */
  ghost predicate Progress(r: Run, st0: Seats, st: Seats, done: set<(nat, nat)>)
    requires Fits(r, st0) && Fits(r, st)
  {
    && (forall a, b :: (a, b) in done && Seam(r, st0, a, b) ==>
          st.ends[a] == Meeting(r, st0, a, b) && st.starts[b] == Meeting(r, st0, a, b))
    && (forall a :: 0 <= a < |r.sites| && !EndDone(r, st0, done, a) ==> st.ends[a] == st0.ends[a])
    && (forall b :: 0 <= b < |r.sites| && !StartDone(r, st0, done, b) ==> st.starts[b] == st0.starts[b])
  }

  /** No end or start has moved farther than the gap of a seam of its own. */
  lemma MovedWithinGap(r: Run, st0: Seats, st: Seats, done: set<(nat, nat)>, a: nat)
    requires Fits(r, st0) && Fits(r, st) && Progress(r, st0, st, done) && IsMetric(r.dist) && a < |r.sites|
    ensures st.ends[a] == st0.ends[a]
            || exists b :: (a, b) in done && Seam(r, st0, a, b) && r.dist(st.ends[a], st0.ends[a]) <= r.dist(st0.ends[a], st0.starts[b])
    ensures st.starts[a] == st0.starts[a]
            || exists b :: (b, a) in done && Seam(r, st0, b, a) && r.dist(st.starts[a], st0.starts[a]) <= r.dist(st0.ends[b], st0.starts[a])
  {
    if EndDone(r, st0, done, a) {
      var b :| (a, b) in done && Seam(r, st0, a, b);
      assert r.dist(st.ends[a], st0.ends[a]) <= r.dist(st0.ends[a], st0.starts[b]);
    }
    if StartDone(r, st0, done, a) {
      var b :| (b, a) in done && Seam(r, st0, b, a);
      assert r.dist(st.starts[a], st0.starts[a]) <= r.dist(st0.ends[b], st0.starts[a]);
    }
  }

  lemma MovedWithinReach(r: Run, st0: Seats, st: Seats, done: set<(nat, nat)>, a: nat)
    requires Fits(r, st0) && Fits(r, st) && Progress(r, st0, st, done) && IsMetric(r.dist) && a < |r.sites|
    ensures r.dist(st.ends[a], st0.ends[a]) <= Reach(r)
    ensures r.dist(st.starts[a], st0.starts[a]) <= Reach(r)
  {
    MovedWithinGap(r, st0, st, done, a);
  }

  /** Zones that were far apart stay out of reach of each other. */
  lemma FarStaysFar(r: Run, st0: Seats, st: Seats, done: set<(nat, nat)>, a: nat, b: nat)
    requires Fits(r, st0) && Fits(r, st) && Progress(r, st0, st, done) && IsMetric(r.dist) && Far(r, st0, a, b, 3.0)
    ensures r.dist(st.ends[a], st.starts[b]) > Reach(r)
  {
    MovedWithinReach(r, st0, st, done, a);
    MovedWithinReach(r, st0, st, done, b);
    Triangle(r.dist, st0.ends[a], st.ends[a], st0.starts[b]);
    Triangle(r.dist, st.ends[a], st.starts[b], st0.starts[b]);
  }

  /** A seam not yet visited is still untouched on both sides. */
  lemma FreshSeam(r: Run, st0: Seats, st: Seats, done: set<(nat, nat)>, a: nat, b: nat)
    requires Fits(r, st0) && Fits(r, st) && Progress(r, st0, st, done) && ClearSeams(r, st0, done + {(a, b)})
    requires Seam(r, st0, a, b) && (a, b) !in done
    ensures st.ends[a] == st0.ends[a] && st.starts[b] == st0.starts[b]
  {
    var among := done + {(a, b)};
    assert (a, b) in among;
    if EndDone(r, st0, done, a) {
      var c :| (a, c) in done && Seam(r, st0, a, c);
      assert (a, c) in among && !EndYields(r, a, c);
    }
    if StartDone(r, st0, done, b) {
      var c :| (c, b) in done && Seam(r, st0, c, b);
      assert (c, b) in among && EndYields(r, c, b);
    }
  }

  /** One visit keeps the invariant. */
  lemma StepProgress(r: Run, st0: Seats, st: Seats, done: set<(nat, nat)>, a: nat, b: nat)
    requires Fits(r, st0) && Fits(r, st) && Progress(r, st0, st, done) && IsMetric(r.dist)
    requires ClearSeams(r, st0, done + {(a, b)}) && a < |r.sites| && b < |r.sites|
    ensures Progress(r, st0, Step(r, st, a, b), done + {(a, b)})
  {
    assert (a, b) in done + {(a, b)};
    if Seam(r, st0, a, b) {
      SeamStep(r, st0, st, done, a, b);
    } else {
      if a != b {
        FarStaysFar(r, st0, st, done, a, b);
      }
      assert Step(r, st, a, b) == st;
      NoSeamNothingNew(r, st0, st, done, a, b);
    }
  }

  lemma DoneGrows(r: Run, st0: Seats, done: set<(nat, nat)>, done': set<(nat, nat)>, c: nat)
    requires Fits(r, st0) && done <= done'
    ensures EndDone(r, st0, done, c) ==> EndDone(r, st0, done', c)
    ensures StartDone(r, st0, done, c) ==> StartDone(r, st0, done', c)
  {
    if EndDone(r, st0, done, c) {
      var d :| (c, d) in done && Seam(r, st0, c, d);
      assert (c, d) in done';
    }
    if StartDone(r, st0, done, c) {
      var d :| (d, c) in done && Seam(r, st0, d, c);
      assert (d, c) in done';
    }
  }

  lemma NoSeamNothingNew(r: Run, st0: Seats, st: Seats, done: set<(nat, nat)>, a: nat, b: nat)
    requires Fits(r, st0) && Fits(r, st) && Progress(r, st0, st, done) && !Seam(r, st0, a, b)
    ensures Progress(r, st0, st, done + {(a, b)})
  {
    forall c | 0 <= c < |r.sites| && !EndDone(r, st0, done + {(a, b)}, c) ensures !EndDone(r, st0, done, c) {
      DoneGrows(r, st0, done, done + {(a, b)}, c);
    }
    forall c | 0 <= c < |r.sites| && !StartDone(r, st0, done + {(a, b)}, c) ensures !StartDone(r, st0, done, c) {
      DoneGrows(r, st0, done, done + {(a, b)}, c);
    }
  }

  /** What a visit to a fresh seam does, and leaves alone. */
  lemma FreshStep(r: Run, st0: Seats, st: Seats, done: set<(nat, nat)>, a: nat, b: nat)
    requires Fits(r, st0) && Fits(r, st) && Progress(r, st0, st, done) && IsMetric(r.dist)
    requires ClearSeams(r, st0, done + {(a, b)}) && Seam(r, st0, a, b) && (a, b) !in done
    ensures var st' := Step(r, st, a, b);
            && st'.ends[a] == Meeting(r, st0, a, b) && st'.starts[b] == Meeting(r, st0, a, b)
            && (forall c :: 0 <= c < |r.sites| && (c != a || !EndYields(r, a, b)) ==> st'.ends[c] == st.ends[c])
            && (forall c :: 0 <= c < |r.sites| && (c != b || EndYields(r, a, b)) ==> st'.starts[c] == st.starts[c])
  {
    FreshSeam(r, st0, st, done, a, b);
  }

  lemma SeamStep(r: Run, st0: Seats, st: Seats, done: set<(nat, nat)>, a: nat, b: nat)
    requires Fits(r, st0) && Fits(r, st) && Progress(r, st0, st, done) && IsMetric(r.dist)
    requires ClearSeams(r, st0, done + {(a, b)}) && Seam(r, st0, a, b)
    ensures Progress(r, st0, Step(r, st, a, b), done + {(a, b)})
  {
    var done' := done + {(a, b)};
    var st' := Step(r, st, a, b);
    assert (a, b) in done';
    if (a, b) in done {
      assert done' == done;
      assert r.dist(st.ends[a], st.starts[b]) == 0.0;
    } else {
      FreshStep(r, st0, st, done, a, b);
      forall c, d | (c, d) in done' && Seam(r, st0, c, d)
        ensures st'.ends[c] == Meeting(r, st0, c, d) && st'.starts[d] == Meeting(r, st0, c, d)
      {
        if (c, d) != (a, b) {
          assert (c, d) in done;
          assert c == a ==> !EndYields(r, a, b);
          assert d == b ==> EndYields(r, a, b);
        }
      }
      forall c | 0 <= c < |r.sites| && !EndDone(r, st0, done', c) ensures st'.ends[c] == st0.ends[c] {
        assert c != a by {
          assert EndDone(r, st0, done', a);
        }
        DoneGrows(r, st0, done, done', c);
      }
      forall c | 0 <= c < |r.sites| && !StartDone(r, st0, done', c) ensures st'.starts[c] == st0.starts[c] {
        assert c != b by {
          assert StartDone(r, st0, done', b);
        }
        DoneGrows(r, st0, done, done', c);
      }
    }
  }

  lemma ClearFewer(r: Run, st: Seats, few: set<(nat, nat)>, many: set<(nat, nat)>)
    requires Fits(r, st) && ClearSeams(r, st, many) && few <= many
    ensures ClearSeams(r, st, few)
  {
    assert forall p :: p in few ==> p in many;
  }

  lemma {:induction false} SnapProgressFrom(r: Run, st0: Seats, st: Seats, done: set<(nat, nat)>, pairs: seq<(nat, nat)>)
    requires Fits(r, st0) && Fits(r, st) && Progress(r, st0, st, done) && IsMetric(r.dist) && InBounds(r, pairs)
    requires ClearSeams(r, st0, done + Elems(pairs))
    ensures Progress(r, st0, Snap(r, st, pairs), done + Elems(pairs))
    decreases |pairs|
  {
    if pairs == [] {
      assert done + Elems(pairs) == done;
    } else {
      var n := |pairs| - 1;
      var before, p := done + Elems(pairs[..n]), pairs[n];
      ElemsSnoc(pairs);
      assert done + (Elems(pairs[..n]) + {p}) == before + {(p.0, p.1)};
      ClearFewer(r, st0, before, done + Elems(pairs));
      SnapProgressFrom(r, st0, st, done, pairs[..n]);
      StepProgress(r, st0, Snap(r, st, pairs[..n]), before, p.0, p.1);
    }
  }

  lemma SnapProgress(r: Run, st: Seats, pairs: seq<(nat, nat)>)
    requires Fits(r, st) && IsMetric(r.dist) && InBounds(r, pairs) && ClearSeams(r, st, Elems(pairs))
    ensures Progress(r, st, Snap(r, st, pairs), Elems(pairs))
  {
    assert {} + Elems(pairs) == Elems(pairs);
    SnapProgressFrom(r, st, st, {}, pairs);
  }

  lemma {:induction false} SnapAppend(r: Run, st: Seats, p: seq<(nat, nat)>, q: seq<(nat, nat)>)
    requires Fits(r, st) && InBounds(r, p) && InBounds(r, q)
    ensures InBounds(r, p + q) && Snap(r, st, p + q) == Snap(r, Snap(r, st, p), q)
    decreases |q|
  {
    if q == [] {
      assert p + q == p;
    } else {
      var n := |q| - 1;
      assert (p + q)[..|p + q| - 1] == p + q[..n];
      SnapAppend(r, st, p, q[..n]);
    }
  }

  lemma SnapSnoc(r: Run, st: Seats, p: seq<(nat, nat)>, a: nat, b: nat)
    requires Fits(r, st) && InBounds(r, p) && a < |r.sites| && b < |r.sites|
    ensures InBounds(r, p + [(a, b)]) && Snap(r, st, p + [(a, b)]) == Step(r, Snap(r, st, p), a, b)
  {
    assert (p + [(a, b)])[..|p|] == p;
  }

  // ----- the results -----

  /** Every seam coincides exactly, at the better side's coordinates; the end of a
      backed zone facing an unbacked one stays, and so does such a start. */
  lemma SeamsCoincide(r: Run, st: Seats, pairs: seq<(nat, nat)>, a: nat, b: nat)
    requires Fits(r, st) && IsMetric(r.dist) && InBounds(r, pairs) && ClearSeams(r, st, Elems(pairs))
    requires (a, b) in pairs && Seam(r, st, a, b)
    ensures var st' := Snap(r, st, pairs);
            && st'.ends[a] == st'.starts[b]
            && (EndYields(r, a, b) ==> st'.starts[b] == st.starts[b])
            && (!EndYields(r, a, b) ==> st'.ends[a] == st.ends[a])
  {
    SnapProgress(r, st, pairs);
    assert (a, b) in Elems(pairs);
  }

  /** An endpoint moves only if it is in a seam, and no farther than its gap. */
  lemma SnapMovesLittle(r: Run, st: Seats, pairs: seq<(nat, nat)>, a: nat)
    requires Fits(r, st) && IsMetric(r.dist) && InBounds(r, pairs) && ClearSeams(r, st, Elems(pairs))
    requires a < |r.sites|
    ensures var st' := Snap(r, st, pairs);
            && (st'.ends[a] == st.ends[a]
                || exists b: nat :: Seam(r, st, a, b) && r.dist(st'.ends[a], st.ends[a]) <= r.dist(st.ends[a], st.starts[b]))
            && (st'.starts[a] == st.starts[a]
                || exists b: nat :: Seam(r, st, b, a) && r.dist(st'.starts[a], st.starts[a]) <= r.dist(st.ends[b], st.starts[a]))
  {
    SnapProgress(r, st, pairs);
    MovedWithinGap(r, st, Snap(r, st, pairs), Elems(pairs), a);
  }

  /** Afterwards two zones visited together meet exactly or are out of reach. */
  lemma SnappedGaps(r: Run, st: Seats, pairs: seq<(nat, nat)>, a: nat, b: nat)
    requires Fits(r, st) && IsMetric(r.dist) && InBounds(r, pairs) && ClearSeams(r, st, Elems(pairs))
    requires (a, b) in pairs && a != b && a < |r.sites| && b < |r.sites|
    ensures var st' := Snap(r, st, pairs);
            var gap := r.dist(st'.ends[a], st'.starts[b]);
            gap == 0.0 || gap > Reach(r)
  {
    assert (a, b) in Elems(pairs);
    SnapProgress(r, st, pairs);
    if Seam(r, st, a, b) {
      SeamsCoincide(r, st, pairs, a, b);
    } else {
      FarStaysFar(r, st, Snap(r, st, pairs), Elems(pairs), a, b);
    }
  }

  lemma {:induction false} NothingToSnap(r: Run, st: Seats, pairs: seq<(nat, nat)>)
    requires Fits(r, st) && InBounds(r, pairs)
    requires forall i :: 0 <= i < |pairs| && pairs[i].0 != pairs[i].1 ==>
      var gap := r.dist(st.ends[pairs[i].0], st.starts[pairs[i].1]); gap == 0.0 || gap > Reach(r)
    ensures Snap(r, st, pairs) == st
  {
    if pairs != [] {
      var n := |pairs| - 1;
      assert forall i :: 0 <= i < n ==> pairs[..n][i] == pairs[i];
      NothingToSnap(r, st, pairs[..n]);
    }
  }

  /** Snapping again along the same visits changes nothing. */
  lemma SnapIdempotent(r: Run, st: Seats, pairs: seq<(nat, nat)>)
    requires Fits(r, st) && IsMetric(r.dist) && InBounds(r, pairs) && ClearSeams(r, st, Elems(pairs))
    ensures Snap(r, Snap(r, st, pairs), pairs) == Snap(r, st, pairs)
  {
    forall i | 0 <= i < |pairs| && pairs[i].0 != pairs[i].1
      ensures var st' := Snap(r, st, pairs);
              var gap := r.dist(st'.ends[pairs[i].0], st'.starts[pairs[i].1]); gap == 0.0 || gap > Reach(r)
    {
      assert (pairs[i].0, pairs[i].1) in pairs;
      SnappedGaps(r, st, pairs, pairs[i].0, pairs[i].1);
    }
    NothingToSnap(r, Snap(r, st, pairs), pairs);
  }
}
