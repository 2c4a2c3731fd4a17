/**
 Geometry alignment: the centerline is turned to run start to end, its terminals
 snapped onto or extended to the endpoints, and the published distance set to the
 arc length that results.
 */
module Alignment {
  import opened Prelude
  import opened Zones

  const SNAP_EPS_M := 5.0

  type Metric = (Pt, Pt) -> real

  function Length(dist: Metric, cl: seq<Pt>): real {
    if |cl| < 2 then 0.0 else Length(dist, cl[..|cl| - 1]) + dist(cl[|cl| - 2], cl[|cl| - 1])
  }

  /** Python's round: half to even. */
  function Round(x: real): int {
    var f := x.Floor;
    var d := x - f as real;
    if d < 0.5 || (d == 0.5 && f % 2 == 0) then f else f + 1
  }

  predicate EndFirst(dist: Metric, cl: seq<Pt>, start: Pt)
    requires cl != []
  {
    dist(cl[0], start) > dist(cl[|cl| - 1], start)
  }

  /** The line running from the start, as far as its ends can tell. */
  function Facing(dist: Metric, cl: seq<Pt>, start: Pt): (r: seq<Pt>)
    requires cl != []
    ensures |r| == |cl|
  {
    if EndFirst(dist, cl, start) then Reverse(cl) else cl
  }

  function FitFront(dist: Metric, cl: seq<Pt>, target: Pt): (r: seq<Pt>)
    requires cl != []
    ensures |r| >= |cl|
  {
    if dist(cl[0], target) <= SNAP_EPS_M then cl[0 := target] else [target] + cl
  }

  function FitBack(dist: Metric, cl: seq<Pt>, target: Pt): (r: seq<Pt>)
    requires cl != []
    ensures |r| >= |cl|
  {
    if dist(cl[|cl| - 1], target) <= SNAP_EPS_M then cl[|cl| - 1 := target] else cl + [target]
  }

  function AlignLine(dist: Metric, cl: seq<Pt>, start: Pt, end: Pt): (r: seq<Pt>)
    requires cl != []
    ensures |r| >= |cl|
  {
    FitBack(dist, FitFront(dist, Facing(dist, cl, start), start), end)
  }

  function Align(dist: Metric, z: Zone): Zone {
    if |z.centerline| < 2 then z
    else
      var cl := AlignLine(dist, z.centerline, z.start.at, z.end.at);
      var length := Round(Length(dist, cl));
      z.(centerline := cl, distance := if length >= 1 then length else 1)
  }

  /** The published length is the arc length of the published line to the nearest
      metre, the even one from halfway, and at least one metre. */
  lemma PublishedLengthMeasuresLine(dist: Metric, z: Zone)
    requires |z.centerline| >= 2
    ensures var r := Align(dist, z);
            var length := Length(dist, r.centerline);
            && r.distance >= 1
            && (length <= 0.5 ==> r.distance == 1)
            && (length > 0.5 ==> -0.5 <= r.distance as real - length <= 0.5)
            && (length > 0.5 && r.distance as real - length in {-0.5, 0.5} ==> r.distance % 2 == 0)
  {
    RoundIsNearest(Length(dist, AlignLine(dist, z.centerline, z.start.at, z.end.at)));
  }

  lemma RoundIsNearest(x: real)
    ensures -0.5 <= Round(x) as real - x <= 0.5
    ensures Round(x) as real - x in {-0.5, 0.5} ==> Round(x) % 2 == 0
  {
  }

  // ----- the loops -----

  method PolylineLength(dist: Metric, cl: seq<Pt>) returns (total: real)
    ensures total == Length(dist, cl)
  {
    total := 0.0;
    if cl == [] {
      return;
    }
    for i := 1 to |cl|
      invariant total == Length(dist, cl[..i])
    {
      assert cl[..i + 1][..i] == cl[..i];
      total := total + dist(cl[i - 1], cl[i]);
    }
    assert cl[..|cl|] == cl;
  }

  /** `cl` is reversed, then changed at the front, then at the back. */
  method AlignCenterline(dist: Metric, z: Zone) returns (r: Zone)
    ensures r == Align(dist, z)
  {
    if |z.centerline| < 2 {
      return z;
    }
    var cl := z.centerline;
    var start, end := z.start.at, z.end.at;
    ghost var faced := Facing(dist, cl, start);
    ghost var fronted := FitFront(dist, faced, start);
    if dist(cl[0], start) > dist(cl[|cl| - 1], start) {
      cl := Reverse(cl);
    }
    assert cl == faced;
    if dist(cl[0], start) <= SNAP_EPS_M {
      cl := cl[0 := start];
    } else {
      cl := [start] + cl;
    }
    assert cl == fronted;
    if dist(cl[|cl| - 1], end) <= SNAP_EPS_M {
      cl := cl[|cl| - 1 := end];
    } else {
      cl := cl + [end];
    }
    assert cl == AlignLine(dist, z.centerline, start, end);
    var length := PolylineLength(dist, cl);
    r := z.(centerline := cl, distance := if Round(length) >= 1 then Round(length) else 1);
  }

  // ----- what alignment achieves -----

  /** The endpoints frame the line; every interior point is kept in order, and a
      terminal is kept too unless it was close enough to be the endpoint itself. */
  lemma AlignedShape(dist: Metric, cl: seq<Pt>, start: Pt, end: Pt)
    requires |cl| >= 2
    ensures var o := Facing(dist, cl, start);
            var n := |o|;
            AlignLine(dist, cl, start, end)
            == [start] + (if dist(o[0], start) > SNAP_EPS_M then [o[0]] else []) + o[1..n - 1]
               + (if dist(o[n - 1], end) > SNAP_EPS_M then [o[n - 1]] else []) + [end]
  {
    var o := Facing(dist, cl, start);
    var n := |o|;
    assert o == [o[0]] + o[1..n - 1] + [o[n - 1]];
    var front := FitFront(dist, o, start);
    assert front == [start] + (if dist(o[0], start) > SNAP_EPS_M then [o[0]] else []) + o[1..n - 1] + [o[n - 1]];
    assert front[|front| - 1] == o[n - 1];
  }

  lemma AlignedEnds(dist: Metric, cl: seq<Pt>, start: Pt, end: Pt)
    requires |cl| >= 2
    ensures var r := AlignLine(dist, cl, start, end); r[0] == start && r[|r| - 1] == end
  {
    AlignedShape(dist, cl, start, end);
  }

  lemma {:induction false} LengthSplit(dist: Metric, a: seq<Pt>, b: seq<Pt>)
    requires a != [] && b != []
    ensures Length(dist, a + b) == Length(dist, a) + dist(a[|a| - 1], b[0]) + Length(dist, b)
    decreases |b|
  {
    var ab := a + b;
    if |b| == 1 {
      assert ab[..|ab| - 1] == a;
    } else {
      assert ab[..|ab| - 1] == a + b[..|b| - 1];
      LengthSplit(dist, a, b[..|b| - 1]);
    }
  }

  lemma {:induction false} LengthReverse(dist: Metric, cl: seq<Pt>)
    requires IsMetric(dist)
    ensures Length(dist, Reverse(cl)) == Length(dist, cl)
    decreases |cl|
  {
    if |cl| >= 2 {
      LengthReverse(dist, cl[1..]);
      LengthSplit(dist, Reverse(cl[1..]), [cl[0]]);
      LengthSplit(dist, [cl[0]], cl[1..]);
      assert [cl[0]] + cl[1..] == cl;
      assert Reverse(cl[1..])[|cl| - 2] == cl[1];
    }
  }

  lemma FitFrontLength(dist: Metric, cl: seq<Pt>, target: Pt)
    requires IsMetric(dist) && |cl| >= 2
    ensures var d := Length(dist, FitFront(dist, cl, target)) - Length(dist, cl);
            -dist(cl[0], target) <= d <= dist(cl[0], target)
  {
    LengthSplit(dist, [cl[0]], cl[1..]);
    assert [cl[0]] + cl[1..] == cl;
    if dist(cl[0], target) <= SNAP_EPS_M {
      LengthSplit(dist, [target], cl[1..]);
      assert [target] + cl[1..] == cl[0 := target];
      Triangle(dist, target, cl[0], cl[1]);
      Triangle(dist, cl[0], target, cl[1]);
    } else {
      LengthSplit(dist, [target], cl);
    }
  }

  lemma LengthWithLast(dist: Metric, cl: seq<Pt>, target: Pt)
    requires |cl| >= 2
    ensures var n := |cl| - 1;
            Length(dist, cl[n := target]) == Length(dist, cl) - dist(cl[n - 1], cl[n]) + dist(cl[n - 1], target)
  {
    var n := |cl| - 1;
    assert cl[n := target][..n] == cl[..n];
  }

  lemma LengthLonger(dist: Metric, cl: seq<Pt>, target: Pt)
    requires cl != []
    ensures Length(dist, cl + [target]) == Length(dist, cl) + dist(cl[|cl| - 1], target)
  {
    assert (cl + [target])[..|cl|] == cl;
  }

  lemma FitBackLength(dist: Metric, cl: seq<Pt>, target: Pt)
    requires IsMetric(dist) && |cl| >= 2
    ensures var d := Length(dist, FitBack(dist, cl, target)) - Length(dist, cl);
            -dist(cl[|cl| - 1], target) <= d <= dist(cl[|cl| - 1], target)
  {
    var a, b := cl[|cl| - 2], cl[|cl| - 1];
    LengthWithLast(dist, cl, target);
    LengthLonger(dist, cl, target);
    Triangle(dist, a, b, target);
    Triangle(dist, a, target, b);
  }

  /** Alignment changes the arc length by at most the two gaps it closes. */
  lemma AlignedLength(dist: Metric, cl: seq<Pt>, start: Pt, end: Pt)
    requires IsMetric(dist) && |cl| >= 2
    ensures var o := Facing(dist, cl, start);
            var d := Length(dist, AlignLine(dist, cl, start, end)) - Length(dist, cl);
            var gaps := dist(o[0], start) + dist(o[|o| - 1], end);
            -gaps <= d <= gaps
  {
    var o := Facing(dist, cl, start);
    LengthReverse(dist, cl);
    FitFrontLength(dist, o, start);
    var front := FitFront(dist, o, start);
    assert front[|front| - 1] == o[|o| - 1];
    FitBackLength(dist, front, end);
  }

  /** An aligned line is never stored end first, so the reversed-centerline
      warning cannot fire on it. */
  lemma AlignedNeverReversed(dist: Metric, z: Zone)
    requires IsMetric(dist) && |z.centerline| >= 2
    ensures !EndFirst(dist, Align(dist, z).centerline, z.start.at)
  {
    AlignedEnds(dist, z.centerline, z.start.at, z.end.at);
  }

  /** A line that already runs between the endpoints is left alone. */
  lemma AlignedLineFixed(dist: Metric, cl: seq<Pt>, start: Pt, end: Pt)
    requires IsMetric(dist) && |cl| >= 2 && cl[0] == start && cl[|cl| - 1] == end
    ensures AlignLine(dist, cl, start, end) == cl
  {
    assert dist(start, start) == 0.0 && dist(end, end) == 0.0;
    assert Facing(dist, cl, start) == cl;
    assert FitFront(dist, cl, start) == cl[0 := start] == cl;
    assert FitBack(dist, cl, end) == cl[|cl| - 1 := end] == cl;
  }

  /** Aligning again changes nothing, the published distance included. */
  lemma AlignIdempotent(dist: Metric, z: Zone)
    requires IsMetric(dist)
    ensures Align(dist, Align(dist, z)) == Align(dist, z)
  {
    if |z.centerline| >= 2 {
      var start, end := z.start.at, z.end.at;
      AlignedEnds(dist, z.centerline, start, end);
      AlignedLineFixed(dist, AlignLine(dist, z.centerline, start, end), start, end);
    }
  }
}
