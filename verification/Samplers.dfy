/**
 Even spacing along a polyline, done three ways: a carry into each segment, a
 running target, and a cursor that overwrites the vertex it stands on. Vertices
 are given by their arc length from the start, so the distance of two consecutive
 ones is a difference and a point some way into a segment is a sum.
 */
module Samplers {
  import opened Prelude
  import opened Alignment
  import opened Zones

  /** Vertex positions: from 0, never backwards. */
  ghost predicate IsLine(line: seq<real>) {
    (line != [] ==> line[0] == 0.0) && forall i, j :: 0 <= i <= j < |line| ==> line[i] <= line[j]
  }

  /** The k-th multiple of the step. */
  function Mark(step: real, k: nat): real {
    k as real * step
  }

  lemma MarkNext(step: real, k: nat)
    ensures Mark(step, k + 1) == Mark(step, k) + step && Mark(step, 0) == 0.0
  {
    assert (k + 1) as real == k as real + 1.0;
  }

  lemma {:induction false} MarksGrow(step: real, j: nat, k: nat)
    requires step > 0.0 && j < k
    ensures Mark(step, j) + step <= Mark(step, k)
    decreases k
  {
    MarkNext(step, k - 1);
    if j < k - 1 {
      MarksGrow(step, j, k - 1);
    }
  }

  function Marks(step: real, n: nat): (r: seq<real>)
    ensures |r| == n
  {
    seq(n, k requires 0 <= k < n => Mark(step, k))
  }

  lemma MarksSnoc(step: real, n: nat)
    ensures Marks(step, n + 1) == Marks(step, n) + [Mark(step, n)]
  {
  }

  /** The start and every further multiple of the step before `length`. */
  ghost predicate MarksBelow(step: real, length: real, n: nat) {
    1 <= n && (n == 1 || Mark(step, n - 1) < length) && length <= Mark(step, n)
  }

  /** The start and every further multiple of the step up to `length`. */
  ghost predicate MarksUpTo(step: real, length: real, n: nat) {
    1 <= n && (n == 1 || Mark(step, n - 1) <= length) && length < Mark(step, n)
  }

  /** Membership, not just a count. */
  lemma MarksBelowAreAll(step: real, length: real, n: nat, k: nat)
    requires step > 0.0 && MarksBelow(step, length, n)
    ensures k < n <==> k == 0 || Mark(step, k) < length
  {
    if 0 < k < n - 1 {
      MarksGrow(step, k, n - 1);
    }
    if n < k {
      MarksGrow(step, n, k);
    }
  }

  lemma MarksUpToAreAll(step: real, length: real, n: nat, k: nat)
    requires step > 0.0 && MarksUpTo(step, length, n)
    ensures k < n <==> k == 0 || Mark(step, k) <= length
  {
    if 0 < k < n - 1 {
      MarksGrow(step, k, n - 1);
    }
    if n < k {
      MarksGrow(step, n, k);
    }
  }

  /** One step less to go: why the inner loops end. */
  lemma OneStepLess(x: real, step: real)
    requires step > 0.0
    ensures (x - step) / step == x / step - 1.0
  {
    var q := x / step;
    assert q * step == x;
    DivIs(x - step, step, q - 1.0);
  }

  lemma DivIs(x: real, step: real, q: real)
    requires step > 0.0 && x == q * step
    ensures x / step == q
  {
  }

  /** Interpolation between two vertices for a target past what is covered. */
  function Between(a: real, b: real, target: real, covered: real): (p: real)
    requires a < b
    ensures p == a + (target - covered)
  {
    var f := (target - covered) / (b - a);
    a + (b - a) * f
  }

  function End(line: seq<real>): real
    requires line != []
  {
    line[|line| - 1]
  }

  // ----- the samplers -----

  method PolylineLengthM(line: seq<real>) returns (total: real)
    requires IsLine(line)
    ensures total == if line == [] then 0.0 else End(line)
  {
    total := 0.0;
    if |line| < 2 {
      return;
    }
    for i := 0 to |line| - 1
      invariant total == line[i]
    {
      total := total + (line[i + 1] - line[i]);
    }
  }

  /** `carry` is how far the last sample lies behind the vertex reached. */
  method ResamplePolyline(line: seq<real>, step: real) returns (out: seq<real>)
    requires IsLine(line) && step > 0.0
    ensures line == [] ==> out == []
    ensures line != [] ==> out == Marks(step, |out|) && MarksBelow(step, End(line), |out|)
  {
    out := [];
    if line == [] {
      return;
    }
    out := out + [line[0]];
    var carry := 0.0;
    MarkNext(step, 0);
    for i := 0 to |line| - 1
      invariant 1 <= |out| && out == Marks(step, |out|)
      invariant |out| == 1 || Mark(step, |out| - 1) < line[i]
      invariant line[i] + (step - carry) == Mark(step, |out|)
      invariant carry <= step
    {
      var seg := line[i + 1] - line[i];
      if seg == 0.0 {
        continue;
      }
      var intoSeg := step - carry;
      while intoSeg < seg
        invariant 1 <= |out| && out == Marks(step, |out|)
        invariant |out| == 1 || Mark(step, |out| - 1) < line[i + 1]
        invariant line[i] + intoSeg == Mark(step, |out|)
        decreases (seg - intoSeg) / step
      {
        MarkNext(step, |out|);
        OneStepLess(seg - intoSeg, step);
        MarksSnoc(step, |out|);
        out := out + [line[i] + intoSeg];
        intoSeg := intoSeg + step;
      }
      carry := seg - (intoSeg - step);
    }
  }

  /** `target` is the next sample, `covered` the segments walked. */
  method SampleRoute(line: seq<real>, step: real) returns (pts: seq<real>)
    requires IsLine(line) && line != [] && step > 0.0
    ensures pts == Marks(step, |pts|) && MarksUpTo(step, End(line), |pts|)
  {
    pts := [line[0]];
    var target, covered := step, 0.0;
    MarkNext(step, 0);
    for i := 1 to |line|
      invariant 1 <= |pts| && pts == Marks(step, |pts|)
      invariant covered == line[i - 1] && target == Mark(step, |pts|) && covered < target
      invariant |pts| == 1 || Mark(step, |pts| - 1) <= covered
    {
      var seg := line[i] - line[i - 1];
      if seg <= 0.0 {
        continue;
      }
      while target <= covered + seg
        invariant 1 <= |pts| && pts == Marks(step, |pts|) && target == Mark(step, |pts|) && covered < target
        invariant |pts| == 1 || Mark(step, |pts| - 1) <= line[i]
        decreases (covered + seg - target) / step
      {
        MarkNext(step, |pts|);
        OneStepLess(covered + seg - target, step);
        MarksSnoc(step, |pts|);
        pts := pts + [Between(line[i - 1], line[i], target, covered)];
        target := target + step;
      }
      covered := covered + seg;
    }
  }

  /** The route of a zone: approach points, samples up to the end, and the end
      itself unless the last sample is that very point; `place` tells which point
      lies at a position. A line too short to take a bearing from is an error. */
  method BuildRoute<P(==)>(line: seq<real>, step: real, place: real -> P) returns (route: Option<seq<real>>)
    requires IsLine(line) && step > 0.0
    ensures route == if |line| < 2 then None else Route(step, End(line), place)
  {
    if |line| < 2 {
      return None;
    }
    var pts := SampleRoute(line, step);
    CountUpToIs(step, End(line), |pts|);
    if place(pts[|pts| - 1]) != place(line[|line| - 1]) {
      pts := pts + [line[|line| - 1]];
    }
    assert pts == RoutePoints(step, End(line), place);
    if |pts| < 2 {
      return None;
    }
    route := Some(Approach(step) + pts);
  }

  function Approach(step: real): seq<real> {
    [-4.0 * step, -3.0 * step, -2.0 * step, -step]
  }

  /** How many multiples lie up to `length`. */
  function CountUpTo(step: real, length: real): (n: nat)
    requires step > 0.0 && length >= 0.0
  {
    (length / step).Floor + 1
  }

  lemma CountUpToHolds(step: real, length: real)
    requires step > 0.0 && length >= 0.0
    ensures length / step >= 0.0
    ensures MarksUpTo(step, length, CountUpTo(step, length))
  {
    var x := length / step;
    assert x * step == length;
    MarksAround(step, x, x.Floor);
  }

  lemma MarkIs(step: real, k: nat, x: real)
    requires x == k as real
    ensures Mark(step, k) == x * step
  {
  }

  lemma MarksAround(step: real, x: real, k: nat)
    requires step > 0.0 && k == x.Floor
    ensures Mark(step, k) <= x * step < Mark(step, k + 1)
  {
    var lo: real, hi: real := k as real, k as real + 1.0;
    MarkIs(step, k, lo);
    MarkIs(step, k + 1, hi);
    MulKeepsOrder(lo, x, step);
    MulLess(x, hi, step);
  }

  lemma CountUpToIs(step: real, length: real, n: nat)
    requires step > 0.0 && length >= 0.0 && MarksUpTo(step, length, n)
    ensures n == CountUpTo(step, length)
  {
    CountUpToHolds(step, length);
    var m := CountUpTo(step, length);
    MarksUpToAreAll(step, length, n, m);
    MarksUpToAreAll(step, length, m, n);
    MarksUpToAreAll(step, length, m, m);
    MarksUpToAreAll(step, length, n, n);
  }

  function RoutePoints<P(==)>(step: real, length: real, place: real -> P): seq<real>
    requires step > 0.0 && length >= 0.0
  {
    CountUpToHolds(step, length);
    var pts := Marks(step, CountUpTo(step, length));
    if place(pts[|pts| - 1]) != place(length) then pts + [length] else pts
  }

  function Route<P(==)>(step: real, length: real, place: real -> P): Option<seq<real>>
    requires step > 0.0 && length >= 0.0
  {
    var pts := RoutePoints(step, length, place);
    if |pts| < 2 then None else Some(Approach(step) + pts)
  }

  // ----- the walker -----

  /** Where a walk of `d` from `p` ends on a line of the given length. */
  function Walked(p: real, d: real, length: real): real {
    Min(p + Max(d, 0.0), length)
  }

  class Walker {
    const centerline: array<real>
    var idx: nat
    var alongM: real

    ghost predicate Valid()
      reads this, centerline
    {
      && idx < centerline.Length && alongM == centerline[idx]
      && forall i, j :: idx <= i <= j < centerline.Length ==> centerline[i] <= centerline[j]
    }

    ghost function Length(): real
      requires Valid()
      reads this, centerline
    {
      centerline[centerline.Length - 1]
    }

    constructor (line: seq<real>)
      requires IsLine(line) && line != []
      ensures Valid() && fresh(centerline) && centerline[..] == line && idx == 0 && alongM == 0.0
    {
      centerline := new real[|line|](i requires 0 <= i < |line| => line[i]);
      idx, alongM := 0, 0.0;
    }

    method Position() returns (p: real)
      requires Valid()
      ensures p == alongM
    {
      p := centerline[idx];
    }

    /** The vertex stood on is overwritten when the walk ends inside a segment. */
    method Advance(d: real) returns (p: real)
      requires Valid()
      modifies this, centerline
      ensures Valid() && Length() == old(Length())
      ensures p == alongM == Walked(old(alongM), d, old(Length()))
      ensures old(idx) <= idx && forall j :: idx < j < centerline.Length ==> centerline[j] == old(centerline[j])
    {
      var remaining := d;
      while remaining > 0.0 && idx < centerline.Length - 1
        invariant Valid() && Length() == old(Length())
        invariant old(idx) <= idx && forall j :: idx < j < centerline.Length ==> centerline[j] == old(centerline[j])
        invariant remaining <= 0.0 ==> alongM == Walked(old(alongM), d, old(Length()))
        invariant remaining > 0.0 ==> alongM + remaining == old(alongM) + d && d > 0.0
        decreases centerline.Length - idx, remaining > 0.0
      {
        var a, b := centerline[idx], centerline[idx + 1];
        var seg := b - a;
        assert b <= Length();
        if seg <= remaining {
          idx := idx + 1;
          alongM := alongM + seg;
          remaining := remaining - seg;
        } else {
          centerline[idx] := a + remaining;
          alongM := alongM + remaining;
          remaining := 0.0;
        }
      }
      p := centerline[idx];
    }
  }

  function Fixes(step: real, p: real, length: real, n: nat): (r: seq<real>)
    ensures |r| == n
  {
    seq(n, k requires 0 <= k < n => Walked(p, Mark(step, k), length))
  }

  /** `n` fixes, walking one step after each. */
  method DriveSteady(walker: Walker, speedKmh: real, durationS: real, hz: real) returns (fixes: seq<real>)
    requires walker.Valid() && speedKmh >= 0.0 && hz > 0.0
    modifies walker, walker.centerline
    ensures walker.Valid() && walker.Length() == old(walker.Length())
    ensures var n := Round(durationS * hz);
            fixes == Fixes(speedKmh / 3.6 / hz, old(walker.alongM), old(walker.Length()), if n >= 1 then n else 1)
    ensures walker.alongM == Walked(old(walker.alongM), Mark(speedKmh / 3.6 / hz, |fixes|), old(walker.Length()))
  {
    var step := speedKmh / 3.6 / hz;
    var n := Round(durationS * hz);
    if n < 1 {
      n := 1;
    }
    fixes := [];
    assert Mark(step, 0) == 0.0;
    for k := 0 to n
      invariant walker.Valid() && walker.Length() == old(walker.Length())
      invariant fixes == Fixes(step, old(walker.alongM), old(walker.Length()), k)
      invariant walker.alongM == Walked(old(walker.alongM), Mark(step, k), old(walker.Length()))
    {
      var p := walker.Position();
      fixes := fixes + [p];
      var _ := walker.Advance(step);
      MarkNext(step, k);
      NonNegative(step, k);
      WalkedTwice(old(walker.alongM), Mark(step, k), step, old(walker.Length()));
    }
  }

  lemma NonNegative(step: real, k: nat)
    requires step >= 0.0
    ensures Mark(step, k) >= 0.0
  {
  }

  // ----- what they have in common -----

  /** Walking on is walking the sum, also past the end. */
  lemma WalkedTwice(p: real, d1: real, d2: real, length: real)
    requires d1 >= 0.0 && d2 >= 0.0
    ensures Walked(Walked(p, d1, length), d2, length) == Walked(p, d1 + d2, length)
  {
  }

  /** A step back is no step, so the sum rule needs both to go forward: away from
      the end it fails for steps of opposite signs. */
  lemma WalkedTwiceIff(p: real, d1: real, d2: real, length: real)
    requires p + Max(d1, 0.0) + Max(d2, 0.0) < length
    ensures Walked(Walked(p, d1, length), d2, length) == Walked(p, d1 + d2, length)
            <==> !(d1 < 0.0 < d2) && !(d2 < 0.0 < d1)
  {
  }

  /** The carry, the running target and the cursor visit the same positions: the
      multiples of the step before the end. */
  lemma SamplersAgree<P>(step: real, length: real, place: real -> P, n: nat, k: nat, fixes: nat)
    requires step > 0.0 && length > 0.0 && MarksBelow(step, length, n) && k < n && k < fixes
    ensures var pts := RoutePoints(step, length, place);
            k < |pts| && Marks(step, n)[k] == pts[k] == Fixes(step, 0.0, length, fixes)[k]
  {
    MarksBelowAreAll(step, length, n, k);
    CountUpToHolds(step, length);
    MarksUpToAreAll(step, length, CountUpTo(step, length), k);
    NonNegative(step, k);
    assert Mark(step, 0) == 0.0;
  }

  /** From the end on the cursor stays there. */
  lemma FixesStayAtEnd(step: real, length: real, n: nat, k: nat, fixes: nat)
    requires step > 0.0 && length > 0.0 && MarksBelow(step, length, n) && n <= k < fixes
    ensures Fixes(step, 0.0, length, fixes)[k] == length
  {
    MarksBelowAreAll(step, length, n, k);
    NonNegative(step, k);
  }

  /** The route is the samples followed by the end exactly when the end is itself a
      multiple of the step or its point is not that of the last sample: a line that
      comes back to where its last sample lies loses its end. */
  lemma RouteIsSamplesThenEnd<P>(step: real, length: real, place: real -> P, n: nat)
    requires step > 0.0 && length > 0.0 && MarksBelow(step, length, n)
    ensures RoutePoints(step, length, place) == Marks(step, n) + [length]
            <==> Mark(step, n) == length || place(Mark(step, n - 1)) != place(length)
  {
    CountUpToHolds(step, length);
    var m := CountUpTo(step, length);
    assert Mark(step, 0) == 0.0;
    if Mark(step, n) == length {
      MarkNext(step, n);
      CountUpToIs(step, length, n + 1);
      MarksSnoc(step, n);
      assert place(Marks(step, m)[m - 1]) == place(length);
    } else {
      CountUpToIs(step, length, n);
    }
  }

  /** A line that comes back to its start within one step loses its end, and then is
      refused as too short. */
  lemma ClosedLineLosesEnd<P>(step: real, length: real, place: real -> P)
    requires 0.0 < length < step && place(length) == place(0.0)
    ensures RoutePoints(step, length, place) != Marks(step, 1) + [length]
    ensures Route(step, length, place) == None
  {
    MarkNext(step, 0);
    CountUpToIs(step, length, 1);
    RouteIsSamplesThenEnd(step, length, place, 1);
  }

  /** Only such a line is refused. */
  lemma RefusedIff<P>(step: real, length: real, place: real -> P)
    requires step > 0.0 && length >= 0.0
    ensures Route(step, length, place) == None <==> length < step && place(length) == place(0.0)
  {
    CountUpToHolds(step, length);
    MarkNext(step, 0);
    assert Mark(step, 0) == 0.0;
    if length < step {
      CountUpToIs(step, length, 1);
    } else {
      MarksUpToAreAll(step, length, CountUpTo(step, length), 1);
    }
  }

  /** The drive comes up to the start in four steps of its own length. */
  lemma ApproachLeadsIn(step: real, k: nat)
    requires k < 4
    ensures |Approach(step)| == 4
    ensures (if k < 3 then Approach(step)[k + 1] else Mark(step, 0)) == Approach(step)[k] + step
  {
    assert Mark(step, 0) == 0.0;
  }

  /** Five metres out and back. */
  function OutAndBack(): real -> real {
    (p: real) => if p <= 5.0 then p else 10.0 - p
  }

  lemma OutAndBackLosesEnd()
    ensures RoutePoints(100.0, 10.0, OutAndBack()) != Marks(100.0, 1) + [10.0]
  {
    ClosedLineLosesEnd(100.0, 10.0, OutAndBack());
  }
}
