/**
 Drive plans: track points on two timelines, wall clock and simulated, and the
 transformers that rewrite them.
 */
module Drive {
  import opened Prelude
  import opened Zones

  datatype TrackPoint = TrackPoint(at: Pt, t: int, sim: Option<int>) {
    function SimMs(): int {
      if sim.None? then t else sim.value
    }
  }

  type Plan = seq<TrackPoint>

  /** Python's int() of a float: towards zero. */
  function Trunc(x: real): int {
    if x >= 0.0 then x.Floor else -((-x).Floor)
  }

  function Duration(p: Plan): int {
    if p == [] then 0 else p[|p| - 1].t
  }

  /** Simulated milliseconds per wall-clock millisecond. */
  function SimPerT(p: Plan): real {
    if |p| < 2 then 1.0
    else
      var span, sim := p[|p| - 1].t - p[0].t, p[|p| - 1].SimMs() - p[0].SimMs();
      if span > 0 then sim as real / span as real else 1.0
  }

  function Quicker(q: TrackPoint, factor: real): TrackPoint
    requires factor != 0.0
  {
    TrackPoint(q.at, Trunc(q.t as real / factor), Some(q.SimMs()))
  }

  /** None for a division by zero. */
  function Compressed(p: Plan, factor: real): Option<Plan> {
    if factor == 1.0 || p == [] then Some(p)
    else if factor == 0.0 then None
    else Some(seq(|p|, i requires 0 <= i < |p| => Quicker(p[i], factor)))
  }

  function Between(p: Plan, from: int, to: int): Plan {
    if p == [] then []
    else
      var q := p[|p| - 1];
      Between(p[..|p| - 1], from, to) + if from <= q.t <= to then [q] else []
  }

  function Slice(p: Plan, from: int, to: int): Plan {
    var kept := Between(p, from, to);
    var sim0 := if kept == [] then 0 else kept[0].SimMs();
    seq(|kept|, i requires 0 <= i < |kept| => TrackPoint(kept[i].at, kept[i].t - from, Some(kept[i].SimMs() - sim0)))
  }

  function WithDropout(p: Plan, from: int, to: int): Plan {
    if p == [] then []
    else
      var q := p[|p| - 1];
      WithDropout(p[..|p| - 1], from, to) + if from < q.t < to then [] else [q]
  }

  function Distance(a: int, b: int): nat {
    if a < b then b - a else a - b
  }

  /** The first of the points closest to `at` among the first `n`. */
  function Closest(p: Plan, at: int, n: nat): (idx: nat)
    requires 1 <= n <= |p|
    ensures idx < n
  {
    if n == 1 then 0
    else
      var c := Closest(p, at, n - 1);
      if Distance(p[n - 1].t, at) < Distance(p[c].t, at) then n - 1 else c
  }

  lemma {:induction false} ClosestIsFirstMinimum(p: Plan, at: int, n: nat)
    requires 1 <= n <= |p|
    ensures var idx := Closest(p, at, n);
            forall i :: 0 <= i < n ==>
              Distance(p[idx].t, at) <= Distance(p[i].t, at) && (i < idx ==> Distance(p[idx].t, at) < Distance(p[i].t, at))
  {
    if n > 1 {
      ClosestIsFirstMinimum(p, at, n - 1);
    }
  }

  function HoldStep(duration: int): (step: int)
    ensures step >= 1
  {
    if duration / 5 > 1 then duration / 5 else 1
  }

  /** How many fixes are added while holding. */
  function HeldCount(duration: int): nat {
    if duration < 0 then 0 else duration / HoldStep(duration)
  }

  function HeldPoint(anchor: TrackPoint, i: int, ratio: real): TrackPoint {
    TrackPoint(anchor.at, anchor.t + i, Some(anchor.SimMs() + Trunc(i as real * ratio)))
  }

  function Tick(duration: int, k: nat): int {
    k * HoldStep(duration)
  }

  function Held(anchor: TrackPoint, duration: int, ratio: real): (r: Plan)
    ensures |r| == HeldCount(duration)
  {
    seq(HeldCount(duration), k requires 0 <= k < HeldCount(duration) => HeldPoint(anchor, Tick(duration, k + 1), ratio))
  }

  function Later(q: TrackPoint, duration: int, ratio: real): TrackPoint {
    TrackPoint(q.at, q.t + duration, Some(q.SimMs() + Trunc(duration as real * ratio)))
  }

  function Shifted(p: Plan, duration: int, ratio: real): (r: Plan)
    ensures |r| == |p|
  {
    seq(|p|, i requires 0 <= i < |p| => Later(p[i], duration, ratio))
  }

  function Stopped(p: Plan, idx: nat, duration: int, ratio: real): (r: Plan)
    requires idx < |p|
    ensures |r| == |p| + HeldCount(duration)
  {
    p[..idx + 1] + Held(p[idx], duration, ratio) + Shifted(p[idx + 1..], duration, ratio)
  }

  function WithStop(p: Plan, at: int, duration: int): Plan {
    if p == [] then p else Stopped(p, Closest(p, at, |p|), duration, SimPerT(p))
  }

  // ----- both timelines stay sorted -----

  predicate InOrder(a: TrackPoint, b: TrackPoint) {
    a.t <= b.t && a.SimMs() <= b.SimMs()
  }

  ghost predicate Sorted(p: Plan) {
    forall i, j :: 0 <= i < j < |p| ==> InOrder(p[i], p[j])
  }

  lemma SortedJoin(a: Plan, b: Plan)
    ensures Sorted(a + b) <==> Sorted(a) && Sorted(b) && (a != [] && b != [] ==> InOrder(a[|a| - 1], b[0]))
  {
    var ab := a + b;
    if Sorted(ab) {
      assert forall i :: 0 <= i < |a| ==> ab[i] == a[i];
      assert forall i :: 0 <= i < |b| ==> ab[|a| + i] == b[i];
    }
    if Sorted(a) && Sorted(b) && (a != [] && b != [] ==> InOrder(a[|a| - 1], b[0])) {
      forall i, j | 0 <= i < j < |ab| ensures InOrder(ab[i], ab[j]) {
        if i < |a| <= j {
          assert i < |a| - 1 ==> InOrder(a[i], a[|a| - 1]);
          assert |a| < j ==> InOrder(b[0], b[j - |a|]);
        }
      }
    }
  }

  lemma SortedSnoc(p: Plan, q: TrackPoint)
    requires Sorted(p) && (p != [] ==> InOrder(p[|p| - 1], q))
    ensures Sorted(p + [q])
  {
    SortedJoin(p, [q]);
  }

  lemma TruncGrows(x: real, y: real)
    requires x <= y
    ensures Trunc(x) <= Trunc(y)
  {
  }

  lemma DivGrows(x: real, y: real, f: real)
    requires x <= y && f > 0.0
    ensures x / f <= y / f
  {
  }

  lemma CompressedSorted(p: Plan, factor: real)
    requires Sorted(p) && factor > 0.0
    ensures Compressed(p, factor).Some? && Sorted(Compressed(p, factor).value)
  {
    var r := Compressed(p, factor).value;
    forall i, j | 0 <= i < j < |r| ensures InOrder(r[i], r[j]) {
      assert InOrder(p[i], p[j]);
      if factor != 1.0 {
        DivGrows(p[i].t as real, p[j].t as real, factor);
        TruncGrows(p[i].t as real / factor, p[j].t as real / factor);
      }
    }
  }

  /** What is kept is kept in order, and its last point comes from the plan. */
  lemma {:induction false} BetweenSorted(p: Plan, from: int, to: int)
    requires Sorted(p)
    ensures Sorted(Between(p, from, to))
    ensures forall i :: 0 <= i < |Between(p, from, to)| ==> Between(p, from, to)[i] in p
  {
    if p != [] {
      var n := |p| - 1;
      BetweenSorted(p[..n], from, to);
      var kept := Between(p[..n], from, to);
      if from <= p[n].t <= to {
        assert kept != [] ==> kept[|kept| - 1] in p[..n];
        SortedSnoc(kept, p[n]);
      }
    }
  }

  lemma {:induction false} DropoutSorted(p: Plan, from: int, to: int)
    requires Sorted(p)
    ensures Sorted(WithDropout(p, from, to))
    ensures forall i :: 0 <= i < |WithDropout(p, from, to)| ==> WithDropout(p, from, to)[i] in p
  {
    if p != [] {
      var n := |p| - 1;
      DropoutSorted(p[..n], from, to);
      var kept := WithDropout(p[..n], from, to);
      if !(from < p[n].t < to) {
        assert kept != [] ==> kept[|kept| - 1] in p[..n];
        SortedSnoc(kept, p[n]);
      }
    }
  }

  lemma SliceSorted(p: Plan, from: int, to: int)
    requires Sorted(p)
    ensures Sorted(Slice(p, from, to))
  {
    BetweenSorted(p, from, to);
    var kept, r := Between(p, from, to), Slice(p, from, to);
    forall i, j | 0 <= i < j < |r| ensures InOrder(r[i], r[j]) {
      assert InOrder(kept[i], kept[j]);
    }
  }

  lemma RatioNonNegative(p: Plan)
    requires Sorted(p)
    ensures SimPerT(p) >= 0.0
  {
    if |p| >= 2 && p[|p| - 1].t - p[0].t > 0 {
      assert InOrder(p[0], p[|p| - 1]);
      DivGrows(0.0, (p[|p| - 1].SimMs() - p[0].SimMs()) as real, (p[|p| - 1].t - p[0].t) as real);
    }
  }

  lemma HeldInOrder(anchor: TrackPoint, i: int, j: int, ratio: real)
    requires 0 <= i <= j && ratio >= 0.0
    ensures InOrder(anchor, HeldPoint(anchor, i, ratio)) && InOrder(HeldPoint(anchor, i, ratio), HeldPoint(anchor, j, ratio))
  {
    MulKeepsOrder(0.0, i as real, ratio);
    MulKeepsOrder(i as real, j as real, ratio);
    TruncGrows(i as real * ratio, j as real * ratio);
  }

  lemma TicksGrow(duration: int, k: nat, l: nat)
    requires k <= l
    ensures 0 <= Tick(duration, k) <= Tick(duration, l)
  {
  }

  lemma HeldFits(duration: int)
    requires duration >= 0
    ensures Tick(duration, HeldCount(duration)) <= duration
  {
    var step := HoldStep(duration);
    assert duration == duration / step * step + duration % step;
  }

  lemma HeldSorted(anchor: TrackPoint, duration: int, ratio: real)
    requires ratio >= 0.0
    ensures Sorted([anchor] + Held(anchor, duration, ratio))
    ensures duration >= 0 ==>
      var all := [anchor] + Held(anchor, duration, ratio); InOrder(all[|all| - 1], HeldPoint(anchor, duration, ratio))
  {
    var held := Held(anchor, duration, ratio);
    forall i, j | 0 <= i < j < |held| ensures InOrder(held[i], held[j]) {
      TicksGrow(duration, i + 1, j + 1);
      HeldInOrder(anchor, Tick(duration, i + 1), Tick(duration, j + 1), ratio);
    }
    if held != [] {
      TicksGrow(duration, 1, 1);
      HeldInOrder(anchor, Tick(duration, 1), Tick(duration, 1), ratio);
    }
    SortedJoin([anchor], held);
    if duration >= 0 {
      HeldFits(duration);
      TicksGrow(duration, 0, |held|);
      HeldInOrder(anchor, Tick(duration, |held|), duration, ratio);
    }
  }

  lemma ShiftedSorted(p: Plan, duration: int, ratio: real)
    ensures Sorted(Shifted(p, duration, ratio)) <==> Sorted(p)
  {
    var r := Shifted(p, duration, ratio);
    forall i, j | 0 <= i < j < |p| ensures InOrder(r[i], r[j]) <==> InOrder(p[i], p[j]) {
    }
    if Sorted(p) {
      forall i, j | 0 <= i < j < |r| ensures InOrder(r[i], r[j]) {
        assert InOrder(p[i], p[j]);
      }
    }
    if Sorted(r) {
      forall i, j | 0 <= i < j < |p| ensures InOrder(p[i], p[j]) {
        assert InOrder(r[i], r[j]);
      }
    }
  }

  lemma HeldBeforeLater(a: TrackPoint, b: TrackPoint, duration: int, ratio: real)
    requires InOrder(a, b)
    ensures InOrder(HeldPoint(a, duration, ratio), Later(b, duration, ratio))
  {
  }

  lemma StoppedSortedIff(p: Plan, idx: nat, duration: int, ratio: real)
    requires Sorted(p) && idx < |p| && ratio >= 0.0
    ensures Sorted(Stopped(p, idx, duration, ratio))
            <==> duration >= 0 || idx + 1 == |p| || InOrder(p[idx], Later(p[idx + 1], duration, ratio))
  {
    var pre, held, post := p[..idx + 1], Held(p[idx], duration, ratio), Shifted(p[idx + 1..], duration, ratio);
    HeldSorted(p[idx], duration, ratio);
    SortedJoin([p[idx]], held);
    SortedJoin(pre, held);
    assert p == pre + p[idx + 1..];
    SortedJoin(pre, p[idx + 1..]);
    ShiftedSorted(p[idx + 1..], duration, ratio);
    SortedJoin(pre + held, post);
    if post != [] {
      var last := (pre + held)[|pre + held| - 1];
      assert last == ([p[idx]] + held)[|held|];
      if duration >= 0 {
        HeldBeforeLater(p[idx], p[idx + 1], duration, ratio);
      }
    }
  }

  /** A stop keeps the plan sorted exactly when it does not pull what follows back
      before the point stopped at; holding for a time that is not negative never does. */
  lemma StopSortedIff(p: Plan, at: int, duration: int)
    requires Sorted(p) && p != []
    ensures var idx := Closest(p, at, |p|);
            Sorted(WithStop(p, at, duration))
            <==> duration >= 0 || idx + 1 == |p| || InOrder(p[idx], Later(p[idx + 1], duration, SimPerT(p)))
  {
    RatioNonNegative(p);
    StoppedSortedIff(p, Closest(p, at, |p|), duration, SimPerT(p));
  }

  // ----- what is kept -----

  lemma {:induction false} BetweenMember(p: Plan, from: int, to: int, q: TrackPoint)
    ensures q in Between(p, from, to) <==> q in p && from <= q.t <= to
  {
    if p != [] {
      var n := |p| - 1;
      BetweenMember(p[..n], from, to, q);
      assert p == p[..n] + [p[n]];
    }
  }

  /** A dropout loses exactly the points strictly inside the gap. */
  lemma {:induction false} DropoutMember(p: Plan, from: int, to: int, q: TrackPoint)
    ensures q in WithDropout(p, from, to) <==> q in p && !(from < q.t < to)
  {
    if p != [] {
      var n := |p| - 1;
      DropoutMember(p[..n], from, to, q);
      assert p == p[..n] + [p[n]];
    }
  }

  /** A slice holds exactly the points of its window, on clocks of its own: wall
      time from the window's start, simulated time from the first point kept. */
  lemma SliceIsWindow(p: Plan, from: int, to: int, q: TrackPoint, i: nat)
    requires i < |Slice(p, from, to)|
    ensures var kept, r := Between(p, from, to), Slice(p, from, to);
            && |r| == |kept| && (q in kept <==> q in p && from <= q.t <= to)
            && r[i].at == kept[i].at && r[i].t + from == kept[i].t && 0 <= r[i].t <= to - from
            && r[0].SimMs() == 0 && r[i].SimMs() - r[0].SimMs() == kept[i].SimMs() - kept[0].SimMs()
  {
    var kept := Between(p, from, to);
    BetweenMember(p, from, to, q);
    BetweenMember(p, from, to, kept[i]);
  }

  // ----- any composition -----

  datatype Op = Compress(factor: real) | Cut(from: int, to: int) | Drop(from: int, to: int) | Stop(at: int, duration: int)

  function Apply(p: Plan, op: Op): Option<Plan> {
    match op
    case Compress(factor) => Compressed(p, factor)
    case Cut(from, to) => Some(Slice(p, from, to))
    case Drop(from, to) => Some(WithDropout(p, from, to))
    case Stop(at, duration) => Some(WithStop(p, at, duration))
  }

  function ApplyAll(p: Plan, ops: seq<Op>): Option<Plan>
    decreases |ops|
  {
    if ops == [] then Some(p)
    else
      match Apply(p, ops[0])
      case None => None
      case Some(q) => ApplyAll(q, ops[1..])
  }

  predicate Forward(op: Op) {
    match op
    case Compress(factor) => factor > 0.0
    case Stop(_, duration) => duration >= 0
    case _ => true
  }

  lemma ApplySorted(p: Plan, op: Op)
    requires Sorted(p) && Forward(op)
    ensures Apply(p, op).Some? && Sorted(Apply(p, op).value)
  {
    match op
    case Compress(factor) => CompressedSorted(p, factor);
    case Cut(from, to) => SliceSorted(p, from, to);
    case Drop(from, to) => DropoutSorted(p, from, to);
    case Stop(at, duration) =>
      if p != [] {
        StopSortedIff(p, at, duration);
      }
  }

  /** Any composition of transformers keeps both timelines sorted. */
  lemma {:induction false} PlansStaySorted(p: Plan, ops: seq<Op>)
    requires Sorted(p) && forall k :: 0 <= k < |ops| ==> Forward(ops[k])
    ensures ApplyAll(p, ops).Some? && Sorted(ApplyAll(p, ops).value)
    decreases |ops|
  {
    if ops != [] {
      ApplySorted(p, ops[0]);
      PlansStaySorted(Apply(p, ops[0]).value, ops[1..]);
    }
  }

  // ----- what a stop does -----

  /** A stop lengthens the drive by exactly its duration, except at the last point,
      where the time after the last held fix is lost. */
  lemma StopLengthensIff(p: Plan, at: int, duration: int)
    requires p != []
    ensures Duration(WithStop(p, at, duration)) == Duration(p) + duration
            <==> Closest(p, at, |p|) + 1 < |p| || (duration >= 0 && duration % HoldStep(duration) == 0)
  {
    LastTime(p, Closest(p, at, |p|), duration, SimPerT(p));
    var step := HoldStep(duration);
    assert duration == duration / step * step + duration % step;
  }

  /** A stop of 11 ms at the last point holds for 10. */
  lemma LastStopFallsShort()
    ensures Duration(WithStop([TrackPoint(ORIGIN, 0, None)], 0, 11)) == 10
  {
    var p := [TrackPoint(ORIGIN, 0, None)];
    LastTime(p, Closest(p, 0, 1), 11, SimPerT(p));
  }

  lemma LastTime(p: Plan, idx: nat, duration: int, ratio: real)
    requires idx < |p|
    ensures Duration(Stopped(p, idx, duration, ratio)) - Duration(p)
         == if idx + 1 < |p| then duration else Tick(duration, HeldCount(duration))
  {
    var held, post := Held(p[idx], duration, ratio), Shifted(p[idx + 1..], duration, ratio);
    var r := Stopped(p, idx, duration, ratio);
    if post != [] {
      assert r[|r| - 1] == post[|post| - 1];
    } else if held != [] {
      assert r[|r| - 1] == held[|held| - 1] == HeldPoint(p[idx], Tick(duration, |held|), ratio);
    } else {
      assert r == p;
    }
  }

  lemma StoppedKeeps(p: Plan, idx: nat, duration: int, ratio: real, i: nat)
    requires idx < |p| && i < |p|
    ensures var r := Stopped(p, idx, duration, ratio);
            if i <= idx then r[i] == p[i] else r[i + HeldCount(duration)] == Later(p[i], duration, ratio)
  {
    var post := Shifted(p[idx + 1..], duration, ratio);
    if i > idx {
      assert Stopped(p, idx, duration, ratio)[i + HeldCount(duration)] == post[i - idx - 1];
    }
  }

  lemma StoppedHolds(p: Plan, idx: nat, duration: int, ratio: real, k: nat)
    requires idx < |p| && k < HeldCount(duration)
    ensures Stopped(p, idx, duration, ratio)[idx + 1 + k].at == p[idx].at
  {
    var held := Held(p[idx], duration, ratio);
    assert held[k] == HeldPoint(p[idx], Tick(duration, k + 1), ratio);
    assert Stopped(p, idx, duration, ratio)[idx + 1 + k] == held[k];
  }

  /** Every point of the plan is still there, in order and in its place; those after
      the stop come later by its duration, ... */
  lemma StopKeepsPoints(p: Plan, at: int, duration: int, i: nat)
    requires i < |p|
    ensures var idx, h, r := Closest(p, at, |p|), HeldCount(duration), WithStop(p, at, duration);
            && |r| == |p| + h
            && (i <= idx ==> r[i] == p[i])
            && (i > idx ==> r[i + h].at == p[i].at && r[i + h].t == p[i].t + duration)
  {
    StoppedKeeps(p, Closest(p, at, |p|), duration, SimPerT(p), i);
  }

  /** ... and the points added stand where the plan stops. */
  lemma StopHoldsPosition(p: Plan, at: int, duration: int, k: nat)
    requires p != [] && k < HeldCount(duration)
    ensures var idx := Closest(p, at, |p|); WithStop(p, at, duration)[idx + 1 + k].at == p[idx].at
  {
    StoppedHolds(p, Closest(p, at, |p|), duration, SimPerT(p), k);
  }

  /** The points added are evenly spaced, five to nine of them if the stop is long
      enough for five, and the last is less than one space before its end. */
  lemma StopHoldsEvenly(p: Plan, at: int, duration: nat, k: nat) returns (step: nat)
    requires p != [] && k < HeldCount(duration)
    ensures var idx, h, r := Closest(p, at, |p|), HeldCount(duration), WithStop(p, at, duration);
            && (if duration < 5 then h == duration else 5 <= h <= 9)
            && step >= 1 && duration - step < h * step <= duration
            && r[idx + 1 + k].t == p[idx].t + (k + 1) * step
  {
    step := HoldStep(duration);
    HeldCountIs(duration);
    HeldAt(p, at, duration, k);
  }

  lemma HeldCountIs(duration: nat)
    ensures var h, step := HeldCount(duration), HoldStep(duration);
            (if duration < 5 then h == duration else 5 <= h <= 9) && duration - step < h * step <= duration
  {
    var h, step := HeldCount(duration), HoldStep(duration);
    assert duration == h * step + duration % step;
    if duration >= 10 {
      var rest := duration % 5;
      assert duration == 5 * step + rest;
      assert h >= 5 by {
        if h <= 4 {
          ProductGrows(h, 4, step);
        }
      }
      if h >= 10 {
        ProductGrows(10, h, step);
      }
    }
  }

  lemma ProductGrows(a: nat, b: nat, c: nat)
    requires a <= b
    ensures a * c <= b * c
  {
  }

  lemma HeldAt(p: Plan, at: int, duration: int, k: nat)
    requires p != [] && k < HeldCount(duration)
    ensures var idx := Closest(p, at, |p|);
            WithStop(p, at, duration)[idx + 1 + k] == HeldPoint(p[idx], Tick(duration, k + 1), SimPerT(p))
  {
    var idx := Closest(p, at, |p|);
    assert Held(p[idx], duration, SimPerT(p))[k] == HeldPoint(p[idx], Tick(duration, k + 1), SimPerT(p));
  }

  lemma LaterAt(p: Plan, at: int, duration: int, i: nat)
    requires p != [] && Closest(p, at, |p|) < i < |p|
    ensures WithStop(p, at, duration)[i + HeldCount(duration)] == Later(p[i], duration, SimPerT(p))
  {
    var idx := Closest(p, at, |p|);
    assert Shifted(p[idx + 1..], duration, SimPerT(p))[i - idx - 1] == Later(p[i], duration, SimPerT(p));
  }

  lemma RateIs(p: Plan, rate: real)
    requires p != [] && p[|p| - 1].t > p[0].t
    requires rate * (p[|p| - 1].t - p[0].t) as real == (p[|p| - 1].SimMs() - p[0].SimMs()) as real
    ensures SimPerT(p) == rate
  {
    var span, sim := (p[|p| - 1].t - p[0].t) as real, (p[|p| - 1].SimMs() - p[0].SimMs()) as real;
    assert rate * span / span == rate;
  }

  /** After a stop the simulated clock is later by what it gains at the rate at which
      it runs over the whole plan. */
  lemma StopKeepsSimRate(p: Plan, at: int, duration: int, i: nat, rate: real)
    requires p != [] && Closest(p, at, |p|) < i < |p| && p[|p| - 1].t > p[0].t
    requires rate * (p[|p| - 1].t - p[0].t) as real == (p[|p| - 1].SimMs() - p[0].SimMs()) as real
    ensures WithStop(p, at, duration)[i + HeldCount(duration)].SimMs() == p[i].SimMs() + Trunc(duration as real * rate)
  {
    RateIs(p, rate);
    LaterAt(p, at, duration, i);
  }

  /** Both clocks read the same along the plan. */
  predicate Uncompressed(p: Plan) {
    forall i :: 0 <= i < |p| ==> p[i].SimMs() == p[i].t
  }

  lemma SelfRatio(x: real)
    requires x != 0.0
    ensures x / x == 1.0
  {
  }

  lemma UnitRatio(p: Plan)
    requires Uncompressed(p)
    ensures SimPerT(p) == 1.0
  {
    if |p| >= 2 {
      assert p[0].SimMs() == p[0].t && p[|p| - 1].SimMs() == p[|p| - 1].t;
      var span := p[|p| - 1].t - p[0].t;
      if span > 0 {
        SelfRatio(span as real);
      }
    }
  }

  /** A stop in an uncompressed plan takes as long on both clocks. */
  lemma StopKeepsUncompressed(p: Plan, at: int, duration: int)
    requires Uncompressed(p)
    ensures Uncompressed(WithStop(p, at, duration))
  {
    if p != [] {
      UnitRatio(p);
      var idx, ratio := Closest(p, at, |p|), SimPerT(p);
      var held, post := Held(p[idx], duration, ratio), Shifted(p[idx + 1..], duration, ratio);
      forall k | 0 <= k < |held| ensures held[k].SimMs() == held[k].t {
        assert held[k] == HeldPoint(p[idx], Tick(duration, k + 1), ratio);
      }
      forall k | 0 <= k < |post| ensures post[k].SimMs() == post[k].t {
        assert post[k] == Later(p[idx + 1 + k], duration, ratio);
      }
    }
  }

  // ----- compressing twice -----

  /** What the two clocks read along the plan. */
  function Timelines(p: Plan): (r: seq<(int, int)>)
    ensures |r| == |p|
  {
    seq(|p|, i requires 0 <= i < |p| => (p[i].t, p[i].SimMs()))
  }

  function Size(x: real): real { if x < 0.0 then -x else x }

  /** The last multiple of `d` not beyond `a` lies beyond the whole part of `a`. */
  predicate Overshoots(a: real, d: real)
    requires d > 0.0
  {
    (a / d).Floor as real * d > a.Floor as real
  }

  /** Truncating `x` steps back over a multiple of `n`. */
  predicate StepsOver(x: real, n: real)
    requires n != 0.0
  {
    Overshoots(Size(x), Size(n))
  }

  lemma QuotientAtMost(k: real, x: real, n: real)
    requires n > 0.0
    ensures k <= x / n <==> k * n <= x
  {
    var q := x / n;
    assert q * n == x;
    if k <= q {
      MulKeepsOrder(k, q, n);
    } else {
      MulLess(q, k, n);
    }
  }

  lemma FloorTwice(x: real, n: real)
    requires x >= 0.0 && n > 0.0
    ensures (x.Floor as real / n).Floor == (x / n).Floor <==> !Overshoots(x, n)
  {
    var q := (x / n).Floor;
    QuotientAtMost(q as real, x.Floor as real, n);
    QuotientAtMost((q + 1) as real, x.Floor as real, n);
    QuotientAtMost((q + 1) as real, x, n);
  }

  lemma QuotientSigns(x: real, n: real)
    requires n != 0.0
    ensures x / n == if (x < 0.0) == (n < 0.0) then Size(x) / Size(n) else -(Size(x) / Size(n))
    ensures Size(x) / Size(n) >= 0.0
  {
    var q := Size(x) / Size(n);
    assert q * Size(n) == Size(x);
    QuotientAtMost(0.0, Size(x), Size(n));
    assert (if (x < 0.0) == (n < 0.0) then q else -q) * n == x;
  }

  function Signed(x: real, negative: bool): real {
    if negative then -x else x
  }

  lemma TruncOfSigned(q: real, negative: bool)
    requires q >= 0.0
    ensures Trunc(Signed(q, negative)) == if negative then -q.Floor else q.Floor
  {
  }

  lemma SignedQuotient(q: real, n: real, negative: bool)
    requires n != 0.0 && q >= 0.0
    ensures Size(q) / Size(n) >= 0.0 && Signed(q, negative) / n == Signed(Size(q) / Size(n), negative != (n < 0.0))
  {
    QuotientSigns(Signed(q, negative), n);
  }

  /** Truncating before the second division changes nothing exactly when the first
      truncation steps over no multiple of the divisor. */
  lemma TruncTwice(x: real, n: real)
    requires n != 0.0
    ensures Trunc(Trunc(x) as real / n) == Trunc(x / n) <==> !StepsOver(x, n)
  {
    var a, negative := Size(x), x < 0.0;
    var whole := a.Floor as real;
    assert x == Signed(a, negative) && Trunc(x) as real == Signed(whole, negative);
    var flip, q, w := negative != (n < 0.0), a / Size(n), whole / Size(n);
    assert x / n == Signed(q, flip) && q >= 0.0 by {
      SignedQuotient(a, n, negative);
    }
    assert Signed(whole, negative) / n == Signed(w, flip) && w >= 0.0 by {
      SignedQuotient(whole, n, negative);
    }
    assert w.Floor == q.Floor <==> !StepsOver(x, n) by {
      FloorTwice(a, Size(n));
    }
    TruncOfSigned(q, flip);
    TruncOfSigned(w, flip);
  }

  lemma RealProduct(q: int, m: nat)
    ensures (q * m) as real == q as real * m as real
  {
  }

  lemma WholeBelow(k: int, x: real)
    requires k as real <= x
    ensures k <= x.Floor
  {
  }

  lemma WholeStepsOverNone(x: real, n: nat)
    requires n >= 1
    ensures !StepsOver(x, n as real)
  {
    var k := (Size(x) / n as real).Floor;
    QuotientAtMost(k as real, Size(x), n as real);
    RealProduct(k, n);
    WholeBelow(k * n, Size(x));
  }

  lemma DividedTwice(t: real, m: real, n: real)
    requires m != 0.0 && n != 0.0
    ensures m * n != 0.0 && t / m / n == t / (m * n)
  {
    var q := t / m / n;
    assert q * n == t / m && t / m * m == t;
    assert q * (m * n) == q * n * m;
  }

  lemma CompressedTimeline(p: Plan, m: real, i: nat)
    requires m != 0.0 && i < |p|
    ensures var r := Compressed(p, m);
            && r.Some? && |r.value| == |p|
            && Timelines(r.value)[i] == (Trunc(p[i].t as real / m), p[i].SimMs())
  {
  }

  /** Compressing by `m` and then by `n` is compressing by their product, for any
      plan, exactly when no time of the plan divided by `m` is truncated back over a
      multiple of `n`. */
  lemma CompressionsMultiplyIff(p: Plan, m: real, n: real)
    requires m != 0.0 && n != 0.0
    ensures var once := Compressed(p, m);
            && once.Some? && Compressed(once.value, n).Some? && Compressed(p, m * n).Some?
            && (Timelines(Compressed(once.value, n).value) == Timelines(Compressed(p, m * n).value) <==>
                forall i :: 0 <= i < |p| ==> !StepsOver(p[i].t as real / m, n))
  {
    DividedTwice(0.0, m, n);
    if p != [] {
      CompressedTimeline(p, m, 0);
      var once := Compressed(p, m).value;
      CompressedTimeline(once, n, 0);
      CompressedTimeline(p, m * n, 0);
      var twice, direct := Timelines(Compressed(once, n).value), Timelines(Compressed(p, m * n).value);
      forall i | 0 <= i < |p| ensures twice[i] == direct[i] <==> !StepsOver(p[i].t as real / m, n) {
        CompressedTimeline(p, m, i);
        CompressedTimeline(once, n, i);
        CompressedTimeline(p, m * n, i);
        DividedTwice(p[i].t as real, m, n);
        TruncTwice(p[i].t as real / m, n);
      }
    }
  }

  /** So a whole second factor always multiplies, whatever the first, ... */
  lemma CompressionsMultiply(p: Plan, m: real, n: nat)
    requires m != 0.0 && n >= 1
    ensures var once := Compressed(p, m);
            && once.Some? && Compressed(once.value, n as real).Some? && Compressed(p, m * n as real).Some?
            && Timelines(Compressed(once.value, n as real).value) == Timelines(Compressed(p, m * n as real).value)
  {
    CompressionsMultiplyIff(p, m, n as real);
    forall i | 0 <= i < |p| ensures !StepsOver(p[i].t as real / m, n as real) {
      WholeStepsOverNone(p[i].t as real / m, n);
    }
  }

  /** ... and a fractional one need not, even after a whole one: 3 ms by 2 and then
      by 1.5 is 0 ms, by 3 it is 1. */
  lemma FractionalCompressionsDiffer()
    ensures var p := [TrackPoint(ORIGIN, 3, None)];
            var once := Compressed(p, 2.0);
            && once.Some? && Compressed(once.value, 1.5).Some? && Compressed(p, 3.0).Some?
            && Timelines(Compressed(once.value, 1.5).value) != Timelines(Compressed(p, 3.0).value)
  {
    var p := [TrackPoint(ORIGIN, 3, None)];
    assert StepsOver(1.5, 1.5);
    assert p[0].t as real / 2.0 == 1.5;
    CompressionsMultiplyIff(p, 2.0, 1.5);
  }
}
