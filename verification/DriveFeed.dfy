/**
 The pump: one fix per track point, with speed and course from the plan's geometry
 over simulated time, and stamps that go on from the last stamp of the call before.
 Waiting for the wall clock is not part of it; an abort is seen before some point.
 */
module DriveFeed {
  import opened Prelude
  import opened Zones
  import opened Drive

  datatype Fix = Fix(at: Pt, speed: real, bearing: real, stamp: int)

  datatype Globe = Globe(dist: (Pt, Pt) -> real, bearing: (Pt, Pt) -> real)

  // ----- speeds and courses -----

  function HopSpeed(g: Globe, a: TrackPoint, b: TrackPoint): real {
    var dt := (b.SimMs() - a.SimMs()) as real / 1000.0;
    if dt > 0.0 then g.dist(a.at, b.at) / dt else 0.0
  }

  function SpeedAt(g: Globe, p: Plan, i: nat): real
    requires i < |p|
  {
    if i + 1 < |p| then HopSpeed(g, p[i], p[i + 1]) else if i > 0 then SpeedAt(g, p, i - 1) else 0.0
  }

  /** The hop from point `i` is long enough to tell a course. */
  predicate Moves(g: Globe, p: Plan, i: nat) {
    i + 1 < |p| && g.dist(p[i].at, p[i + 1].at) >= 1.0
  }

  /** The course of the last moving hop at or before `i`. */
  function RawBearing(g: Globe, p: Plan, i: nat): Option<real>
    requires i < |p|
  {
    if Moves(g, p, i) then Some(g.bearing(p[i].at, p[i + 1].at))
    else if i > 0 then RawBearing(g, p, i - 1) else None
  }

  function RawBearings(g: Globe, p: Plan): (r: seq<Option<real>>)
    ensures |r| == |p|
  {
    seq(|p|, i requires 0 <= i < |p| => RawBearing(g, p, i))
  }

  function Speeds(g: Globe, p: Plan): (r: seq<real>)
    ensures |r| == |p|
  {
    seq(|p|, i requires 0 <= i < |p| => SpeedAt(g, p, i))
  }

  function FirstKnown(raw: seq<Option<real>>): real {
    if raw == [] then 0.0 else if raw[0].Some? then raw[0].value else FirstKnown(raw[1..])
  }

  function Backfilled(raw: seq<Option<real>>): (r: seq<real>)
    ensures |r| == |raw|
  {
    seq(|raw|, i requires 0 <= i < |raw| => if raw[i].Some? then raw[i].value else FirstKnown(raw))
  }

  // ----- one call -----

  datatype Call = Call(plan: Plan, now: int, abortAt: Option<nat>)

  function FixAt(g: Globe, p: Plan, base: int, i: nat): Fix
    requires i < |p|
  {
    Fix(p[i].at, Speeds(g, p)[i], Backfilled(RawBearings(g, p))[i], base + p[i].SimMs())
  }

  function Fixes(g: Globe, p: Plan, base: int, n: nat): (r: seq<Fix>)
    requires n <= |p|
    ensures |r| == n
  {
    seq(n, i requires 0 <= i < n => FixAt(g, p, base, i))
  }

  function Base(p: Plan, now: int, last: int): int
    requires p != []
  {
    (if now > last + 1000 then now else last + 1000) - p[0].SimMs()
  }

  /** How many points are fed before the abort is seen. */
  function FedCount(c: Call): (n: nat)
    ensures n <= |c.plan|
  {
    if c.abortAt.Some? && c.abortAt.value < |c.plan| then c.abortAt.value else |c.plan|
  }

  function Fed(g: Globe, c: Call, last: int): seq<Fix> {
    if c.plan == [] then [] else Fixes(g, c.plan, Base(c.plan, c.now, last), FedCount(c))
  }

  function LastStamp(fixes: seq<Fix>, last: int): int {
    if fixes == [] then last else fixes[|fixes| - 1].stamp
  }

  /** Speeds and courses, looked up before the first fix is fed. */
  method Survey(g: Globe, p: Plan) returns (speeds: seq<real>, bearings: seq<real>)
    ensures speeds == Speeds(g, p) && bearings == Backfilled(RawBearings(g, p))
  {
    speeds := [];
    var raw: seq<Option<real>>, lastBearing: Option<real> := [], None;
    for i := 0 to |p|
      invariant speeds == Speeds(g, p)[..i] && raw == RawBearings(g, p)[..i]
      invariant lastBearing == if i == 0 then None else RawBearing(g, p, i - 1)
    {
      if i + 1 < |p| {
        speeds := speeds + [HopSpeed(g, p[i], p[i + 1])];
        if g.dist(p[i].at, p[i + 1].at) >= 1.0 {
          lastBearing := Some(g.bearing(p[i].at, p[i + 1].at));
        }
      } else {
        speeds := speeds + [if speeds != [] then speeds[|speeds| - 1] else 0.0];
      }
      raw := raw + [lastBearing];
    }
    assert speeds == Speeds(g, p) && raw == RawBearings(g, p);
    bearings := Backfilled(raw);
  }

  /** The pump, and the last stamp it keeps between calls. */
  class Pump {
    var lastStampMs: int

    constructor ()
      ensures lastStampMs == 0
    {
      lastStampMs := 0;
    }

    method Feed(g: Globe, c: Call) returns (fixes: seq<Fix>, aborted: bool)
      modifies this
      ensures fixes == Fed(g, c, old(lastStampMs)) && lastStampMs == LastStamp(fixes, old(lastStampMs))
      ensures aborted == (|fixes| < |c.plan|)
    {
      fixes, aborted := [], false;
      var p := c.plan;
      if p == [] {
        return;
      }
      var speeds, bearings := Survey(g, p);
      var base := Base(p, c.now, lastStampMs);
      for i := 0 to |p|
        invariant fixes == Fixes(g, p, base, i) && lastStampMs == LastStamp(fixes, old(lastStampMs))
        invariant c.abortAt.Some? ==> i <= c.abortAt.value || |p| <= c.abortAt.value
      {
        if c.abortAt == Some(i) {
          aborted := true;
          return;
        }
        var stamp := base + p[i].SimMs();
        fixes := fixes + [Fix(p[i].at, speeds[i], bearings[i], stamp)];
        lastStampMs := stamp;
      }
    }
  }

  // ----- courses -----

  /** A fix on a moving hop heads along it, ... */
  lemma MovingFixHeadsAlong(g: Globe, p: Plan, base: int, i: nat)
    requires Moves(g, p, i)
    ensures FixAt(g, p, base, i).bearing == g.bearing(p[i].at, p[i + 1].at)
    ensures p[i + 1].SimMs() > p[i].SimMs() ==>
      FixAt(g, p, base, i).speed * ((p[i + 1].SimMs() - p[i].SimMs()) as real / 1000.0) == g.dist(p[i].at, p[i + 1].at)
  {
    var dt := (p[i + 1].SimMs() - p[i].SimMs()) as real / 1000.0;
    if dt > 0.0 {
      assert HopSpeed(g, p[i], p[i + 1]) * dt == g.dist(p[i].at, p[i + 1].at);
    }
  }

  lemma {:induction false} RawBearingKnown(g: Globe, p: Plan, h: nat, i: nat)
    requires h <= i < |p| && Moves(g, p, h)
    ensures RawBearing(g, p, i).Some?
    decreases i
  {
    if h < i {
      RawBearingKnown(g, p, h, i - 1);
    }
  }

  /** ... a fix that stands still keeps the course of the fix before, ... */
  lemma StandingFixKeepsCourse(g: Globe, p: Plan, base: int, i: nat)
    requires 0 < i < |p| && !Moves(g, p, i)
    ensures FixAt(g, p, base, i).bearing == FixAt(g, p, base, i - 1).bearing
  {
    assert RawBearings(g, p)[i] == RawBearings(g, p)[i - 1];
  }

  lemma {:induction false} FirstKnownIs(raw: seq<Option<real>>, i: nat)
    requires i < |raw| && raw[i].Some? && forall k :: 0 <= k < i ==> raw[k].None?
    ensures FirstKnown(raw) == raw[i].value
  {
    if i > 0 {
      FirstKnownIs(raw[1..], i - 1);
    }
  }

  lemma {:induction false} NothingKnown(g: Globe, p: Plan, i: nat)
    requires i < |p| && forall h :: 0 <= h <= i ==> !Moves(g, p, h)
    ensures RawBearing(g, p, i).None?
  {
    if i > 0 {
      NothingKnown(g, p, i - 1);
    }
  }

  /** ... and fixes before the first moving hop already head along it. */
  lemma LeadingFixesHeadAlong(g: Globe, p: Plan, base: int, first: nat, i: nat)
    requires Moves(g, p, first) && (forall h :: 0 <= h < first ==> !Moves(g, p, h)) && i <= first
    ensures FixAt(g, p, base, i).bearing == g.bearing(p[first].at, p[first + 1].at)
  {
    forall k | 0 <= k < first ensures RawBearings(g, p)[k].None? {
      NothingKnown(g, p, k);
    }
    FirstKnownIs(RawBearings(g, p), first);
  }

  lemma {:induction false} NoneKnown(raw: seq<Option<real>>)
    requires forall k :: 0 <= k < |raw| ==> raw[k].None?
    ensures FirstKnown(raw) == 0.0
  {
    if raw != [] {
      NoneKnown(raw[1..]);
    }
  }

  /** A plan none of whose hops covers a metre heads north throughout. */
  lemma StandingPlanHeadsNorth(g: Globe, p: Plan, base: int, i: nat)
    requires i < |p| && forall h :: 0 <= h < |p| - 1 ==> g.dist(p[h].at, p[h + 1].at) < 1.0
    ensures FixAt(g, p, base, i).bearing == 0.0
  {
    forall k | 0 <= k < |p| ensures RawBearings(g, p)[k].None? {
      NothingKnown(g, p, k);
    }
    NoneKnown(RawBearings(g, p));
  }

  /** The hop from a point decides speed and course there: from one metre on it tells
      a course, and one the simulated clock does not advance over has no speed. */
  lemma HopDecides(g: Globe, p: Plan, base: int, i: nat)
    requires i + 1 < |p|
    ensures g.dist(p[i].at, p[i + 1].at) >= 1.0 ==> FixAt(g, p, base, i).bearing == g.bearing(p[i].at, p[i + 1].at)
    ensures p[i + 1].SimMs() <= p[i].SimMs() ==> FixAt(g, p, base, i).speed == 0.0
    ensures g.dist(p[i].at, p[i + 1].at) < 1.0 && i > 0 ==> FixAt(g, p, base, i).bearing == FixAt(g, p, base, i - 1).bearing
  {
    if g.dist(p[i].at, p[i + 1].at) < 1.0 && i > 0 {
      StandingFixKeepsCourse(g, p, base, i);
    }
  }

  /** The last fix has the speed and the course of the one before. */
  lemma LastFixGoesOn(g: Globe, p: Plan, base: int)
    requires p != []
    ensures var n := |p| - 1;
            if n == 0 then FixAt(g, p, base, n).speed == 0.0
            else FixAt(g, p, base, n).speed == FixAt(g, p, base, n - 1).speed
                 && FixAt(g, p, base, n).bearing == FixAt(g, p, base, n - 1).bearing
  {
    if |p| > 1 {
      StandingFixKeepsCourse(g, p, base, |p| - 1);
    }
  }

  // ----- compression is invisible -----

  /** Where the fixes lie and what the simulated clock reads there. */
  ghost predicate SameDrive(p: Plan, q: Plan) {
    |p| == |q| && forall i :: 0 <= i < |p| ==> p[i].at == q[i].at && p[i].SimMs() == q[i].SimMs()
  }

  lemma {:induction false} SameSurvey(g: Globe, p: Plan, q: Plan, i: nat)
    requires SameDrive(p, q) && i < |p|
    ensures SpeedAt(g, p, i) == SpeedAt(g, q, i) && RawBearing(g, p, i) == RawBearing(g, q, i)
  {
    if i > 0 {
      SameSurvey(g, p, q, i - 1);
    }
  }

  lemma SameFix(g: Globe, p: Plan, q: Plan, base: int, base': int, i: nat)
    requires SameDrive(p, q) && i < |p|
    ensures FixAt(g, p, base, i).(stamp := 0) == FixAt(g, q, base', i).(stamp := 0)
    ensures FixAt(g, p, base, i).stamp - base == FixAt(g, q, base', i).stamp - base'
  {
    forall k | 0 <= k < |p| ensures RawBearings(g, p)[k] == RawBearings(g, q)[k] {
      SameSurvey(g, p, q, k);
    }
    assert RawBearings(g, p) == RawBearings(g, q);
    SameSurvey(g, p, q, i);
  }

  lemma CompressedIsSameDrive(p: Plan, factor: real)
    requires Compressed(p, factor).Some?
    ensures SameDrive(p, Compressed(p, factor).value)
  {
  }

  /** Pumping a compressed plan, whenever, feeds the positions, speeds and courses
      of the plan itself, with stamps shifted by one amount for the whole call. */
  lemma CompressionIsInvisible(g: Globe, p: Plan, factor: real, now: int, last: int, now': int, last': int, i: nat)
    requires Compressed(p, factor).Some? && i < |p|
    ensures var a, b := Fed(g, Call(p, now, None), last), Fed(g, Call(Compressed(p, factor).value, now', None), last');
            && |a| == |b| == |p| && a[i].(stamp := 0) == b[i].(stamp := 0)
            && a[i].stamp - a[0].stamp == b[i].stamp - b[0].stamp
  {
    var q := Compressed(p, factor).value;
    CompressedIsSameDrive(p, factor);
    var base, base' := Base(p, now, last), Base(q, now', last');
    SameFix(g, p, q, base, base', i);
    SameFix(g, p, q, base, base', 0);
  }

  // ----- stamps over many calls -----

  ghost predicate SimSorted(p: Plan) {
    forall i, j :: 0 <= i < j < |p| ==> p[i].SimMs() <= p[j].SimMs()
  }

  ghost predicate AllSimSorted(calls: seq<Call>) {
    forall c :: c in calls ==> SimSorted(c.plan)
  }

  function NextStamp(g: Globe, c: Call, last: int): int {
    LastStamp(Fed(g, c, last), last)
  }

  function Next(g: Globe): (Call, int) -> int {
    (c: Call, last: int) => NextStamp(g, c, last)
  }

  /** The last stamp after the first `n` calls. */
  function After(next: (Call, int) -> int, calls: seq<Call>, n: nat, last: int): int
    requires n <= |calls|
  {
    if n == 0 then last else next(calls[n - 1], After(next, calls, n - 1, last))
  }

  function Feeder(g: Globe): (Call, int) -> seq<Fix> {
    (c: Call, last: int) => Fed(g, c, last)
  }

  /** What the k-th call feeds. */
  function FedBy(g: Globe, calls: seq<Call>, k: nat, last: int): seq<Fix>
    requires k < |calls|
  {
    Feeder(g)(calls[k], After(Next(g), calls, k, last))
  }

  /** Within a call stamps never go back, and all are at least a second later than
      the last stamp before the call. */
  lemma StampsOfCall(g: Globe, c: Call, last: int, i: nat, j: nat)
    requires SimSorted(c.plan) && i <= j < |Fed(g, c, last)|
    ensures last + 1000 <= Fed(g, c, last)[i].stamp <= Fed(g, c, last)[j].stamp <= LastStamp(Fed(g, c, last), last)
  {
    var n := |Fed(g, c, last)|;
    StampAt(g, c, last, i);
    StampAt(g, c, last, j);
    StampAt(g, c, last, n - 1);
    SimNeverBack(c.plan, 0, i);
    SimNeverBack(c.plan, i, j);
    SimNeverBack(c.plan, j, n - 1);
  }

  /** The first stamp is the wall clock's time, or a second after the last stamp where
      that is later; the others follow the simulated clock from there. */
  lemma StampsStartNow(g: Globe, c: Call, last: int, i: nat)
    requires i < |Fed(g, c, last)|
    ensures var fed := Fed(g, c, last);
            && |fed| <= |c.plan|
            && fed[0].stamp >= c.now && fed[0].stamp >= last + 1000
            && fed[0].stamp in {c.now, last + 1000}
            && fed[i].stamp - fed[0].stamp == c.plan[i].SimMs() - c.plan[0].SimMs()
  {
    StampAt(g, c, last, 0);
    StampAt(g, c, last, i);
  }

  /** All points are fed, or those before the abort. */
  lemma FedUntilAbort(g: Globe, c: Call, last: int)
    ensures |Fed(g, c, last)| == match c.abortAt
                                 case None => |c.plan|
                                 case Some(k) => if k <= |c.plan| then k else |c.plan|
    ensures forall i :: 0 <= i < |Fed(g, c, last)| ==> Fed(g, c, last)[i].at == c.plan[i].at
  {
  }

  lemma StampAt(g: Globe, c: Call, last: int, k: nat)
    requires k < |Fed(g, c, last)|
    ensures k < |c.plan| && Fed(g, c, last)[k].stamp == Base(c.plan, c.now, last) + c.plan[k].SimMs()
  {
  }

  lemma SimNeverBack(p: Plan, i: nat, j: nat)
    requires SimSorted(p) && i <= j < |p|
    ensures p[i].SimMs() <= p[j].SimMs()
  {
  }

  lemma CallGrows(g: Globe, c: Call, last: int)
    requires SimSorted(c.plan)
    ensures last <= NextStamp(g, c, last)
  {
    var fed := Fed(g, c, last);
    if fed != [] {
      StampsOfCall(g, c, last, 0, |fed| - 1);
    }
  }

  ghost predicate Grows(next: (Call, int) -> int, calls: seq<Call>) {
    forall c, last :: c in calls ==> last <= next(c, last)
  }

  lemma {:induction false} LastStampGrows(next: (Call, int) -> int, calls: seq<Call>, k: nat, n: nat, last: int)
    requires Grows(next, calls) && k <= n <= |calls|
    ensures After(next, calls, k, last) <= After(next, calls, n, last)
    decreases n
  {
    if k < n {
      LastStampGrows(next, calls, k, n - 1, last);
    }
  }

  lemma SortedCallsGrow(g: Globe, calls: seq<Call>)
    requires AllSimSorted(calls)
    ensures Grows(Next(g), calls)
  {
    forall c, last | c in calls ensures last <= Next(g)(c, last) {
      CallGrows(g, c, last);
    }
  }

  /** What a call feeds comes a second after the last stamp before it, and no later
      than the last stamp after it. */
  ghost predicate Between(next: (Call, int) -> int, fed: (Call, int) -> seq<Fix>, calls: seq<Call>) {
    forall c, last, i :: c in calls && 0 <= i < |fed(c, last)| ==>
      last + 1000 <= fed(c, last)[i].stamp <= next(c, last)
  }

  lemma SortedCallsBetween(g: Globe, calls: seq<Call>)
    requires AllSimSorted(calls)
    ensures Between(Next(g), Feeder(g), calls)
  {
    forall c, last, i | c in calls && 0 <= i < |Feeder(g)(c, last)|
      ensures last + 1000 <= Feeder(g)(c, last)[i].stamp <= Next(g)(c, last)
    {
      StampsOfCall(g, c, last, i, i);
    }
  }

  lemma StampsRise(next: (Call, int) -> int, fed: (Call, int) -> seq<Fix>, calls: seq<Call>, last: int, k: nat, l: nat,
                   i: nat, j: nat)
    requires Grows(next, calls) && Between(next, fed, calls) && k < l < |calls|
    requires i < |fed(calls[k], After(next, calls, k, last))| && j < |fed(calls[l], After(next, calls, l, last))|
    ensures fed(calls[k], After(next, calls, k, last))[i].stamp + 1000
         <= fed(calls[l], After(next, calls, l, last))[j].stamp
  {
    LastStampGrows(next, calls, k + 1, l, last);
  }

  /** Over any calls, aborted ones included and whatever the wall clock does, a fix
      of a later call is stamped at least a second after any fix of an earlier one. */
  lemma StampsOverCalls(g: Globe, calls: seq<Call>, last: int, k: nat, l: nat, i: nat, j: nat)
    requires AllSimSorted(calls)
    requires k < l < |calls| && i < |FedBy(g, calls, k, last)| && j < |FedBy(g, calls, l, last)|
    ensures FedBy(g, calls, k, last)[i].stamp + 1000 <= FedBy(g, calls, l, last)[j].stamp
  {
    SortedCallsGrow(g, calls);
    SortedCallsBetween(g, calls);
    StampsRise(Next(g), Feeder(g), calls, last, k, l, i, j);
  }

  lemma SortedIsSimSorted(p: Plan)
    requires Sorted(p)
    ensures SimSorted(p)
  {
    forall i, j | 0 <= i < j < |p| ensures p[i].SimMs() <= p[j].SimMs() {
      assert InOrder(p[i], p[j]);
    }
  }

  /** A plan in order may be compressed, cut, thinned and stopped in any way before
      it is fed: its fixes are still stamped in order, after all that came before. */
  lemma TransformedStampsRise(g: Globe, p: Plan, ops: seq<Op>, c: Call, last: int, i: nat, j: nat)
    requires Sorted(p) && forall k :: 0 <= k < |ops| ==> Forward(ops[k])
    requires ApplyAll(p, ops) == Some(c.plan) && i <= j < |Fed(g, c, last)|
    ensures last + 1000 <= Fed(g, c, last)[i].stamp <= Fed(g, c, last)[j].stamp
  {
    PlansStaySorted(p, ops);
    SortedIsSimSorted(c.plan);
    StampsOfCall(g, c, last, i, j);
  }
}
