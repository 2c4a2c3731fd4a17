/**
 The average-speed arithmetic of the app: the average so far, and the greatest
 speed for the rest of the zone that still ends within the limit.
 */
module AverageSpeed {
  import opened Prelude

  const MIN_ACTIVE_SEC := 1.0
  const MAX_REMAINDER_KMH := 250.0

  datatype SpeedStatus = SpeedStatus(avg: Option<real>, maxForRemainder: real, remaining: real, timeRemaining: real,
                                     isOverLimit: bool)

  function ActiveSec(elapsedMs: int, stopMs: int): real {
    Max(elapsedMs as real / 1000.0 - stopMs as real / 1000.0, 0.0)
  }

  /** The time the zone takes at the limit. */
  function LegalSec(zone: real, limitKmh: int): real {
    var limitMs := limitKmh as real / 3.6;
    if limitMs > 0.0 then zone / limitMs else 0.0
  }

  function MaxForRemainder(remaining: real, timeRemaining: real): real {
    if remaining <= 0.0 then 0.0
    else if timeRemaining <= 0.0 then MAX_REMAINDER_KMH
    else Min(remaining / timeRemaining * 3.6, MAX_REMAINDER_KMH)
  }

  function Calculate(entryTime: int, now: int, stopMs: int, traveled: real, zone: real, limitKmh: int,
                     remainingOverride: Option<real>): SpeedStatus
  {
    var active := ActiveSec(now - entryTime, stopMs);
    var avg := if active >= MIN_ACTIVE_SEC then Some(traveled / active * 3.6) else None;
    var remaining := Max(if remainingOverride.Some? then remainingOverride.value else zone - traveled, 0.0);
    var timeRemaining := LegalSec(zone, limitKmh) - active;
    SpeedStatus(avg, MaxForRemainder(remaining, timeRemaining), remaining, timeRemaining,
                avg.Some? && avg.value > limitKmh as real)
  }

  // ----- arithmetic -----

  /** Dividing is comparing products. */
  lemma QuotientAtLeast(x: real, y: real, c: real)
    requires y > 0.0
    ensures x / y >= c <==> x >= c * y
    ensures x / y <= c <==> x <= c * y
  {
    var q := x / y;
    assert q * y == x;
    if q < c {
      MulLess(q, c, y);
    } else if q > c {
      MulLess(c, q, y);
    }
  }

  lemma LegalDistance(zone: real, limitKmh: int)
    requires limitKmh > 0
    ensures limitKmh as real / 3.6 > 0.0 && limitKmh as real / 3.6 * LegalSec(zone, limitKmh) == zone
    ensures zone > 0.0 ==> LegalSec(zone, limitKmh) > 0.0
  {
    var v := limitKmh as real / 3.6;
    assert zone / v * v == zone;
    if zone > 0.0 {
      QuotientAtLeast(zone, v, 0.0);
      assert LegalSec(zone, limitKmh) != 0.0;
    }
  }

  // ----- shown maximum and average -----

  /** With time and distance left and the two adding up to the zone, the shown
      maximum is at least the limit exactly when the average is at most the limit,
      for every limit the display can show. */
  lemma ShownAtLeastLimitIff(entryTime: int, now: int, stopMs: int, traveled: real, zone: real, limitKmh: int)
    requires limitKmh > 0 && traveled < zone
    requires var s := Calculate(entryTime, now, stopMs, traveled, zone, limitKmh, None); s.avg.Some? && s.timeRemaining > 0.0
    ensures var s := Calculate(entryTime, now, stopMs, traveled, zone, limitKmh, None);
            s.maxForRemainder >= limitKmh as real
            <==> s.avg.value <= limitKmh as real && limitKmh as real <= MAX_REMAINDER_KMH
  {
    var v := limitKmh as real / 3.6;
    var active := ActiveSec(now - entryTime, stopMs);
    var t := LegalSec(zone, limitKmh) - active;
    LegalDistance(zone, limitKmh);
    assert v * t == zone - v * active;
    QuotientAtLeast(zone - traveled, t, v);
    QuotientAtLeast(traveled, active, v);
  }

  /** Driving the rest of the zone at the uncapped maximum uses up exactly the time
      left, and the average at the end is exactly the limit. */
  lemma ShownMaximumIsExact(elapsedMs: int, stopMs: int, traveled: real, zone: real, limitKmh: int)
    requires limitKmh > 0 && zone > 0.0 && traveled < zone
    requires Calculate(0, elapsedMs, stopMs, traveled, zone, limitKmh, None).timeRemaining > 0.0
    requires Calculate(0, elapsedMs, stopMs, traveled, zone, limitKmh, None).maxForRemainder < MAX_REMAINDER_KMH
    ensures var s := Calculate(0, elapsedMs, stopMs, traveled, zone, limitKmh, None);
            var active := ActiveSec(elapsedMs, stopMs) + s.timeRemaining;
            && traveled + s.maxForRemainder / 3.6 * s.timeRemaining == zone
            && active > 0.0 && zone / active * 3.6 == limitKmh as real
  {
    var active := ActiveSec(elapsedMs, stopMs);
    var t := LegalSec(zone, limitKmh) - active;
    LegalDistance(zone, limitKmh);
    assert (zone - traveled) / t * t == zone - traveled;
    ExactQuotient(zone, LegalSec(zone, limitKmh), limitKmh as real / 3.6);
  }

  lemma ExactQuotient(x: real, y: real, q: real)
    requires y > 0.0 && q * y == x
    ensures x / y == q
  {
    QuotientAtLeast(x, y, q);
  }

  /** A distance still to go that is known from elsewhere takes the place of the
      difference, in what is shown of the rest and in nothing else. */
  lemma OverrideIsTheRest(entryTime: int, now: int, stopMs: int, traveled: real, zone: real, limitKmh: int, rest: real)
    ensures var s := Calculate(entryTime, now, stopMs, traveled, zone, limitKmh, Some(rest));
            var t := Calculate(entryTime, now, stopMs, zone - rest, zone, limitKmh, None);
            && s.remaining == t.remaining && s.maxForRemainder == t.maxForRemainder && s.timeRemaining == t.timeRemaining
    ensures var s := Calculate(entryTime, now, stopMs, traveled, zone, limitKmh, Some(rest));
            var t := Calculate(entryTime, now, stopMs, traveled, zone, limitKmh, None);
            s.avg == t.avg && s.isOverLimit == t.isOverLimit && s.timeRemaining == t.timeRemaining
  {
  }

  /** With a distance left over the shown maximum covers it in the time left, or is the
      cap and falls short; with none left zero is shown, and with no time left the cap. */
  lemma ShownCoversTheRest(entryTime: int, now: int, stopMs: int, traveled: real, zone: real, limitKmh: int, rest: real)
    ensures var s := Calculate(entryTime, now, stopMs, traveled, zone, limitKmh, Some(rest));
            && (rest <= 0.0 ==> s.remaining == 0.0 && s.maxForRemainder == 0.0)
            && (rest > 0.0 ==> s.remaining == rest && 0.0 < s.maxForRemainder <= 250.0)
            && (rest > 0.0 && s.timeRemaining <= 0.0 ==> s.maxForRemainder == 250.0)
            && (rest > 0.0 && s.timeRemaining > 0.0 ==>
                  s.maxForRemainder / 3.6 * s.timeRemaining <= rest
                  && (s.maxForRemainder < 250.0 ==> s.maxForRemainder / 3.6 * s.timeRemaining == rest))
  {
    var s := Calculate(entryTime, now, stopMs, traveled, zone, limitKmh, Some(rest));
    if rest > 0.0 && s.timeRemaining > 0.0 {
      CapOrQuotient(rest, s.timeRemaining);
    }
  }

  lemma CapOrQuotient(rest: real, time: real)
    requires rest > 0.0 && time > 0.0
    ensures var shown := Min(rest / time * 3.6, 250.0);
            0.0 < shown && shown / 3.6 * time <= rest && (shown < 250.0 ==> shown / 3.6 * time == rest)
  {
    var q := rest / time;
    assert q * time == rest;
    QuotientAtLeast(rest, time, 0.0);
    assert q != 0.0;
    if q * 3.6 > 250.0 {
      MulLess(250.0 / 3.6, q, time);
    }
  }

  /** Without a positive limit no time is allowed at all. */
  lemma NoLimitNoTime(entryTime: int, now: int, stopMs: int, traveled: real, zone: real, limitKmh: int, rest: real)
    requires limitKmh <= 0 && rest > 0.0
    ensures var s := Calculate(entryTime, now, stopMs, traveled, zone, limitKmh, Some(rest));
            s.timeRemaining <= 0.0 && s.maxForRemainder == 250.0
  {
  }

  // ----- a driver who obeys -----

  datatype Move = Drive(ms: nat, metres: real) | Rest(ms: nat)

  datatype Trip = Trip(elapsedMs: nat, stopMs: nat, traveled: real)

  const START := Trip(0, 0, 0.0)

  function Status(zone: real, limitKmh: int, trip: Trip): SpeedStatus {
    Calculate(0, trip.elapsedMs, trip.stopMs, trip.traveled, zone, limitKmh, None)
  }

  /** No faster than shown, for as long as the value stands. */
  predicate Obeys(zone: real, limitKmh: int, trip: Trip, move: Move) {
    match move
    case Drive(ms, metres) =>
      0.0 <= metres <= Status(zone, limitKmh, trip).maxForRemainder / 3.6 * (ms as real / 1000.0)
    case Rest(_) => true
  }

  function Moved(trip: Trip, move: Move): Trip {
    match move
    case Drive(ms, metres) => Trip(trip.elapsedMs + ms, trip.stopMs, trip.traveled + metres)
    case Rest(ms) => Trip(trip.elapsedMs + ms, trip.stopMs + ms, trip.traveled)
  }

  function After(trip: Trip, moves: seq<Move>): Trip {
    if moves == [] then trip else Moved(After(trip, moves[..|moves| - 1]), moves[|moves| - 1])
  }

  predicate ObeysAll(zone: real, limitKmh: int, trip: Trip, moves: seq<Move>) {
    moves == []
    || (var n := |moves| - 1;
        ObeysAll(zone, limitKmh, trip, moves[..n]) && Obeys(zone, limitKmh, After(trip, moves[..n]), moves[n]))
  }

  /** Before the legal time is up the end is not reached. */
  predicate InTime(zone: real, limitKmh: int, trip: Trip) {
    trip.stopMs <= trip.elapsedMs
    && (ActiveSec(trip.elapsedMs, trip.stopMs) < LegalSec(zone, limitKmh) ==> trip.traveled < zone)
  }

  lemma ShareOfRemainder(metres: real, speed: real, dt: real, remaining: real, time: real)
    requires remaining > 0.0 && time > 0.0 && 0.0 <= dt < time
    requires speed <= remaining / time && metres <= speed * dt
    ensures metres < remaining
  {
    var q := remaining / time;
    assert q * time == remaining;
    QuotientAtLeast(remaining, time, 0.0);
    assert q > 0.0 by {
      assert q != 0.0;
    }
    MulLess(dt, time, q);
    if dt > 0.0 {
      assert speed * dt <= q * dt by {
        if speed < q {
          MulLess(speed, q, dt);
        }
      }
    }
  }

  lemma ActiveAfter(trip: Trip, ms: nat)
    requires trip.stopMs <= trip.elapsedMs
    ensures ActiveSec(trip.elapsedMs + ms, trip.stopMs) == ActiveSec(trip.elapsedMs, trip.stopMs) + ms as real / 1000.0
    ensures ActiveSec(trip.elapsedMs + ms, trip.stopMs + ms) == ActiveSec(trip.elapsedMs, trip.stopMs)
  {
  }

  lemma ShownIsShare(zone: real, limitKmh: int, trip: Trip)
    requires trip.traveled < zone && ActiveSec(trip.elapsedMs, trip.stopMs) < LegalSec(zone, limitKmh)
    ensures Status(zone, limitKmh, trip).maxForRemainder / 3.6
         <= (zone - trip.traveled) / (LegalSec(zone, limitKmh) - ActiveSec(trip.elapsedMs, trip.stopMs))
  {
  }

  lemma MoveInTime(zone: real, limitKmh: int, trip: Trip, move: Move)
    requires InTime(zone, limitKmh, trip) && Obeys(zone, limitKmh, trip, move)
    ensures InTime(zone, limitKmh, Moved(trip, move))
  {
    ActiveAfter(trip, move.ms);
    var legal, active := LegalSec(zone, limitKmh), ActiveSec(trip.elapsedMs, trip.stopMs);
    if move.Drive? && active + move.ms as real / 1000.0 < legal {
      ShownIsShare(zone, limitKmh, trip);
      ShareOfRemainder(move.metres, Status(zone, limitKmh, trip).maxForRemainder / 3.6, move.ms as real / 1000.0,
                       zone - trip.traveled, legal - active);
    }
  }

  lemma {:induction false} RunInTime(zone: real, limitKmh: int, moves: seq<Move>)
    requires zone > 0.0 && ObeysAll(zone, limitKmh, START, moves)
    ensures InTime(zone, limitKmh, After(START, moves))
    decreases |moves|
  {
    if moves != [] {
      var n := |moves| - 1;
      RunInTime(zone, limitKmh, moves[..n]);
      MoveInTime(zone, limitKmh, After(START, moves[..n]), moves[n]);
    }
  }

  lemma EnoughTime(zone: real, limitKmh: int, active: real)
    requires zone > 0.0 && limitKmh > 0 && LegalSec(zone, limitKmh) <= active
    ensures active > 0.0 && zone / active * 3.6 <= limitKmh as real
  {
    var v := limitKmh as real / 3.6;
    LegalDistance(zone, limitKmh);
    if LegalSec(zone, limitKmh) < active {
      MulLess(LegalSec(zone, limitKmh), active, v);
    }
    QuotientAtLeast(zone, active, v);
  }

  /** However often a driver who never exceeds the shown maximum drives and stops,
      the zone takes at least its legal time, so at its end the average is within
      the limit. */
  lemma ObedientDriverIsWithinLimit(zone: real, limitKmh: int, moves: seq<Move>)
    requires zone > 0.0 && limitKmh > 0 && ObeysAll(zone, limitKmh, START, moves)
    requires After(START, moves).traveled >= zone
    ensures var trip := After(START, moves);
            var active := ActiveSec(trip.elapsedMs, trip.stopMs);
            && active > 0.0 && zone / active * 3.6 <= limitKmh as real
            && (trip.traveled == zone ==> !Status(zone, limitKmh, trip).isOverLimit)
  {
    var trip := After(START, moves);
    var active := ActiveSec(trip.elapsedMs, trip.stopMs);
    RunInTime(zone, limitKmh, moves);
    EnoughTime(zone, limitKmh, active);
    if trip.traveled == zone {
      AverageIs(zone, limitKmh, trip);
    }
  }

  lemma AverageIs(zone: real, limitKmh: int, trip: Trip)
    ensures var active := ActiveSec(trip.elapsedMs, trip.stopMs);
            var s := Status(zone, limitKmh, trip);
            s.isOverLimit ==> active > 0.0 && trip.traveled / active * 3.6 > limitKmh as real
  {
  }

  /** No obedient run ends in an average above the limit. */
  ghost predicate Safe(zone: real, limitKmh: int) {
    forall moves :: ObeysAll(zone, limitKmh, START, moves) && After(START, moves).traveled == zone ==>
      !Status(zone, limitKmh, After(START, moves)).isOverLimit
  }

  /** Enough milliseconds to cover the zone at the cap, and for an average. */
  function CapMs(zone: real): (ms: nat)
    requires zone > 0.0
    ensures ms >= 1000 && zone <= MAX_REMAINDER_KMH / 3.6 * (ms as real / 1000.0)
  {
    var ms := (zone * 1000.0).Floor + 1000;
    CapCovers(zone, ms);
    ms
  }

  lemma CapCovers(zone: real, ms: int)
    requires zone > 0.0 && ms as real >= zone * 1000.0
    ensures zone <= MAX_REMAINDER_KMH / 3.6 * (ms as real / 1000.0)
  {
    assert ms as real / 1000.0 >= zone;
    assert MAX_REMAINDER_KMH / 3.6 >= 1.0;
  }

  lemma CapRun(zone: real, limitKmh: int)
    requires zone > 0.0 && limitKmh <= 0
    ensures var moves := [Drive(CapMs(zone), zone)];
            && ObeysAll(zone, limitKmh, START, moves) && After(START, moves).traveled == zone
            && Status(zone, limitKmh, After(START, moves)).isOverLimit
  {
    var move := Drive(CapMs(zone), zone);
    var moves := [move];
    assert moves[..0] == [];
    assert After(START, moves[..0]) == START && ObeysAll(zone, limitKmh, START, moves[..0]);
    assert Obeys(zone, limitKmh, START, move);
    var trip := After(START, moves);
    assert trip == Trip(CapMs(zone), 0, zone);
    var active := ActiveSec(trip.elapsedMs, trip.stopMs);
    assert active >= 1.0;
    QuotientAtLeast(zone, active, 0.0);
    assert zone / active != 0.0;
  }

  /** Obeying is safe exactly for positive limits: without one the legal time is
      taken to be over at once and the cap is shown instead. */
  lemma SafeIff(zone: real, limitKmh: int)
    requires zone > 0.0
    ensures Safe(zone, limitKmh) <==> limitKmh > 0
  {
    if limitKmh > 0 {
      forall moves | ObeysAll(zone, limitKmh, START, moves) && After(START, moves).traveled == zone
        ensures !Status(zone, limitKmh, After(START, moves)).isOverLimit
      {
        ObedientDriverIsWithinLimit(zone, limitKmh, moves);
      }
    } else {
      CapRun(zone, limitKmh);
    }
  }
}
