/** When each warning is given, in terms of the zones validated. */
module Warnings {
  import opened Prelude
  import opened Zones
  import opened Merging
  import opened Validation

  /** No zone before it has its ID. */
  predicate FirstOfId(zones: seq<Zone>, i: nat)
    requires i < |zones|
  {
    forall h :: 0 <= h < i ==> zones[h].id != zones[i].id
  }

  /** The greatest limit, in km/h, the law or BG TOLL's map has for a class of road. */
  function Greatest(motorway: bool, v: Vehicle): int {
    match v
    case Car => if motorway then 140 else 90
    case Truck => if motorway then 90 else 80
    case Bus => if motorway then 100 else 80
    case Motorcycle => if motorway then 140 else 90
  }

  predicate Misspelt(env: Env, e: Endpoint, town: string) {
    e.town == Some(town) && town != "" && Truthy(e.latin) && !env.latinMatches(town, e.latin.value)
  }

  /** The markers differ, and run against the road's km direction. */
  predicate RunsAgainstKm(env: Env, z: Zone) {
    var k0, k1, axis := KmOf(env, z.start.km), KmOf(env, z.end.km), env.axis(env.road(z.road));
    && k0.Some? && k1.Some? && axis.Some?
    && if z.direction == axis.value.0 then k1.value < k0.value
       else z.direction == axis.value.1 && k0.value < k1.value
  }

  /** What a zone kept is warned about. */
  predicate Flawed(env: Env, z: Zone, w: Warning) {
    match w
    case NoLimit(id, v) => id == z.id && v in {Car, Truck, Bus} && LimitOf(z.limits, v) == None
    case ImpossibleLimit(id, v, limit) =>
      && id == z.id && v in {Car, Truck, Bus} && LimitOf(z.limits, v) == Some(limit)
      && (limit <= 0 || limit > Greatest(env.motorway(env.road(z.road)), v))
    case ReversedLine(id) =>
      && id == z.id && |z.centerline| >= 2
      && env.dist(z.centerline[|z.centerline| - 1], z.start.at) < env.dist(z.centerline[0], z.start.at)
    case LatinMismatch(id, town) => id == z.id && (Misspelt(env, z.start, town) || Misspelt(env, z.end, town))
    case KmOrder(id) => id == z.id && RunsAgainstKm(env, z)
    case DescriptionMismatch(id) =>
      && id == z.id && Truthy(z.start.town) && Truthy(z.end.town)
      && z.description != z.start.town.value + " \U{2013} " + z.end.town.value
    case _ => false
  }

  /** What any zone is warned about that is the first of its ID. */
  predicate Incomplete(env: Env, z: Zone, w: Warning) {
    match w
    case NoCoordinates(id) => id == z.id && z.start.at == ORIGIN
    case UnknownRoad(id) => id == z.id && !env.known(env.road(z.road))
    case BadDistance(id) => id == z.id && z.distance <= 0
    case _ => false
  }

  predicate Deserved(env: Env, zones: seq<Zone>, i: nat, w: Warning)
    requires i < |zones|
  {
    if FirstOfId(zones, i) then
      Incomplete(env, zones[i], w) || (zones[i].distance > 0 && Flawed(env, zones[i], w))
    else w == DuplicateId(zones[i].id)
  }

  lemma LimitWarnedIff(env: Env, z: Zone, v: Vehicle, w: Warning)
    ensures w in LimitWarnings(env, z, v) <==>
      || (w == NoLimit(z.id, v) && LimitOf(z.limits, v) == None)
      || (LimitOf(z.limits, v).Some? && w == ImpossibleLimit(z.id, v, LimitOf(z.limits, v).value)
          && (w.limit <= 0 || w.limit > Greatest(env.motorway(env.road(z.road)), v)))
  {
  }

  lemma LimitsWarnedIff(env: Env, z: Zone, w: Warning)
    ensures w in AllLimitWarnings(env, z) <==> (w.NoLimit? || w.ImpossibleLimit?) && Flawed(env, z, w)
  {
    LimitWarnedIff(env, z, Car, w);
    LimitWarnedIff(env, z, Truck, w);
    LimitWarnedIff(env, z, Bus, w);
    InEither(LimitWarnings(env, z, Truck), LimitWarnings(env, z, Bus), w);
    InEither(LimitWarnings(env, z, Car), LimitWarnings(env, z, Truck) + LimitWarnings(env, z, Bus), w);
  }

  lemma LatinWarnedIff(env: Env, id: string, e: Endpoint, w: Warning)
    ensures w in LatinWarnings(env, id, e) <==> w.LatinMismatch? && w.id == id && Misspelt(env, e, w.town)
  {
  }

  lemma KmOrderIff(env: Env, z: Zone)
    ensures KmOrderWrong(env, z) <==> RunsAgainstKm(env, z)
  {
  }

  lemma TownsWarnedIff(env: Env, z: Zone, w: Warning)
    ensures w in TownWarnings(env, z) <==> (w.LatinMismatch? || w.KmOrder?) && Flawed(env, z, w)
  {
    LatinWarnedIff(env, z.id, z.start, w);
    LatinWarnedIff(env, z.id, z.end, w);
    KmOrderIff(env, z);
    var km := if KmOrderWrong(env, z) then [KmOrder(z.id)] else [];
    InEither(LatinWarnings(env, z.id, z.end), km, w);
    InEither(LatinWarnings(env, z.id, z.start), LatinWarnings(env, z.id, z.end) + km, w);
  }

  lemma LateWarnedIff(env: Env, z: Zone, w: Warning)
    ensures w in LateWarnings(env, z) <==> Flawed(env, z, w)
  {
    LimitsWarnedIff(env, z, w);
    TownsWarnedIff(env, z, w);
    var reversed := if LineReversed(env, z) then [ReversedLine(z.id)] else [];
    var described := if DescriptionWrong(z) then [DescriptionMismatch(z.id)] else [];
    InEither(TownWarnings(env, z), described, w);
    InEither(reversed, TownWarnings(env, z) + described, w);
    InEither(AllLimitWarnings(env, z), reversed + (TownWarnings(env, z) + described), w);
  }

  lemma EarlyWarnedIff(env: Env, z: Zone, w: Warning)
    ensures w in EarlyWarnings(env, z) <==> !w.BadDistance? && Incomplete(env, z, w)
  {
  }

  lemma WarnedAtIff(env: Env, zones: seq<Zone>, i: nat, w: Warning)
    requires i < |zones|
    ensures w in WarningsOf(env, zones[i], zones[i].id in IdsSeen(zones, i)) <==> Deserved(env, zones, i, w)
  {
    var z := zones[i];
    assert z.id in IdsSeen(zones, i) <==> !FirstOfId(zones, i);
    EarlyWarnedIff(env, z, w);
    LateWarnedIff(env, z, w);
    InEither(EarlyWarnings(env, z), LateWarnings(env, z), w);
    InEither(EarlyWarnings(env, z), [BadDistance(z.id)], w);
  }

  lemma ZoneWarnedIff(env: Env, zones: seq<Zone>, w: Warning)
    ensures w in ZoneWarnings(env, zones, |zones|) <==> exists i :: 0 <= i < |zones| && Deserved(env, zones, i, w)
  {
    var at := WarningsAt(env, zones);
    GatherMember(at, 0, |zones|, w);
    forall i | 0 <= i < |zones| ensures w in at(i) <==> Deserved(env, zones, i, w) {
      WarnedAtIff(env, zones, i, w);
    }
    if w in ZoneWarnings(env, zones, |zones|) {
      var i: nat :| i < |zones| && w in at(i);
      assert Deserved(env, zones, i, w);
    }
    if i :| 0 <= i < |zones| && Deserved(env, zones, i, w) {
      assert w in at(i);
    }
  }

  // ----- which zones are kept -----

  predicate Keeps(zones: seq<Zone>, i: nat)
    requires i < |zones|
  {
    FirstOfId(zones, i) && zones[i].distance > 0
  }

  /** The indices below `n` of zones kept. */
  function KeptIndices(zones: seq<Zone>, n: nat): (r: seq<nat>)
    requires n <= |zones|
    ensures forall k :: 0 <= k < |r| ==> r[k] < n
    ensures forall k, l :: 0 <= k < l < |r| ==> r[k] < r[l]
  {
    if n == 0 then []
    else KeptIndices(zones, n - 1) + if Keeps(zones, n - 1) then [n - 1] else []
  }

  lemma {:induction false} KeptIndicesAre(zones: seq<Zone>, n: nat, i: nat)
    requires n <= |zones|
    ensures i in KeptIndices(zones, n) <==> i < n && Keeps(zones, i)
  {
    if n > 0 {
      KeptIndicesAre(zones, n - 1, i);
      InEither(KeptIndices(zones, n - 1), if Keeps(zones, n - 1) then [n - 1] else [], i);
    }
  }

  lemma KeptNext(zones: seq<Zone>, n: nat)
    requires n < |zones|
    ensures Kept(zones, n + 1) == Kept(zones, n) + if Keeps(zones, n) then [zones[n]] else []
  {
    assert zones[n].id in IdsSeen(zones, n) <==> !FirstOfId(zones, n);
  }

  lemma {:induction false} KeptAt(zones: seq<Zone>, n: nat)
    requires n <= |zones|
    ensures |Kept(zones, n)| == |KeptIndices(zones, n)|
    ensures forall k :: 0 <= k < |Kept(zones, n)| ==> Kept(zones, n)[k] == zones[KeptIndices(zones, n)[k]]
  {
    if n > 0 {
      KeptAt(zones, n - 1);
      KeptNext(zones, n - 1);
    }
  }

  /** Kept are the zones with a distance that are the first of their ID, in order. */
  lemma KeptAre(zones: seq<Zone>) returns (kept: seq<nat>)
    ensures forall k, l :: 0 <= k < l < |kept| ==> kept[k] < kept[l]
    ensures forall i: nat :: i in kept <==> i < |zones| && Keeps(zones, i)
    ensures |Kept(zones, |zones|)| == |kept|
    ensures forall k :: 0 <= k < |kept| ==> kept[k] < |zones| && Kept(zones, |zones|)[k] == zones[kept[k]]
  {
    kept := KeptIndices(zones, |zones|);
    KeptAt(zones, |zones|);
    forall i: nat {
      KeptIndicesAre(zones, |zones|, i);
    }
  }

  // ----- all warnings -----

  /** Two zones kept of one road and direction leave a gap too wide for one camera and
      too narrow for a stretch of road. */
  predicate GapBetween(env: Env, a: Zone, b: Zone) {
    && env.road(a.road) == env.road(b.road) && a.direction == b.direction
    && a.end.at != ORIGIN && b.start.at != ORIGIN
    && 10.0 < env.dist(a.end.at, b.start.at) < 500.0
  }

  predicate GapAt(env: Env, valid: seq<Zone>, a: nat, b: nat, w: Warning) {
    && a < |valid| && b < |valid| && a != b && GapBetween(env, valid[a], valid[b])
    && w == JunctionGap(valid[a].id, valid[b].id)
  }

  lemma GapAtIff(env: Env, valid: seq<Zone>, w: Warning)
    ensures w in Junctions(env, valid, |valid|) <==> exists a, b :: GapAt(env, valid, a, b, w)
  {
    JunctionsWarnIff(env, valid, |valid|, w);
    if exists a: nat, b: nat :: a < |valid| && ReportedGap(env, valid, a, b, w) {
      var a: nat, b: nat :| a < |valid| && ReportedGap(env, valid, a, b, w);
      assert GapAt(env, valid, a, b, w);
    }
    if exists a, b :: GapAt(env, valid, a, b, w) {
      var a, b :| GapAt(env, valid, a, b, w);
      assert ReportedGap(env, valid, a, b, w);
    }
  }

  lemma RoadSeenIff(env: Env, valid: seq<Zone>, road: string)
    ensures road in RoadsSeen(env, valid) <==> exists i :: 0 <= i < |valid| && env.road(valid[i].road) == road
  {
  }

  lemma {:induction false} OnlyMissing(seen: set<string>, required: seq<string>, w: Warning)
    requires w in Coverage(seen, required)
    ensures w.MissingCoverage?
  {
    var n := |required| - 1;
    if w in Coverage(seen, required[..n]) {
      OnlyMissing(seen, required[..n], w);
    }
  }

  lemma MissingIff(env: Env, valid: seq<Zone>, required: seq<string>, w: Warning)
    ensures w in Coverage(RoadsSeen(env, valid), required) <==>
      w.MissingCoverage? && w.road in required && !exists i :: 0 <= i < |valid| && env.road(valid[i].road) == w.road
  {
    if w.MissingCoverage? {
      CoverageWarnsIff(RoadsSeen(env, valid), required, w.road);
      RoadSeenIff(env, valid, w.road);
    } else if w in Coverage(RoadsSeen(env, valid), required) {
      OnlyMissing(RoadsSeen(env, valid), required, w);
    }
  }

  /** Every warning of a validation, and when it is given. */
  lemma WarnedIff(env: Env, required: seq<string>, zones: seq<Zone>, w: Warning)
    ensures var (valid, warnings) := Validated(env, required, zones);
            w in warnings <==>
              || (exists i :: 0 <= i < |zones| && Deserved(env, zones, i, w))
              || (exists a, b :: GapAt(env, valid, a, b, w))
              || (w.MissingCoverage? && w.road in required
                  && !exists i :: 0 <= i < |valid| && env.road(valid[i].road) == w.road)
  {
    var valid := Kept(zones, |zones|);
    var early, gaps, missing :=
      ZoneWarnings(env, zones, |zones|), Junctions(env, valid, |valid|), Coverage(RoadsSeen(env, valid), required);
    ZoneWarnedIff(env, zones, w);
    GapAtIff(env, valid, w);
    MissingIff(env, valid, required, w);
    InEither(early, gaps, w);
    InEither(early + gaps, missing, w);
  }
}
