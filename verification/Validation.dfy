/**
 The last pass: zones with a repeated ID or no distance are dropped, everything
 else only warned about.
 */
module Validation {
  import opened Prelude
  import opened Zones
  import opened Merging
  import opened Alignment
  import opened Seams

  datatype Warning =
    | DuplicateId(id: string)
    | NoCoordinates(id: string)
    | UnknownRoad(id: string)
    | BadDistance(id: string)
    | NoLimit(id: string, vehicle: Vehicle)
    | ImpossibleLimit(id: string, vehicle: Vehicle, limit: int)
    | ReversedLine(id: string)
    | LatinMismatch(id: string, town: string)
    | KmOrder(id: string)
    | DescriptionMismatch(id: string)
    | JunctionGap(from: string, to: string)
    | MissingCoverage(road: string)

  // ----- one zone -----

  function LimitWarnings(env: Env, z: Zone, v: Vehicle): seq<Warning> {
    match LimitOf(z.limits, v)
    case None => [NoLimit(z.id, v)]
    case Some(limit) => if Plausible(env, z.road, v, limit) then [] else [ImpossibleLimit(z.id, v, limit)]
  }

  function LatinWarnings(env: Env, id: string, e: Endpoint): seq<Warning> {
    if Truthy(e.town) && Truthy(e.latin) && !env.latinMatches(e.town.value, e.latin.value)
    then [LatinMismatch(id, e.town.value)] else []
  }

  predicate KmOrderWrong(env: Env, z: Zone) {
    var k0, k1 := KmOf(env, z.start.km), KmOf(env, z.end.km);
    match env.axis(env.road(z.road))
    case None => false
    case Some((up, down)) =>
      && k0.Some? && k1.Some? && k0 != k1 && (z.direction == up || z.direction == down)
      && (k1.value > k0.value) != (z.direction == up)
  }

  predicate DescriptionWrong(z: Zone) {
    Truthy(z.start.town) && Truthy(z.end.town) && z.description != Described(z.start.town.value, z.end.town.value)
  }

  predicate LineReversed(env: Env, z: Zone) {
    |z.centerline| >= 2 && EndFirst(env.dist, z.centerline, z.start.at)
  }

  function EarlyWarnings(env: Env, z: Zone): seq<Warning> {
    (if z.start.at == ORIGIN then [NoCoordinates(z.id)] else [])
    + (if !env.known(env.road(z.road)) then [UnknownRoad(z.id)] else [])
  }

  function AllLimitWarnings(env: Env, z: Zone): seq<Warning> {
    LimitWarnings(env, z, Car) + (LimitWarnings(env, z, Truck) + LimitWarnings(env, z, Bus))
  }

  function TownWarnings(env: Env, z: Zone): seq<Warning> {
    LatinWarnings(env, z.id, z.start) + (LatinWarnings(env, z.id, z.end)
    + (if KmOrderWrong(env, z) then [KmOrder(z.id)] else []))
  }

  function LateWarnings(env: Env, z: Zone): seq<Warning> {
    AllLimitWarnings(env, z)
    + ((if LineReversed(env, z) then [ReversedLine(z.id)] else [])
    + (TownWarnings(env, z)
    + (if DescriptionWrong(z) then [DescriptionMismatch(z.id)] else [])))
  }

  // ----- all zones -----

  function IdsSeen(zones: seq<Zone>, n: nat): set<string>
    requires n <= |zones|
  {
    set i | 0 <= i < n :: zones[i].id
  }

  /** The zones kept among the first `n`. */
  function Kept(zones: seq<Zone>, n: nat): seq<Zone>
    requires n <= |zones|
  {
    if n == 0 then []
    else if zones[n - 1].id in IdsSeen(zones, n - 1) || zones[n - 1].distance <= 0 then Kept(zones, n - 1)
    else Kept(zones, n - 1) + [zones[n - 1]]
  }

  function WarningsOf(env: Env, z: Zone, seen: bool): seq<Warning> {
    if seen then [DuplicateId(z.id)]
    else if z.distance <= 0 then EarlyWarnings(env, z) + [BadDistance(z.id)]
    else EarlyWarnings(env, z) + LateWarnings(env, z)
  }

  function WarningsAt(env: Env, zones: seq<Zone>): nat -> seq<Warning> {
    (i: nat) => if i < |zones| then WarningsOf(env, zones[i], zones[i].id in IdsSeen(zones, i)) else []
  }

  function ZoneWarnings(env: Env, zones: seq<Zone>, n: nat): seq<Warning>
    requires n <= |zones|
  {
    Gather(WarningsAt(env, zones), 0, n)
  }

  predicate GapSuspicious(env: Env, a: Zone, b: Zone) {
    && a.end.at != ORIGIN && b.start.at != ORIGIN
    && a.direction == b.direction && env.road(a.road) == env.road(b.road)
    && JUNCTION_GAP_MIN_M < env.dist(a.end.at, b.start.at) < JUNCTION_GAP_MAX_M
  }

  function JunctionAt(env: Env, valid: seq<Zone>, a: nat): nat -> seq<Warning>
    requires a < |valid|
  {
    (b: nat) =>
      if b < |valid| && b != a && GapSuspicious(env, valid[a], valid[b]) then [JunctionGap(valid[a].id, valid[b].id)]
      else []
  }

  function JunctionsOf(env: Env, valid: seq<Zone>, a: nat, n: nat): seq<Warning>
    requires a < |valid| && n <= |valid|
  {
    Gather(JunctionAt(env, valid, a), 0, n)
  }

  function JunctionsAt(env: Env, valid: seq<Zone>): nat -> seq<Warning> {
    (a: nat) => if a < |valid| then JunctionsOf(env, valid, a, |valid|) else []
  }

  function Junctions(env: Env, valid: seq<Zone>, n: nat): seq<Warning>
    requires n <= |valid|
  {
    Gather(JunctionsAt(env, valid), 0, n)
  }

  function RoadsSeen(env: Env, valid: seq<Zone>): set<string> {
    set i | 0 <= i < |valid| :: env.road(valid[i].road)
  }

  function Coverage(seen: set<string>, required: seq<string>): seq<Warning> {
    if required == [] then []
    else
      var n := |required| - 1;
      Coverage(seen, required[..n]) + if required[n] in seen then [] else [MissingCoverage(required[n])]
  }

  function Validated(env: Env, required: seq<string>, zones: seq<Zone>): (seq<Zone>, seq<Warning>) {
    var valid := Kept(zones, |zones|);
    (valid, ZoneWarnings(env, zones, |zones|) + Junctions(env, valid, |valid|) + Coverage(RoadsSeen(env, valid), required))
  }

  lemma IdsSeenSnoc(zones: seq<Zone>, n: nat)
    requires n < |zones|
    ensures IdsSeen(zones, n + 1) == IdsSeen(zones, n) + {zones[n].id}
  {
  }

  lemma ZoneStep(env: Env, zones: seq<Zone>, n: nat)
    requires n < |zones|
    ensures var z, seen := zones[n], zones[n].id in IdsSeen(zones, n);
            && ZoneWarnings(env, zones, n + 1) == ZoneWarnings(env, zones, n) + WarningsOf(env, z, seen)
            && Kept(zones, n + 1) == (if seen || z.distance <= 0 then Kept(zones, n) else Kept(zones, n) + [z])
  {
  }

  method CheckZone(env: Env, z: Zone) returns (found: seq<Warning>, good: bool)
    ensures found == WarningsOf(env, z, false) && good == (z.distance > 0)
  {
    found, good := EarlyWarnings(env, z), z.distance > 0;
    if z.distance <= 0 {
      found := found + [BadDistance(z.id)];
    } else {
      found := found + LateWarnings(env, z);
    }
  }

  lemma RoadsSeenSnoc(env: Env, valid: seq<Zone>, z: Zone)
    ensures RoadsSeen(env, valid + [z]) == RoadsSeen(env, valid) + {env.road(z.road)}
  {
    var more := valid + [z];
    forall r ensures r in RoadsSeen(env, more) <==> r in RoadsSeen(env, valid) + {env.road(z.road)} {
      if r in RoadsSeen(env, valid) {
        var i :| 0 <= i < |valid| && env.road(valid[i].road) == r;
        assert env.road(more[i].road) == r;
      }
      assert more[|valid|] == z;
    }
  }

  /** `for z in zones:` */
  method CheckZones(env: Env, zones: seq<Zone>) returns (valid: seq<Zone>, warnings: seq<Warning>, roadsSeen: set<string>)
    ensures valid == Kept(zones, |zones|) && warnings == ZoneWarnings(env, zones, |zones|)
    ensures roadsSeen == RoadsSeen(env, valid)
  {
    valid, warnings, roadsSeen := [], [], {};
    var idsSeen: set<string> := {};
    for n := 0 to |zones|
      invariant valid == Kept(zones, n) && warnings == ZoneWarnings(env, zones, n)
      invariant idsSeen == IdsSeen(zones, n) && roadsSeen == RoadsSeen(env, valid)
    {
      var z := zones[n];
      ZoneStep(env, zones, n);
      IdsSeenSnoc(zones, n);
      if z.id in idsSeen {
        warnings := warnings + [DuplicateId(z.id)];
      } else {
        idsSeen := idsSeen + {z.id};
        var found, good := CheckZone(env, z);
        warnings := warnings + found;
        if good {
          RoadsSeenSnoc(env, valid, z);
          roadsSeen := roadsSeen + {env.road(z.road)};
          valid := valid + [z];
        }
      }
    }
  }

  method Validate(env: Env, required: seq<string>, zones: seq<Zone>) returns (valid: seq<Zone>, warnings: seq<Warning>)
    ensures (valid, warnings) == Validated(env, required, zones)
  {
    var roadsSeen;
    valid, warnings, roadsSeen := CheckZones(env, zones);
    var junctions := CheckJunctions(env, valid);
    var coverage := CheckCoverage(roadsSeen, required);
    warnings := warnings + junctions + coverage;
  }

  method CheckJunctionsOf(env: Env, valid: seq<Zone>, a: nat) returns (warnings: seq<Warning>)
    requires a < |valid|
    ensures warnings == JunctionsOf(env, valid, a, |valid|)
  {
    warnings := [];
    for b := 0 to |valid|
      invariant warnings == JunctionsOf(env, valid, a, b)
    {
      if a != b && GapSuspicious(env, valid[a], valid[b]) {
        warnings := warnings + [JunctionGap(valid[a].id, valid[b].id)];
      }
    }
  }

  method CheckJunctions(env: Env, valid: seq<Zone>) returns (warnings: seq<Warning>)
    ensures warnings == Junctions(env, valid, |valid|)
  {
    warnings := [];
    for a := 0 to |valid|
      invariant warnings == Junctions(env, valid, a)
    {
      var more := CheckJunctionsOf(env, valid, a);
      warnings := warnings + more;
    }
  }

  method CheckCoverage(seen: set<string>, required: seq<string>) returns (warnings: seq<Warning>)
    ensures warnings == Coverage(seen, required)
  {
    warnings := [];
    for n := 0 to |required|
      invariant warnings == Coverage(seen, required[..n])
    {
      assert required[..n + 1][..n] == required[..n];
      if required[n] !in seen {
        warnings := warnings + [MissingCoverage(required[n])];
      }
    }
    assert required[..|required|] == required;
  }

  // ----- what each warning means -----

  /** A required road is reported exactly when no zone kept lies on it. */
  lemma {:induction false} CoverageWarnsIff(seen: set<string>, required: seq<string>, road: string)
    ensures MissingCoverage(road) in Coverage(seen, required) <==> road in required && road !in seen
  {
    if required != [] {
      var n := |required| - 1;
      CoverageWarnsIff(seen, required[..n], road);
      assert required == required[..n] + [required[n]];
    }
  }

  /** Zones `a` and `b` of those kept leave a gap reported as `w`. */
  predicate ReportedGap(env: Env, valid: seq<Zone>, a: nat, b: nat, w: Warning) {
    && a < |valid| && b < |valid| && b != a
    && GapSuspicious(env, valid[a], valid[b]) && w == JunctionGap(valid[a].id, valid[b].id)
  }

  lemma JunctionsOfWarn(env: Env, valid: seq<Zone>, a: nat, w: Warning)
    requires a < |valid|
    ensures w in JunctionsOf(env, valid, a, |valid|) <==> exists b: nat :: ReportedGap(env, valid, a, b, w)
  {
    GatherMember(JunctionAt(env, valid, a), 0, |valid|, w);
    forall b: nat | b < |valid| ensures w in JunctionAt(env, valid, a)(b) <==> ReportedGap(env, valid, a, b, w) {
    }
  }

  /** A junction is reported exactly when two different zones kept leave a suspicious
      gap there. */
  lemma JunctionsWarnIff(env: Env, valid: seq<Zone>, n: nat, w: Warning)
    requires n <= |valid|
    ensures w in Junctions(env, valid, n) <==> exists a: nat, b: nat :: a < n && ReportedGap(env, valid, a, b, w)
  {
    var at := JunctionsAt(env, valid);
    GatherMember(at, 0, n, w);
    if w in Junctions(env, valid, n) {
      var a: nat :| a < n && w in at(a);
      JunctionsOfWarn(env, valid, a, w);
      var b: nat :| ReportedGap(env, valid, a, b, w);
      assert a < n && ReportedGap(env, valid, a, b, w);
    }
    if a: nat, b: nat :| a < n && ReportedGap(env, valid, a, b, w) {
      JunctionsOfWarn(env, valid, a, w);
      assert a < n && w in at(a);
    }
  }

  ghost predicate AllDistinct(zones: seq<Zone>) {
    forall i, j :: 0 <= i < j < |zones| ==> zones[i].id != zones[j].id
  }

  lemma {:induction false} KeptSize(zones: seq<Zone>, n: nat)
    requires n <= |zones|
    ensures |Kept(zones, n)| <= n
    ensures |Kept(zones, n)| == n ==> Kept(zones, n) == zones[..n]
    ensures |Kept(zones, n)| == n <==>
      forall i :: 0 <= i < n ==> zones[i].distance > 0 && zones[i].id !in IdsSeen(zones, i)
  {
    if n > 0 {
      KeptSize(zones, n - 1);
      assert zones[..n] == zones[..n - 1] + [zones[n - 1]];
    }
  }

  /** Nothing is dropped exactly when IDs are distinct and distances positive. */
  lemma NothingDroppedIff(zones: seq<Zone>)
    ensures Kept(zones, |zones|) == zones <==>
            AllDistinct(zones) && forall i :: 0 <= i < |zones| ==> zones[i].distance > 0
  {
    KeptSize(zones, |zones|);
    assert zones[..|zones|] == zones;
    if AllDistinct(zones) && forall i :: 0 <= i < |zones| ==> zones[i].distance > 0 {
      assert forall i :: 0 <= i < |zones| ==> zones[i].id !in IdsSeen(zones, i);
    }
    if Kept(zones, |zones|) == zones {
      forall i, j | 0 <= i < j < |zones| ensures zones[i].id != zones[j].id {
        assert zones[i].id in IdsSeen(zones, j);
        assert zones[j].id !in IdsSeen(zones, j);
      }
    }
  }

  /** Warnings of the kinds the earlier stages are there to prevent. */
  predicate Preventable(w: Warning) {
    w.DuplicateId? || w.BadDistance? || w.ReversedLine? || w.DescriptionMismatch?
  }

  lemma HarmlessWarnings(env: Env, z: Zone, w: Warning)
    requires w in EarlyWarnings(env, z) || w in AllLimitWarnings(env, z) || w in TownWarnings(env, z)
    ensures !Preventable(w)
  {
  }

  lemma GoodZoneWarnings(env: Env, z: Zone, w: Warning)
    requires !LineReversed(env, z) && !DescriptionWrong(z) && w in EarlyWarnings(env, z) + LateWarnings(env, z)
    ensures !Preventable(w)
  {
    HarmlessWarnings(env, z, w);
  }

  /** The zone that raised a warning. */
  lemma WarnedZone(env: Env, zones: seq<Zone>, n: nat, w: Warning) returns (i: nat)
    requires n <= |zones| && w in ZoneWarnings(env, zones, n)
    ensures i < n && w in WarningsOf(env, zones[i], zones[i].id in IdsSeen(zones, i))
  {
    GatherMember(WarningsAt(env, zones), 0, n, w);
    i :| 0 <= i < n && w in WarningsAt(env, zones)(i);
  }

  lemma NoPreventableWarnings(env: Env, zones: seq<Zone>, n: nat, w: Warning)
    requires n <= |zones| && AllDistinct(zones)
    requires forall i :: 0 <= i < n ==>
      zones[i].distance > 0 && !LineReversed(env, zones[i]) && !DescriptionWrong(zones[i])
    requires w in ZoneWarnings(env, zones, n)
    ensures !Preventable(w)
  {
    var i := WarnedZone(env, zones, n, w);
    assert zones[i].id !in IdsSeen(zones, i);
    GoodZoneWarnings(env, zones[i], w);
  }

  lemma NoJunctions(env: Env, valid: seq<Zone>, n: nat)
    requires n <= |valid|
    requires forall a, b :: 0 <= a < |valid| && 0 <= b < |valid| && a != b ==> !GapSuspicious(env, valid[a], valid[b])
    ensures Junctions(env, valid, n) == []
  {
    if Junctions(env, valid, n) != [] {
      JunctionsWarnIff(env, valid, n, Junctions(env, valid, n)[0]);
    }
  }
}
