/**
 Merging the sources of one match: every secondary source is first turned to run
 the primary's way, then each field is taken by its own order of preference.
 */
module Merging {
  import opened Prelude
  import opened Text
  import opened Zones

  // ----- orientation -----

  function Described(a: string, b: string): string {
    a + " \U{2013} " + b
  }

  /** The zone traversed the other way. */
  function Flip(z: Zone): Zone {
    Exchanged(z).(direction := Opposite(z.direction),
       description := if Truthy(z.end.town) && Truthy(z.start.town)
                      then Described(z.end.town.value, z.start.town.value) else z.description)
  }

  predicate ByGeometry(src: Zone, primary: Zone) {
    src.start.at.lat != 0.0 && primary.start.at.lat != 0.0
  }

  /** Summed endpoint distances with `src` taken as it stands. */
  function Gap(env: Env, src: Zone, primary: Zone): real {
    env.dist(src.start.at, primary.start.at) + env.dist(src.end.at, primary.end.at)
  }

  function CrossGap(env: Env, src: Zone, primary: Zone): real {
    env.dist(src.start.at, primary.end.at) + env.dist(src.end.at, primary.start.at)
  }

  predicate ByTowns(env: Env, src: Zone, primary: Zone) {
    TownOf(env, src.start.town) != "" && TownOf(env, primary.start.town) != ""
  }

  predicate TownsAgree(env: Env, src: Zone, primary: Zone) {
    var s0, s1 := TownOf(env, src.start.town), TownOf(env, src.end.town);
    var p0, p1 := TownOf(env, primary.start.town), TownOf(env, primary.end.town);
    s0 == p0 || (s1 != "" && p1 != "" && s1 == p1)
  }

  predicate TownsCross(env: Env, src: Zone, primary: Zone) {
    var s0, s1 := TownOf(env, src.start.town), TownOf(env, src.end.town);
    var p0, p1 := TownOf(env, primary.start.town), TownOf(env, primary.end.town);
    s0 == p1 || (s1 != "" && p0 != "" && s1 == p0)
  }

  /** km order against the known km direction: 1, -1, or 0 when it cannot tell. */
  function ByKm(env: Env, src: Zone, primary: Zone): int {
    var k0, k1 := KmOf(env, src.start.km), KmOf(env, src.end.km);
    match env.axis(env.road(primary.road))
    case None => 0
    case Some((up, down)) =>
      if k0.None? || k1.None? || (primary.direction != up && primary.direction != down) then 0
      else if (k1.value > k0.value) == (primary.direction == up) then 1 else -1
  }

  /** 1 when `src` runs the primary's way, -1 when reversed, 0 when undecidable. */
  function Orientation(env: Env, src: Zone, primary: Zone): int {
    if ByGeometry(src, primary) then (if Gap(env, src, primary) <= CrossGap(env, src, primary) then 1 else -1)
    else if ByTowns(env, src, primary) && TownsAgree(env, src, primary) then 1
    else if ByTowns(env, src, primary) && TownsCross(env, src, primary) then -1
    else ByKm(env, src, primary)
  }

  function OrientTo(env: Env, src: Zone, primary: Zone): Zone {
    if Orientation(env, src, primary) == -1 then Flip(src) else src
  }

  predicate TownsAnswer(env: Env, src: Zone, primary: Zone) {
    ByTowns(env, src, primary) && (TownsAgree(env, src, primary) || TownsCross(env, src, primary))
  }

  /** The tier that answers for the source answers for it turned round too: where
      coordinates answer, the end has some; where settlements do, the end has one;
      where km markers do, no settlement of the end speaks first. */
  predicate AnsweredBothWays(env: Env, src: Zone, primary: Zone) {
    if ByGeometry(src, primary) then src.end.at.lat != 0.0
    else
      && !(src.end.at.lat != 0.0 && primary.start.at.lat != 0.0)
      && if TownsAnswer(env, src, primary) then TownOf(env, src.end.town) != ""
         else !TownsAnswer(env, Exchanged(src), primary)
  }

  /** The tier that answers sees a difference between the two ways round. */
  predicate Decidable(env: Env, src: Zone, primary: Zone) {
    if ByGeometry(src, primary) then Gap(env, src, primary) != CrossGap(env, src, primary)
    else if TownsAnswer(env, src, primary) then
      !(TownsAgree(env, src, primary) && TownsCross(env, src, primary))
    else
      ByKm(env, src, primary) != 0 && KmOf(env, src.start.km) != KmOf(env, src.end.km)
  }

  /** Turning a source round turns the answer round exactly when the answering
      tier can tell the two ways apart. */
  lemma OrientationAntisymmetric(env: Env, src: Zone, primary: Zone)
    requires AnsweredBothWays(env, src, primary)
    ensures Decidable(env, src, primary)
            <==> Orientation(env, src, primary) != 0
                 && Orientation(env, Exchanged(src), primary) == -Orientation(env, src, primary)
  {
    var rev := Exchanged(src);
    assert Gap(env, rev, primary) == CrossGap(env, src, primary);
    assert CrossGap(env, rev, primary) == Gap(env, src, primary);
    if !ByGeometry(src, primary) {
      if ByTowns(env, src, primary) && ByTowns(env, rev, primary) {
        assert TownsAgree(env, rev, primary) <==> TownsCross(env, src, primary);
        assert TownsCross(env, rev, primary) <==> TownsAgree(env, src, primary);
      }
    }
  }

  /** A source answered by different tiers escapes this: with only its start
      settlement known, and that one the primary's, it reads as running the
      primary's way; turned round it is left to its km markers, and without them
      it cannot be placed at all. */
  lemma OneSidedSourceIsNotTurnedBack(env: Env, src: Zone, primary: Zone)
    requires !ByGeometry(src, primary) && !ByGeometry(Exchanged(src), primary)
    requires TownOf(env, src.start.town) == TownOf(env, primary.start.town) != "" && TownOf(env, src.end.town) == ""
    ensures !AnsweredBothWays(env, src, primary) && Orientation(env, src, primary) == 1
    ensures Orientation(env, Exchanged(src), primary) == ByKm(env, Exchanged(src), primary)
    ensures KmOf(env, src.start.km).None? || KmOf(env, src.end.km).None? ==>
      Orientation(env, Exchanged(src), primary) == 0
  {
  }

  lemma FlipTwice(z: Zone)
    ensures Flip(Flip(z)).(description := z.description) == z
  {
    ReverseTwice(z.centerline);
    assert Opposite(Opposite(z.direction)) == z.direction;
    assert Exchanged(Exchanged(z)) == z;
  }

  /** What merging reads of two sources is the same: it takes the direction from
      the primary and writes the description afresh. */
  predicate SameReading(a: Zone, b: Zone) {
    a.(direction := b.direction, description := b.description) == b
  }

  lemma OrientedAlike(env: Env, src: Zone, primary: Zone)
    requires AnsweredBothWays(env, src, primary) && Decidable(env, src, primary)
    ensures SameReading(OrientTo(env, Exchanged(src), primary), OrientTo(env, src, primary))
  {
    OrientationAntisymmetric(env, src, primary);
    ReverseTwice(src.centerline);
  }

  /** A source whose orientation can be told runs the primary's way afterwards. */
  lemma OrientedRunsAlong(env: Env, src: Zone, primary: Zone)
    requires AnsweredBothWays(env, src, primary) && Decidable(env, src, primary)
    ensures Orientation(env, OrientTo(env, src, primary), primary) == 1
  {
    OrientationAntisymmetric(env, src, primary);
    assert Orientation(env, Flip(src), primary) == Orientation(env, Exchanged(src), primary);
  }

  // ----- merging -----

  datatype Quad = Quad(bg: Option<Zone>, tt: Option<Zone>, osm: Option<Zone>, kml: Option<Zone>)

  predicate HasSource(q: Quad) {
    q.bg.Some? || q.tt.Some? || q.osm.Some? || q.kml.Some?
  }

  function FirstOf(zs: seq<Option<Zone>>): Option<Zone> {
    if zs == [] then None else if zs[0].Some? then zs[0] else FirstOf(zs[1..])
  }

  /** `for src in zs: if src and good(src): ... break` */
  function FirstGood(zs: seq<Option<Zone>>, good: Zone -> bool): Option<Zone> {
    if zs == [] then None
    else if zs[0].Some? && good(zs[0].value) then zs[0] else FirstGood(zs[1..], good)
  }

  function Primary(q: Quad): Zone
    requires HasSource(q)
  {
    if q.tt.Some? then q.tt.value else if q.kml.Some? then q.kml.value
    else if q.bg.Some? then q.bg.value else q.osm.value
  }

  function Turned(env: Env, src: Option<Zone>, isPrimary: bool, primary: Zone): Option<Zone> {
    if src.None? || isPrimary then src else Some(OrientTo(env, src.value, primary))
  }

  /** All sources running the primary's way. */
  function Oriented(env: Env, q: Quad): Quad
    requires HasSource(q)
  {
    var p := Primary(q);
    Quad(Turned(env, q.bg, q.tt.None? && q.kml.None?, p),
         q.tt,
         Turned(env, q.osm, q.tt.None? && q.kml.None? && q.bg.None?, p),
         Turned(env, q.kml, q.tt.None?, p))
  }

  datatype Vehicle = Car | Truck | Bus | Motorcycle

  function LimitOf(l: Limits, v: Vehicle): Option<int> {
    match v
    case Car => Some(l.car)
    case Truck => l.truck
    case Bus => l.bus
    case Motorcycle => l.motorcycle
  }

  function Ceiling(motorway: bool, v: Vehicle): int {
    match v
    case Car => if motorway then 140 else 90
    case Truck => if motorway then 90 else 80
    case Bus => if motorway then 100 else 80
    case Motorcycle => if motorway then 140 else 90
  }

  predicate Plausible(env: Env, road: string, v: Vehicle, value: int) {
    0 < value <= Ceiling(env.motorway(env.road(road)), v)
  }

  /** The first plausible limit, else the first one at all. */
  function PickLimit(env: Env, road: string, v: Vehicle, zs: seq<Option<Zone>>, fallback: Option<int>): Option<int> {
    if zs == [] then fallback
    else
      var value := if zs[0].Some? then LimitOf(zs[0].value.limits, v) else None;
      if value.None? then PickLimit(env, road, v, zs[1..], fallback)
      else if Plausible(env, road, v, value.value) then value
      else PickLimit(env, road, v, zs[1..], if fallback.None? then value else fallback)
  }

  function Names(q: Quad): seq<string> {
    (if q.bg.Some? then ["bgtoll"] else []) + (if q.tt.Some? then ["tolltracker"] else [])
    + (if q.kml.Some? then ["kml"] else []) + (if q.osm.Some? then ["osm"] else [])
  }

  function Placed(): Zone -> bool { (z: Zone) => z.start.at.lat != 0.0 }

  function WithKm(): Zone -> bool { (z: Zone) => Truthy(z.start.km) }

  function WithTown(): Zone -> bool { (z: Zone) => Truthy(z.start.town) }

  function WithLatin(): Zone -> bool { (z: Zone) => Truthy(z.start.latin) }

  function WithLine(): Zone -> bool { (z: Zone) => z.centerline != [] }

  function WithType(): Zone -> bool { (z: Zone) => Truthy(z.roadType) }

  function WithRoadLatin(): Zone -> bool { (z: Zone) => Truthy(z.roadLatin) }

  function MergedLimits(env: Env, q: Quad): Limits
    requires HasSource(q)
  {
    var road := FirstOf([q.bg, q.tt, q.kml, q.osm]);
    var zs := [q.kml, q.tt, q.bg, q.osm];
    var pick := (v: Vehicle) => if road.None? then None else PickLimit(env, road.value.road, v, zs, None);
    var car := pick(Car);
    Limits(if car.None? then 0 else car.value, pick(Truck), pick(Bus), pick(Motorcycle))
  }

  /** The source each field is taken from. */
  datatype Picks = Picks(at: Option<Zone>, km: Option<Zone>, town: Option<Zone>, latin: Option<Zone>,
                         line: Option<Zone>, kind: Option<Zone>, roadLatin: Option<Zone>,
                         road: Option<Zone>, length: Option<Zone>)

  function PicksOf(q: Quad): Picks {
    Picks(FirstGood([q.tt, q.kml, q.osm, q.bg], Placed()),
          FirstGood([q.bg, q.kml, q.tt], WithKm()),
          FirstGood([q.bg, q.kml, q.tt], WithTown()),
          FirstGood([q.tt, q.kml], WithLatin()),
          FirstGood([q.kml, q.tt, q.osm], WithLine()),
          FirstGood([q.kml, q.tt], WithType()),
          FirstGood([q.tt, q.kml], WithRoadLatin()),
          FirstOf([q.kml, q.bg, q.tt, q.osm]),
          FirstOf([q.kml, q.tt, q.bg, q.osm]))
  }

  function EndOf(p: Picks, e: Zone -> Endpoint): Endpoint {
    Endpoint(if p.at.Some? then e(p.at.value).at else ORIGIN,
             if p.km.Some? then e(p.km.value).km else None,
             if p.town.Some? then e(p.town.value).town else None,
             if p.latin.Some? then e(p.latin.value).latin else None)
  }

  function Build(env: Env, p: Picks, limits: Limits, source: string, direction: Direction): Zone {
    var start, end := EndOf(p, (z: Zone) => z.start), EndOf(p, (z: Zone) => z.end);
    Zone("",
         env.road(if p.road.Some? then p.road.value.road else ""),
         if p.roadLatin.Some? then p.roadLatin.value.roadLatin else None,
         direction,
         if Truthy(start.town) && Truthy(end.town) then Described(start.town.value, end.town.value)
         else "unknown \U{2013} unknown",
         start, end,
         if p.length.Some? then p.length.value.distance else 0,
         limits,
         if p.line.Some? then p.line.value.centerline else [],
         if p.kind.Some? then p.kind.value.roadType else None,
         source)
  }

  /** The merge of sources that already run one way. */
  function Combine(env: Env, q: Quad, direction: Direction): Zone
    requires HasSource(q)
  {
    Build(env, PicksOf(q), MergedLimits(env, q), Join(Names(q), '+'), direction)
  }

  function Merge(env: Env, q: Quad): Zone
    requires HasSource(q)
  {
    Combine(env, Oriented(env, q), Primary(q).direction)
  }

  // ----- where the merged fields come from -----

  /** Both ends of a field come from the first source, in the field's own order, that
      has it at its start: from this one source, whatever the sources behind it say. */
  ghost predicate FirstAt(zs: seq<Option<Zone>>, good: Zone -> bool, i: nat) {
    i < |zs| && zs[i].Some? && good(zs[i].value) && forall k :: 0 <= k < i ==> zs[k].Some? ==> !good(zs[k].value)
  }

  lemma {:induction false} FirstGoodAt(zs: seq<Option<Zone>>, good: Zone -> bool, i: nat)
    requires FirstAt(zs, good, i)
    ensures FirstGood(zs, good) == zs[i]
    decreases |zs|
  {
    if i > 0 {
      assert forall k :: 0 <= k < i - 1 ==> zs[1..][k] == zs[k + 1];
      assert zs[0].Some? ==> !good(zs[0].value);
      FirstGoodAt(zs[1..], good, i - 1);
    }
  }

  /** The parts of a zone that both ends, or the whole line, take from one source. */
  datatype Part = Coordinates | Markers | Towns | LatinNames | Line

  /** The sources of a part in order of preference. */
  function Preferred(part: Part, q: Quad): seq<Option<Zone>> {
    match part
    case Coordinates => [q.tt, q.kml, q.osm, q.bg]
    case Markers => [q.bg, q.kml, q.tt]
    case Towns => [q.bg, q.kml, q.tt]
    case LatinNames => [q.tt, q.kml]
    case Line => [q.kml, q.tt, q.osm]
  }

  function Gives(part: Part): Zone -> bool {
    match part
    case Coordinates => Placed()
    case Markers => WithKm()
    case Towns => WithTown()
    case LatinNames => WithLatin()
    case Line => WithLine()
  }

  /** The zone says something of the part, at its start if the part has ends. */
  predicate HasPart(part: Part, z: Zone) {
    match part
    case Coordinates => z.start.at.lat != 0.0
    case Markers => z.start.km.Some? && z.start.km.value != ""
    case Towns => z.start.town.Some? && z.start.town.value != ""
    case LatinNames => z.start.latin.Some? && z.start.latin.value != ""
    case Line => |z.centerline| > 0
  }

  ghost predicate FirstWith(zs: seq<Option<Zone>>, part: Part, i: nat) {
    && i < |zs| && zs[i].Some? && HasPart(part, zs[i].value)
    && forall k :: 0 <= k < i ==> zs[k].Some? ==> !HasPart(part, zs[k].value)
  }

  lemma FirstWithGives(zs: seq<Option<Zone>>, part: Part, i: nat)
    requires FirstWith(zs, part, i)
    ensures FirstAt(zs, Gives(part), i)
  {
    forall z ensures Gives(part)(z) <==> HasPart(part, z) {
    }
  }

  /** The merged zone has the part of `z`, and says settlements in travel order. */
  predicate PartFrom(part: Part, merged: Zone, z: Zone) {
    match part
    case Coordinates => merged.start.at == z.start.at && merged.end.at == z.end.at
    case Markers => merged.start.km == z.start.km && merged.end.km == z.end.km
    case Towns =>
      && merged.start.town == z.start.town && merged.end.town == z.end.town
      && (Truthy(z.start.town) && Truthy(z.end.town) ==>
            merged.description == Described(z.start.town.value, z.end.town.value))
    case LatinNames => merged.start.latin == z.start.latin && merged.end.latin == z.end.latin
    case Line => merged.centerline == z.centerline
  }

  /** Both ends of every part come from one source, the first in the part's own
      order that gives it at its start, turned the primary's way. */
  lemma MergedPart(env: Env, q: Quad, part: Part, i: nat)
    requires HasSource(q) && FirstWith(Preferred(part, Oriented(env, q)), part, i)
    ensures PartFrom(part, Merge(env, q), Preferred(part, Oriented(env, q))[i].value)
  {
    FirstWithGives(Preferred(part, Oriented(env, q)), part, i);
    FirstGoodAt(Preferred(part, Oriented(env, q)), Gives(part), i);
  }

  lemma FirstOfTwo(a: Option<Zone>, b: Option<Zone>, good: Zone -> bool)
    ensures FirstGood([a, b], good) ==
      if a.Some? && good(a.value) then a else if b.Some? && good(b.value) then b else None
  {
    assert [a, b][1..] == [b] && [b][1..] == [];
    assert FirstGood([b], good) == if b.Some? && good(b.value) then b else None;
  }

  /** A part no source of its order gives is left out. */
  lemma {:induction false} NoneGiven(zs: seq<Option<Zone>>, good: Zone -> bool)
    requires forall k :: 0 <= k < |zs| ==> zs[k].Some? ==> !good(zs[k].value)
    ensures FirstGood(zs, good) == None
  {
    if zs != [] {
      assert forall k :: 0 <= k < |zs[1..]| ==> zs[1..][k] == zs[k + 1];
      NoneGiven(zs[1..], good);
    }
  }

  lemma MergedPartMissing(env: Env, q: Quad, part: Part)
    requires HasSource(q)
    requires var zs := Preferred(part, Oriented(env, q)); forall k :: 0 <= k < |zs| ==> zs[k].Some? ==> !HasPart(part, zs[k].value)
    ensures var z := Merge(env, q);
            match part
            case Coordinates => z.start.at == z.end.at == ORIGIN
            case Markers => z.start.km == z.end.km == None
            case Towns => z.start.town == z.end.town == None
            case LatinNames => z.start.latin == z.end.latin == None
            case Line => z.centerline == []
  {
    NoneGiven(Preferred(part, Oriented(env, q)), Gives(part));
  }

  /** The direction is the primary's. The description is made of the merged settlements,
      and of neither if one is missing. */
  lemma MergedDescription(env: Env, q: Quad)
    requires HasSource(q)
    ensures var z := Merge(env, q);
            && z.id == ""
            && z.direction == (if q.tt.Some? then q.tt else if q.kml.Some? then q.kml
                               else if q.bg.Some? then q.bg else q.osm).value.direction
            && z.description == if Truthy(z.start.town) && Truthy(z.end.town)
                                then z.start.town.value + " \U{2013} " + z.end.town.value else "unknown \U{2013} unknown"
  {
  }

  /** The road type is KML's before TollTracker's, the Latin road name TollTracker's
      before KML's. */
  lemma MergedRoadNames(env: Env, q: Quad)
    requires HasSource(q)
    ensures var z, kml, tt := Merge(env, q), q.kml, q.tt;
            && z.roadType == (if kml.Some? && Truthy(kml.value.roadType) then kml.value.roadType
                              else if tt.Some? && Truthy(tt.value.roadType) then tt.value.roadType else None)
            && z.roadLatin == (if tt.Some? && Truthy(tt.value.roadLatin) then tt.value.roadLatin
                               else if kml.Some? && Truthy(kml.value.roadLatin) then kml.value.roadLatin else None)
  {
    var o := Oriented(env, q);
    FirstOfTwo(o.kml, o.tt, WithType());
    FirstOfTwo(o.tt, o.kml, WithRoadLatin());
  }

  /** Road: KML, BG TOLL, TollTracker, OSM. Length: KML, TollTracker, BG TOLL, OSM.
      Neither depends on which way a source runs. */
  lemma MergedRoadAndLength(env: Env, q: Quad)
    requires HasSource(q)
    ensures Merge(env, q).road
         == env.road((if q.kml.Some? then q.kml else if q.bg.Some? then q.bg else if q.tt.Some? then q.tt else q.osm).value.road)
    ensures Merge(env, q).distance
         == (if q.kml.Some? then q.kml else if q.tt.Some? then q.tt else if q.bg.Some? then q.bg else q.osm).value.distance
  {
    var o := Oriented(env, q);
    FirstOfFour(o.kml, o.bg, o.tt, o.osm);
    FirstOfFour(o.kml, o.tt, o.bg, o.osm);
  }

  lemma FirstOfFour(a: Option<Zone>, b: Option<Zone>, c: Option<Zone>, d: Option<Zone>)
    ensures FirstOf([a, b, c, d]) == if a.Some? then a else if b.Some? then b else if c.Some? then c else d
  {
    assert [a, b, c, d][1..] == [b, c, d] && [b, c, d][1..] == [c, d] && [c, d][1..] == [d];
    assert FirstOf([d]) == d;
    assert FirstOf([c, d]) == if c.Some? then c else d;
    assert FirstOf([b, c, d]) == if b.Some? then b else if c.Some? then c else d;
  }

  predicate Offers(env: Env, road: string, v: Vehicle, z: Option<Zone>) {
    z.Some? && LimitOf(z.value.limits, v).Some? && Plausible(env, road, v, LimitOf(z.value.limits, v).value)
  }

  /** The first source with a limit the road can have. */
  ghost predicate FirstOffer(env: Env, road: string, v: Vehicle, zs: seq<Option<Zone>>, i: nat) {
    i < |zs| && Offers(env, road, v, zs[i]) && forall k :: 0 <= k < i ==> !Offers(env, road, v, zs[k])
  }

  lemma {:induction false} PickLimitAt(env: Env, road: string, v: Vehicle, zs: seq<Option<Zone>>, fallback: Option<int>,
                                       i: nat)
    requires FirstOffer(env, road, v, zs, i)
    ensures PickLimit(env, road, v, zs, fallback) == LimitOf(zs[i].value.limits, v)
    decreases |zs|
  {
    if i > 0 {
      assert !Offers(env, road, v, zs[0]);
      assert forall k :: 0 <= k < i - 1 ==> zs[1..][k] == zs[k + 1];
      var value := if zs[0].Some? then LimitOf(zs[0].value.limits, v) else None;
      PickLimitAt(env, road, v, zs[1..], if value.Some? && fallback.None? then value else fallback, i - 1);
    }
  }

  /** Each vehicle's limit is that of the first source with one the road can have:
      KML, TollTracker, BG TOLL, OSM, judged by BG TOLL's road if there is one. */
  lemma MergedLimit(env: Env, q: Quad, v: Vehicle, road: string, i: nat)
    requires HasSource(q)
    requires road == (if q.bg.Some? then q.bg else if q.tt.Some? then q.tt else if q.kml.Some? then q.kml else q.osm).value.road
    requires FirstOffer(env, road, v, [q.kml, q.tt, q.bg, q.osm], i)
    ensures LimitOf(Merge(env, q).limits, v) == LimitOf([q.kml, q.tt, q.bg, q.osm][i].value.limits, v)
  {
    var o := Oriented(env, q);
    OrientedKeepsTerms(env, q);
    FirstOfFour(o.bg, o.tt, o.kml, o.osm);
    FirstOfferAlike(env, road, v, [q.kml, q.tt, q.bg, q.osm], [o.kml, o.tt, o.bg, o.osm], i);
    LimitAt(env, o, v, road, i);
  }

  /** Turning a source round changes neither its limits nor its road. */
  predicate SameTerms(a: Option<Zone>, b: Option<Zone>) {
    (a.Some? <==> b.Some?) && (a.Some? ==> a.value.limits == b.value.limits && a.value.road == b.value.road)
  }

  lemma OrientedKeepsTerms(env: Env, q: Quad)
    requires HasSource(q)
    ensures var o := Oriented(env, q);
            SameTerms(o.bg, q.bg) && SameTerms(o.tt, q.tt) && SameTerms(o.osm, q.osm) && SameTerms(o.kml, q.kml)
  {
  }

  lemma FirstOfferAlike(env: Env, road: string, v: Vehicle, zs: seq<Option<Zone>>, ws: seq<Option<Zone>>, i: nat)
    requires |zs| == |ws| && forall k :: 0 <= k < |zs| ==> SameTerms(ws[k], zs[k])
    requires FirstOffer(env, road, v, zs, i)
    ensures FirstOffer(env, road, v, ws, i) && LimitOf(ws[i].value.limits, v) == LimitOf(zs[i].value.limits, v)
  {
    forall k | 0 <= k < |zs| ensures Offers(env, road, v, ws[k]) == Offers(env, road, v, zs[k]) {
      assert SameTerms(ws[k], zs[k]);
    }
  }

  lemma LimitAt(env: Env, q: Quad, v: Vehicle, road: string, i: nat)
    requires HasSource(q) && FirstOf([q.bg, q.tt, q.kml, q.osm]).Some?
    requires road == FirstOf([q.bg, q.tt, q.kml, q.osm]).value.road
    requires FirstOffer(env, road, v, [q.kml, q.tt, q.bg, q.osm], i)
    ensures LimitOf(MergedLimits(env, q), v) == LimitOf([q.kml, q.tt, q.bg, q.osm][i].value.limits, v)
  {
    PickLimitAt(env, road, v, [q.kml, q.tt, q.bg, q.osm], None, i);
  }

  // ----- the result does not depend on how secondary sources are laid out -----

  predicate SameOptional(a: Option<Zone>, b: Option<Zone>) {
    (a.Some? <==> b.Some?) && (a.Some? ==> SameReading(a.value, b.value))
  }

  predicate SameQuad(q: Quad, r: Quad) {
    SameOptional(q.bg, r.bg) && SameOptional(q.tt, r.tt) && SameOptional(q.osm, r.osm) && SameOptional(q.kml, r.kml)
  }

  ghost predicate SameList(zs: seq<Option<Zone>>, ws: seq<Option<Zone>>) {
    |zs| == |ws| && forall i :: 0 <= i < |zs| ==> SameOptional(zs[i], ws[i])
  }

  /** A test that looks at neither direction nor description. */
  ghost predicate Blind(good: Zone -> bool) {
    forall a, b :: SameReading(a, b) ==> good(a) == good(b)
  }

  lemma {:induction false} FirstGoodAlike(zs: seq<Option<Zone>>, ws: seq<Option<Zone>>, good: Zone -> bool)
    requires SameList(zs, ws) && Blind(good)
    ensures SameOptional(FirstGood(zs, good), FirstGood(ws, good))
    decreases |zs|
  {
    if zs != [] {
      assert SameOptional(zs[0], ws[0]);
      FirstGoodAlike(zs[1..], ws[1..], good);
    }
  }

  lemma {:induction false} FirstOfAlike(zs: seq<Option<Zone>>, ws: seq<Option<Zone>>)
    requires SameList(zs, ws)
    ensures SameOptional(FirstOf(zs), FirstOf(ws))
    decreases |zs|
  {
    if zs != [] {
      assert SameOptional(zs[0], ws[0]);
      FirstOfAlike(zs[1..], ws[1..]);
    }
  }

  lemma {:induction false} PickLimitAlike(env: Env, road: string, v: Vehicle, zs: seq<Option<Zone>>,
                                          ws: seq<Option<Zone>>, fallback: Option<int>)
    requires SameList(zs, ws)
    ensures PickLimit(env, road, v, zs, fallback) == PickLimit(env, road, v, ws, fallback)
    decreases |zs|
  {
    if zs != [] {
      assert SameOptional(zs[0], ws[0]);
      var value := if zs[0].Some? then LimitOf(zs[0].value.limits, v) else None;
      PickLimitAlike(env, road, v, zs[1..], ws[1..], fallback);
      PickLimitAlike(env, road, v, zs[1..], ws[1..], if fallback.None? then value else fallback);
    }
  }

  lemma LimitsAlike(env: Env, q: Quad, r: Quad)
    requires HasSource(q) && HasSource(r) && SameQuad(q, r)
    ensures MergedLimits(env, q) == MergedLimits(env, r)
  {
    FirstOfAlike([q.bg, q.tt, q.kml, q.osm], [r.bg, r.tt, r.kml, r.osm]);
    var road := FirstOf([q.bg, q.tt, q.kml, q.osm]);
    if road.Some? {
      forall v {
        PickLimitAlike(env, road.value.road, v, [q.kml, q.tt, q.bg, q.osm], [r.kml, r.tt, r.bg, r.osm], None);
      }
    }
  }

  predicate SamePicks(p: Picks, r: Picks) {
    && SameOptional(p.at, r.at) && SameOptional(p.km, r.km) && SameOptional(p.town, r.town)
    && SameOptional(p.latin, r.latin) && SameOptional(p.line, r.line) && SameOptional(p.kind, r.kind)
    && SameOptional(p.roadLatin, r.roadLatin) && SameOptional(p.road, r.road) && SameOptional(p.length, r.length)
  }

  lemma PartAlike(part: Part, q: Quad, r: Quad)
    requires SameQuad(q, r)
    ensures SameOptional(FirstGood(Preferred(part, q), Gives(part)), FirstGood(Preferred(part, r), Gives(part)))
  {
    FirstGoodAlike(Preferred(part, q), Preferred(part, r), Gives(part));
  }

  lemma NamesAlike(q: Quad, r: Quad)
    requires SameQuad(q, r)
    ensures SameOptional(PicksOf(q).kind, PicksOf(r).kind) && SameOptional(PicksOf(q).roadLatin, PicksOf(r).roadLatin)
  {
    FirstGoodAlike([q.kml, q.tt], [r.kml, r.tt], WithType());
    FirstGoodAlike([q.tt, q.kml], [r.tt, r.kml], WithRoadLatin());
  }

  lemma RoadAlike(q: Quad, r: Quad)
    requires SameQuad(q, r)
    ensures SameOptional(PicksOf(q).road, PicksOf(r).road) && SameOptional(PicksOf(q).length, PicksOf(r).length)
  {
    FirstOfAlike([q.kml, q.bg, q.tt, q.osm], [r.kml, r.bg, r.tt, r.osm]);
    FirstOfAlike([q.kml, q.tt, q.bg, q.osm], [r.kml, r.tt, r.bg, r.osm]);
  }

  lemma PicksAlike(q: Quad, r: Quad)
    requires SameQuad(q, r)
    ensures SamePicks(PicksOf(q), PicksOf(r))
  {
    PartAlike(Coordinates, q, r);
    PartAlike(Markers, q, r);
    PartAlike(Towns, q, r);
    PartAlike(LatinNames, q, r);
    PartAlike(Line, q, r);
    NamesAlike(q, r);
    RoadAlike(q, r);
  }

  lemma BuildAlike(env: Env, p: Picks, r: Picks, limits: Limits, source: string, direction: Direction)
    requires SamePicks(p, r)
    ensures Build(env, p, limits, source, direction) == Build(env, r, limits, source, direction)
  {
  }

  lemma CombineAlike(env: Env, q: Quad, r: Quad, direction: Direction)
    requires HasSource(q) && HasSource(r) && SameQuad(q, r)
    ensures Combine(env, q, direction) == Combine(env, r, direction)
  {
    PicksAlike(q, r);
    LimitsAlike(env, q, r);
    assert Names(q) == Names(r);
    BuildAlike(env, PicksOf(q), PicksOf(r), MergedLimits(env, q), Join(Names(q), '+'), direction);
  }

  function ExchangeIf(turn: bool, z: Option<Zone>): Option<Zone> {
    if turn && z.Some? then Some(Exchanged(z.value)) else z
  }

  /** Which sources are handed over the other way round. */
  datatype Turns = Turns(bg: bool, osm: bool, kml: bool)

  function Turn(q: Quad, t: Turns): Quad {
    Quad(ExchangeIf(t.bg, q.bg), q.tt, ExchangeIf(t.osm, q.osm), ExchangeIf(t.kml, q.kml))
  }

  /** Its orientation can be told, and is told the same way round or not. */
  predicate Placeable(env: Env, src: Zone, primary: Zone) {
    AnsweredBothWays(env, src, primary) && Decidable(env, src, primary)
  }

  /** Only secondary sources whose orientation can be told are turned. */
  predicate Turnable(env: Env, q: Quad, t: Turns)
    requires HasSource(q)
  {
    var p := Primary(q);
    && (t.kml && q.kml.Some? ==> q.tt.Some? && Placeable(env, q.kml.value, p))
    && (t.bg && q.bg.Some? ==> (q.tt.Some? || q.kml.Some?) && Placeable(env, q.bg.value, p))
    && (t.osm && q.osm.Some? ==> (q.tt.Some? || q.kml.Some? || q.bg.Some?) && Placeable(env, q.osm.value, p))
  }

  lemma TurnedAlike(env: Env, src: Option<Zone>, turn: bool, isPrimary: bool, p: Zone)
    requires turn && src.Some? ==> !isPrimary && Placeable(env, src.value, p)
    ensures SameOptional(Turned(env, ExchangeIf(turn, src), isPrimary, p), Turned(env, src, isPrimary, p))
  {
    if turn && src.Some? {
      OrientedAlike(env, src.value, p);
    }
  }

  /** Handing over any of the secondary sources the other way round does not
      change the merged zone. */
  lemma MergeIgnoresLayout(env: Env, q: Quad, t: Turns)
    requires HasSource(q) && Turnable(env, q, t)
    ensures Merge(env, Turn(q, t)) == Merge(env, q)
  {
    var r := Turn(q, t);
    var p := Primary(q);
    assert Primary(r) == p;
    TurnedAlike(env, q.bg, t.bg, q.tt.None? && q.kml.None?, p);
    TurnedAlike(env, q.osm, t.osm, q.tt.None? && q.kml.None? && q.bg.None?, p);
    TurnedAlike(env, q.kml, t.kml, q.tt.None?, p);
    assert SameQuad(Oriented(env, r), Oriented(env, q));
    CombineAlike(env, Oriented(env, r), Oriented(env, q), p.direction);
  }

  // ----- limits -----

  ghost predicate Offered(zs: seq<Option<Zone>>, v: Vehicle, value: int) {
    exists i :: 0 <= i < |zs| && zs[i].Some? && LimitOf(zs[i].value.limits, v) == Some(value)
  }

  /** A limit no road of the class can have is published only when no source
      offers one it can have; nothing is made up, and nothing is withheld. */
  lemma {:induction false} PickLimitIsBestOffer(env: Env, road: string, v: Vehicle, zs: seq<Option<Zone>>, fallback: Option<int>)
    requires fallback.Some? ==> !Plausible(env, road, v, fallback.value)
    ensures var r := PickLimit(env, road, v, zs, fallback);
            && (r.None? <==> fallback.None? && forall value :: !Offered(zs, v, value))
            && (r.Some? ==> Offered(zs, v, r.value) || r == fallback)
            && ((exists value :: Offered(zs, v, value) && Plausible(env, road, v, value)) <==>
                r.Some? && Plausible(env, road, v, r.value))
    decreases |zs|
  {
    if zs != [] {
      var value := if zs[0].Some? then LimitOf(zs[0].value.limits, v) else None;
      var fallback' := if value.None? || fallback.Some? then fallback else value;
      forall x ensures Offered(zs, v, x) <==> value == Some(x) || Offered(zs[1..], v, x) {
        if Offered(zs, v, x) {
          var i :| 0 <= i < |zs| && zs[i].Some? && LimitOf(zs[i].value.limits, v) == Some(x);
          assert i > 0 ==> zs[1..][i - 1] == zs[i];
        }
        if Offered(zs[1..], v, x) {
          var i :| 0 <= i < |zs[1..]| && zs[1..][i].Some? && LimitOf(zs[1..][i].value.limits, v) == Some(x);
          assert zs[i + 1] == zs[1..][i];
        }
      }
      if value.None? || !Plausible(env, road, v, value.value) {
        PickLimitIsBestOffer(env, road, v, zs[1..], fallback');
      }
    }
  }

  // ----- official zones -----

  predicate Official(z: Zone) {
    "bgtoll" in Split(z.source, '+') || "kml" in Split(z.source, '+')
  }

  lemma NamesTell(q: Quad)
    requires HasSource(q)
    ensures Names(q) != []
    ensures "bgtoll" in Names(q) <==> q.bg.Some?
    ensures "kml" in Names(q) <==> q.kml.Some?
    ensures forall n :: n in Names(q) ==> n in ["bgtoll", "tolltracker", "kml", "osm"]
  {
    assert "kml"[0] != "osm"[0] && |"bgtoll"| == 6 && |"tolltracker"| == 11 && |"kml"| == 3 && |"osm"| == 3;
  }

  lemma NamesHaveNoPlus(n: string)
    requires n in ["bgtoll", "tolltracker", "kml", "osm"]
    ensures '+' !in n
  {
  }

  /** A merged zone counts as official exactly when BG TOLL or KML fed it. */
  lemma MergedIsOfficial(env: Env, q: Quad)
    requires HasSource(q)
    ensures Official(Merge(env, q)) <==> q.bg.Some? || q.kml.Some?
  {
    var names := Names(q);
    assert Names(Oriented(env, q)) == names;
    NamesTell(q);
    forall i | 0 <= i < |names| ensures '+' !in names[i] {
      assert names[i] in names;
      NamesHaveNoPlus(names[i]);
    }
    SplitInvertsJoin(names, '+');
  }
}
