/**
 The zone record and what the pipeline takes from its surroundings: road and
 settlement normalisation, km parsing and number formatting are table or regex
 lookups, and distance is a metric; all of them are parameters here.
 */
module Zones {
  import opened Prelude

  datatype Direction = East | West | North | South

  function Opposite(d: Direction): Direction {
    match d
    case East => West
    case West => East
    case North => South
    case South => North
  }

  datatype Pt = Pt(lat: real, lng: real)

  const ORIGIN := Pt(0.0, 0.0)

  datatype Endpoint = Endpoint(at: Pt, km: Option<string>, town: Option<string>, latin: Option<string>)

  datatype Limits = Limits(car: int, truck: Option<int>, bus: Option<int>, motorcycle: Option<int>)

  datatype Zone = Zone(
    id: string, road: string, roadLatin: Option<string>, direction: Direction, description: string,
    start: Endpoint, end: Endpoint, distance: int, limits: Limits, centerline: seq<Pt>,
    roadType: Option<string>, source: string)

  datatype Env = Env(
    road: string -> string,                           // canonical road name
    slug: string -> string,                           // road slug of a canonical name
    km: string -> Option<real>,                       // km marker to km
    town: string -> string,                           // settlement name made comparable
    tenths: real -> string,                           // a km value with one decimal
    axis: string -> Option<(Direction, Direction)>,   // directions of increasing and decreasing km
    known: string -> bool,                            // the road is in both direction tables
    motorway: string -> bool,
    latinMatches: (string, string) -> bool,
    dist: (Pt, Pt) -> real)

  /** Names a triangle for the triangle inequality; see Triangle. */
  ghost predicate Corner(a: Pt, b: Pt, c: Pt) { true }

  ghost predicate IsMetric(dist: (Pt, Pt) -> real) {
    && (forall a, b :: dist(a, b) >= 0.0)
    && (forall a, b :: dist(a, b) == 0.0 <==> a == b)
    && (forall a, b :: dist(a, b) == dist(b, a))
    && forall a, b, c {:trigger Corner(a, b, c)} :: Corner(a, b, c) ==> dist(a, c) <= dist(a, b) + dist(b, c)
  }

  lemma Triangle(dist: (Pt, Pt) -> real, a: Pt, b: Pt, c: Pt)
    requires IsMetric(dist)
    ensures dist(a, c) <= dist(a, b) + dist(b, c)
  {
    assert Corner(a, b, c);
  }

  /** Python truth of an optional string. */
  predicate Truthy(s: Option<string>) {
    s.Some? && s.value != ""
  }

  function KmOf(env: Env, marker: Option<string>): Option<real> {
    if Truthy(marker) then env.km(marker.value) else None
  }

  function TownOf(env: Env, town: Option<string>): string {
    if Truthy(town) then env.town(town.value) else ""
  }

  type Key = (string, Direction)

  function KeyOf(env: Env, z: Zone): Key {
    (env.road(z.road), z.direction)
  }

  /** The zone handed over the other way round: endpoints exchanged, line reversed,
      the direction label kept. */
  function Exchanged(z: Zone): Zone {
    z.(start := z.end, end := z.start, centerline := Reverse(z.centerline))
  }

  /** What the schema guarantees of every zone a scraper hands over. */
  predicate Valid(z: Zone) {
    z.distance > 0
  }
}
