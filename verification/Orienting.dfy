/**
 What turning the secondary sources achieves, in terms of the zones alone: the ends
 of every source come to lie at the ends of the primary that they describe.
 */
module Orienting {
  import opened Prelude
  import opened Zones
  import opened Merging

  /** Distance of the ends taken in order, and taken crosswise. */
  function Straight(env: Env, a: Zone, b: Zone): real {
    env.dist(a.start.at, b.start.at) + env.dist(a.end.at, b.end.at)
  }

  function Crosswise(env: Env, a: Zone, b: Zone): real {
    env.dist(a.start.at, b.end.at) + env.dist(a.end.at, b.start.at)
  }

  predicate Facing(d: Direction, e: Direction) {
    (d, e) in {(East, West), (West, East), (North, South), (South, North)}
  }

  /** `o` is `src` seen from its other end. */
  ghost predicate TurnedRound(src: Zone, o: Zone) {
    && o.start == src.end && o.end == src.start && Facing(src.direction, o.direction)
    && |o.centerline| == |src.centerline|
    && (forall i :: 0 <= i < |o.centerline| ==> o.centerline[i] == src.centerline[|o.centerline| - 1 - i])
    && o == src.(start := o.start, end := o.end, centerline := o.centerline, direction := o.direction,
                 description := o.description)
    && (Truthy(o.start.town) && Truthy(o.end.town) ==> o.description == Described(o.start.town.value, o.end.town.value))
  }

  predicate Located(a: Zone, b: Zone) {
    a.start.at.lat != 0.0 && b.start.at.lat != 0.0
  }

  /** The settlement of an end is known and the same. */
  predicate SameTown(env: Env, a: Endpoint, b: Endpoint) {
    TownOf(env, a.town) != "" && TownOf(env, a.town) == TownOf(env, b.town)
  }

  predicate TownsSpeak(env: Env, src: Zone, p: Zone) {
    && TownOf(env, src.start.town) != "" && TownOf(env, p.start.town) != ""
    && (SameTown(env, src.start, p.start) || SameTown(env, src.end, p.end)
        || SameTown(env, src.start, p.end) || SameTown(env, src.end, p.start))
  }

  /** Both markers are known, and the road's km direction is for the primary's way. */
  predicate MarkersSpeak(env: Env, src: Zone, p: Zone) {
    && KmOf(env, src.start.km).Some? && KmOf(env, src.end.km).Some?
    && env.axis(env.road(p.road)).Some?
    && p.direction in {env.axis(env.road(p.road)).value.0, env.axis(env.road(p.road)).value.1}
  }

  predicate MarkersRise(env: Env, z: Zone)
    requires KmOf(env, z.start.km).Some? && KmOf(env, z.end.km).Some?
  {
    KmOf(env, z.start.km).value < KmOf(env, z.end.km).value
  }

  /** What is asked of a source once it is turned the way of `p`: coordinates, else
      settlements, else km markers decide, and where nothing does it is left alone. */
  ghost predicate RunsAlong(env: Env, src: Zone, o: Zone, p: Zone) {
    && (o == src || TurnedRound(src, o))
    && if Located(src, p) then
         && Straight(env, o, p) <= Crosswise(env, o, p)
         && (Straight(env, src, p) <= Crosswise(env, src, p) ==> o == src)
       else if TownsSpeak(env, src, p) then
         && (SameTown(env, o.start, p.start) || SameTown(env, o.end, p.end))
         && (SameTown(env, src.start, p.start) || SameTown(env, src.end, p.end) ==> o == src)
       else if MarkersSpeak(env, src, p) then
         var rising := p.direction == env.axis(env.road(p.road)).value.0;
         && KmOf(env, o.start.km).Some? && KmOf(env, o.end.km).Some?
         && (KmOf(env, o.start.km) != KmOf(env, o.end.km) ==> (MarkersRise(env, o) <==> rising))
         && ((MarkersRise(env, src) <==> rising) <==> o == src)
       else
         o == src
  }

  lemma FlipTurnsRound(z: Zone)
    ensures TurnedRound(z, Flip(z))
  {
  }

  lemma OrientToRunsAlong(env: Env, src: Zone, p: Zone)
    ensures RunsAlong(env, src, OrientTo(env, src, p), p)
  {
    FlipTurnsRound(src);
  }

  /** Which source is the primary. */
  function Leader(q: Quad): Option<Zone> {
    if q.tt.Some? then q.tt else if q.kml.Some? then q.kml else if q.bg.Some? then q.bg else q.osm
  }

  /** The source is the primary and stays so, or it runs along. */
  ghost function Along(env: Env, p: Zone): (Option<Zone>, Option<Zone>) -> bool {
    (z: Option<Zone>, o: Option<Zone>) =>
      && (z.Some? <==> o.Some?)
      && (z.Some? ==> (z.value == p && o.value == p) || RunsAlong(env, z.value, o.value, p))
  }

  lemma TurnedIsAlong(env: Env, z: Option<Zone>, isPrimary: bool, p: Zone)
    requires z.Some? && isPrimary ==> z.value == p
    ensures Along(env, p)(z, Turned(env, z, isPrimary, p))
  {
    if z.Some? {
      OrientToRunsAlong(env, z.value, p);
    }
  }

  /** Once the sources of a match are oriented every one of them runs along, and the
      primary is what it was. */
  lemma SourcesRunAlong(env: Env, q: Quad)
    requires HasSource(q)
    ensures var o, along := Oriented(env, q), Along(env, Leader(q).value);
            Leader(o) == Leader(q) && along(q.bg, o.bg) && along(q.tt, o.tt) && along(q.osm, o.osm) && along(q.kml, o.kml)
  {
    var p := Leader(q).value;
    TurnedIsAlong(env, q.bg, q.tt.None? && q.kml.None?, p);
    TurnedIsAlong(env, q.tt, true, p);
    TurnedIsAlong(env, q.osm, q.tt.None? && q.kml.None? && q.bg.None?, p);
    TurnedIsAlong(env, q.kml, q.tt.None?, p);
  }

  // ----- what the merged zone says of its ends -----

  /** The part of a zone's end, where the end has such a part. */
  predicate EndFrom(part: Part, merged: Endpoint, e: Endpoint) {
    match part
    case Coordinates => merged.at == e.at
    case Markers => merged.km == e.km
    case Towns => merged.town == e.town
    case LatinNames => merged.latin == e.latin
    case Line => true
  }

  /** The merged zone takes a part of its ends from the two ends of `z`, from each the
      one that lies at it. */
  ghost predicate EndsFrom(env: Env, part: Part, merged: Zone, z: Zone) {
    || (EndFrom(part, merged.start, z.start) && EndFrom(part, merged.end, z.end)
        && Straight(env, z, merged) <= Crosswise(env, z, merged))
    || (EndFrom(part, merged.start, z.end) && EndFrom(part, merged.end, z.start)
        && Crosswise(env, z, merged) <= Straight(env, z, merged))
  }

  lemma PrimaryLiesAtItself(env: Env, p: Zone)
    requires IsMetric(env.dist)
    ensures Straight(env, p, p) <= Crosswise(env, p, p)
  {
  }

  lemma LeaderGivesCoordinates(env: Env, q: Quad)
    requires HasSource(q) && (q.tt.Some? || q.kml.Some?) && Leader(q).value.start.at.lat != 0.0
    ensures Merge(env, q).start.at == Leader(q).value.start.at && Merge(env, q).end.at == Leader(q).value.end.at
  {
    var o := Oriented(env, q);
    var i := if q.tt.Some? then 0 else 1;
    assert FirstWith(Preferred(Coordinates, o), Coordinates, i);
    MergedPart(env, q, Coordinates, i);
  }

  lemma PreferredAlike(along: (Option<Zone>, Option<Zone>) -> bool, q: Quad, o: Quad, part: Part, i: nat)
    requires along(q.bg, o.bg) && along(q.tt, o.tt) && along(q.osm, o.osm) && along(q.kml, o.kml)
    requires i < |Preferred(part, q)|
    ensures |Preferred(part, o)| == |Preferred(part, q)| && along(Preferred(part, q)[i], Preferred(part, o)[i])
  {
  }

  lemma EndsFromAlong(env: Env, part: Part, merged: Zone, z: Zone, o: Zone, p: Zone)
    requires IsMetric(env.dist) && Along(env, p)(Some(z), Some(o)) && Located(z, p)
    requires merged.start.at == p.start.at && merged.end.at == p.end.at && PartFrom(part, merged, o)
    ensures EndsFrom(env, part, merged, z)
  {
    PrimaryLiesAtItself(env, p);
    assert Straight(env, z, merged) == Straight(env, z, p) && Crosswise(env, z, merged) == Crosswise(env, z, p);
    assert o == z ==> Straight(env, z, p) <= Crosswise(env, z, p);
    assert o != z ==> TurnedRound(z, o) && Straight(env, o, p) == Crosswise(env, z, p);
  }

  /** Whichever way round the located source of a part is handed over, what it says of
      an end is published of the end that lies there. */
  lemma PartsLieAtTheirEnds(env: Env, q: Quad, part: Part, i: nat)
    requires IsMetric(env.dist) && HasSource(q) && (q.tt.Some? || q.kml.Some?)
    requires FirstWith(Preferred(part, Oriented(env, q)), part, i) && Preferred(part, q)[i].Some?
    requires Located(Preferred(part, q)[i].value, Leader(q).value)
    ensures EndsFrom(env, part, Merge(env, q), Preferred(part, q)[i].value)
  {
    var z, o := Preferred(part, q)[i].value, Preferred(part, Oriented(env, q))[i].value;
    SourcesRunAlong(env, q);
    PreferredAlike(Along(env, Leader(q).value), q, Oriented(env, q), part, i);
    MergedPart(env, q, part, i);
    LeaderGivesCoordinates(env, q);
    EndsFromAlong(env, part, Merge(env, q), z, o, Leader(q).value);
  }
}
