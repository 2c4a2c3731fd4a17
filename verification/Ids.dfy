/**
 ID assignment: per road, zones in km order, a section key per physical section,
 and one number per section key, shared by the two directions.
 */
module Ids {
  import opened Prelude
  import opened Text
  import opened Zones
  import opened Grouping
  import opened Sorting

  // ----- keys -----

  function SortKey(env: Env, z: Zone): real {
    match KmOf(env, z.start.km) case Some(km) => km case None => z.start.at.lat
  }

  /** The coarse key of a physical section, the same in both directions. */
  function BaseKey(env: Env, z: Zone): string {
    var k0, k1 := KmOf(env, z.start.km), KmOf(env, z.end.km);
    if k0.Some? && k1.Some? then
      env.tenths(Min(k0.value, k1.value)) + "-" + env.tenths(Max(k0.value, k1.value))
    else
      var a, b := TownOf(env, z.start.town), TownOf(env, z.end.town);
      if Less(b, a) then b + "-" + a else a + "-" + b
  }

  function DirectionName(d: Direction): string {
    match d
    case East => "east"
    case West => "west"
    case North => "north"
    case South => "south"
  }

  type Base = (string, Direction)

  function Count(bs: seq<Base>, b: Base, n: nat): (c: nat)
    requires n <= |bs|
    ensures c <= n
  {
    if n == 0 then 0 else Count(bs, b, n - 1) + if bs[n - 1] == b then 1 else 0
  }

  /** The base key, numbered from its second occurrence in one direction on. */
  function Section(bs: seq<Base>, p: nat): string
    requires p < |bs|
  {
    SectionName(bs[p].0, Count(bs, bs[p], p))
  }

  function SectionName(base: string, occurrence: nat): string {
    if occurrence == 0 then base else base + "#" + Decimal(occurrence)
  }

  function Sections(bs: seq<Base>): (ss: seq<string>)
    ensures |ss| == |bs|
  {
    seq(|bs|, p requires 0 <= p < |bs| => Section(bs, p))
  }

  /** Sections are numbered in the order they first appear. */
  function Number(bs: seq<Base>, p: nat): (n: nat)
    requires p < |bs|
  {
    FirstKeysAre(Sections(bs), |bs|);
    PositionOf(FirstKeys(Sections(bs), |bs|), Sections(bs)[p]) + 1
  }

  function MakeId(slug: string, number: nat, d: Direction): string {
    slug + "-" + TwoDigits(number) + "-" + DirectionName(d)
  }

  // ----- numbers -----

  /** One number per section key. */
  lemma NumbersAreSections(bs: seq<Base>, p: nat, q: nat)
    requires p < |bs| && q < |bs|
    ensures Number(bs, p) == Number(bs, q) <==> Section(bs, p) == Section(bs, q)
  {
    FirstKeysAre(Sections(bs), |bs|);
  }

  /** The numbers used on a road are exactly 1..k. */
  lemma NumbersHaveNoGaps(bs: seq<Base>, n: nat)
    ensures (exists p :: 0 <= p < |bs| && Number(bs, p) == n) <==> 1 <= n <= |FirstKeys(Sections(bs), |bs|)|
  {
    var firsts := FirstKeys(Sections(bs), |bs|);
    FirstKeysAre(Sections(bs), |bs|);
    if 1 <= n <= |firsts| {
      FirstKeysOnly(Sections(bs), |bs|, firsts[n - 1]);
      var p :| 0 <= p < |bs| && Sections(bs)[p] == firsts[n - 1];
      assert Number(bs, p) == n;
    }
  }

  /** A number first used later is larger: numbers follow the km order. */
  lemma NumbersFollowFirstUse(bs: seq<Base>, p: nat, q: nat)
    requires p < q < |bs| && forall h :: 0 <= h < q ==> Section(bs, h) != Section(bs, q)
    ensures Number(bs, p) < Number(bs, q)
  {
    var ss := Sections(bs);
    FirstKeysAre(ss, |bs|);
    FirstKeysAre(ss, q);
    FirstKeysGrow(ss, q, |bs|);
    var early := FirstKeys(ss, q);
    assert ss[p] in early;
    var i := PositionOf(early, ss[p]);
    assert FirstKeys(ss, |bs|)[i] == ss[p];
    if ss[q] in early {
      FirstKeysOnly(ss, q, ss[q]);
    }
  }

  /** Zones of opposite directions share a number when they have the same base
      key and are the same occurrence of it in their own direction. */
  lemma OppositeDirectionsShareNumber(bs: seq<Base>, p: nat, q: nat)
    requires p < |bs| && q < |bs| && bs[p].0 == bs[q].0 && Count(bs, bs[p], p) == Count(bs, bs[q], q)
    ensures Number(bs, p) == Number(bs, q)
  {
    NumbersAreSections(bs, p, q);
  }

  // ----- when two zones of a road get the same ID -----

  /** Some zone's base key reads like the numbered key of a repeated section in
      its own direction. */
  ghost predicate Clash(bs: seq<Base>) {
    exists p: nat, q: nat, k: nat :: ClashAt(bs, p, q, k)
  }

  predicate ClashAt(bs: seq<Base>, p: nat, q: nat, k: nat) {
    && p < |bs| && q < |bs| && bs[p].1 == bs[q].1
    && 1 <= k < Count(bs, bs[p], |bs|)
    && bs[q].0 == bs[p].0 + "#" + Decimal(k)
  }

  lemma {:induction false} CountGrows(bs: seq<Base>, b: Base, m: nat, n: nat)
    requires m <= n <= |bs|
    ensures Count(bs, b, m) <= Count(bs, b, n)
    decreases n
  {
    if m < n {
      CountGrows(bs, b, m, n - 1);
    }
  }

  /** Every occurrence number below the total is somebody's. */
  lemma {:induction false} OccurrenceExists(bs: seq<Base>, b: Base, k: nat, n: nat) returns (p: nat)
    requires n <= |bs| && k < Count(bs, b, n)
    ensures p < n && bs[p] == b && Count(bs, b, p) == k
  {
    if bs[n - 1] == b && Count(bs, b, n - 1) == k {
      p := n - 1;
    } else {
      p := OccurrenceExists(bs, b, k, n - 1);
    }
  }

  lemma SectionParts(bs: seq<Base>, p: nat)
    requires p < |bs|
    ensures Count(bs, bs[p], p) < Count(bs, bs[p], |bs|)
  {
    CountGrows(bs, bs[p], p + 1, |bs|);
  }

  /** A numbered key is never the plain key it extends, and determines both parts. */
  lemma NumberedKeysDiffer(a: string, i: nat, b: string, j: nat)
    ensures a + "#" + Decimal(i) == b + "#" + Decimal(j) ==> a == b && i == j
    ensures a != a + "#" + Decimal(i)
  {
    if a + "#" + Decimal(i) == b + "#" + Decimal(j) {
      LastSplit(a, Decimal(i), b, Decimal(j), '#');
      DecimalInjective(i, j);
    }
    assert |a + "#" + Decimal(i)| > |a|;
  }

  lemma SameSectionClashes(bs: seq<Base>, p: nat, q: nat)
    requires p < q < |bs| && bs[p].1 == bs[q].1 && Section(bs, p) == Section(bs, q)
    ensures Clash(bs)
  {
    var i, j := Count(bs, bs[p], p), Count(bs, bs[q], q);
    SectionParts(bs, p);
    SectionParts(bs, q);
    NumberedKeysDiffer(bs[p].0, i, bs[q].0, j);
    NumberedKeysDiffer(bs[p].0, j, bs[q].0, i);
    if bs[p].0 == bs[q].0 {
      CountGrows(bs, bs[p], p + 1, q);
    }
    assert i == 0 || j == 0;
    if i > 0 {
      assert ClashAt(bs, p, q, i);
    } else {
      assert ClashAt(bs, q, p, j);
    }
  }

  lemma ClashSharesSection(bs: seq<Base>) returns (p: nat, q: nat)
    requires Clash(bs)
    ensures p < |bs| && q < |bs| && p != q && bs[p].1 == bs[q].1 && Section(bs, p) == Section(bs, q)
  {
    var p0: nat, q0: nat, k: nat :| ClashAt(bs, p0, q0, k);
    p := OccurrenceExists(bs, bs[p0], k, |bs|);
    SectionParts(bs, q0);
    q := OccurrenceExists(bs, bs[q0], 0, |bs|);
    NumberedKeysDiffer(bs[p0].0, k, bs[p0].0, k);
  }

  /** Zones of one direction all get different numbers exactly when no base key
      clashes with another's numbered form. */
  lemma NumbersUniqueIff(bs: seq<Base>)
    ensures (forall p, q :: 0 <= p < q < |bs| && bs[p].1 == bs[q].1 ==> Number(bs, p) != Number(bs, q))
            <==> !Clash(bs)
  {
    if Clash(bs) {
      var p, q := ClashSharesSection(bs);
      NumbersAreSections(bs, p, q);
      var lo, hi := if p < q then p else q, if p < q then q else p;
      assert 0 <= lo < hi < |bs| && Number(bs, lo) == Number(bs, hi);
    } else {
      forall p, q | 0 <= p < q < |bs| && bs[p].1 == bs[q].1 ensures Number(bs, p) != Number(bs, q) {
        NumbersAreSections(bs, p, q);
        if Section(bs, p) == Section(bs, q) {
          SameSectionClashes(bs, p, q);
        }
      }
    }
  }

  lemma HashInside(a: string, k: nat)
    ensures '#' in a + "#" + Decimal(k)
  {
    assert (a + "#" + Decimal(k))[|a|] == '#';
  }

  /** Without '#' in base keys there is no clash. */
  lemma NoHashNoClash(bs: seq<Base>)
    requires forall p :: 0 <= p < |bs| ==> '#' !in bs[p].0
    ensures !Clash(bs)
  {
    forall p: nat, q: nat, k: nat ensures !ClashAt(bs, p, q, k) {
      if p < |bs| {
        HashInside(bs[p].0, k);
      }
    }
  }

  // ----- IDs as strings -----

  lemma NoDash(n: nat, d: Direction)
    ensures '-' !in TwoDigits(n) && '-' !in DirectionName(d)
  {
    assert forall c :: c in Decimal(n) ==> '0' <= c <= '9';
  }

  /** An ID determines its slug, number and direction. */
  lemma IdDetermines(slug: string, n: nat, d: Direction, slug': string, n': nat, d': Direction)
    ensures MakeId(slug, n, d) == MakeId(slug', n', d') <==> slug == slug' && n == n' && d == d'
  {
    if MakeId(slug, n, d) == MakeId(slug', n', d') {
      NoDash(n, d);
      NoDash(n', d');
      LastSplit(slug + "-" + TwoDigits(n), DirectionName(d), slug' + "-" + TwoDigits(n'), DirectionName(d'), '-');
      LastSplit(slug, TwoDigits(n), slug', TwoDigits(n'), '-');
      TwoDigitsInjective(n, n');
      assert DirectionName(d)[0] == DirectionName(d')[0];
    }
  }

  // ----- sorting -----

  /** By increasing key. */
  function ByKey(key: nat -> real): (nat, nat) -> bool {
    (i: nat, j: nat) => key(i) < key(j)
  }

  ghost predicate Ascending(key: nat -> real, s: seq<nat>) {
    forall p, q :: 0 <= p < q < |s| ==> key(s[p]) <= key(s[q])
  }

  lemma SortByKeyAscends(key: nat -> real, s: seq<nat>)
    ensures Ascending(key, Sort(ByKey(key), s))
  {
    SortOrders<nat>(ByKey(key), s);
    var r := Sort(ByKey(key), s);
    forall p, q | 0 <= p < q < |r| ensures key(r[p]) <= key(r[q]) {
      assert !ByKey(key)(r[q], r[p]);
    }
  }

  // ----- the assignment -----

  function RoadKeys(env: Env, zones: seq<Zone>): (r: seq<string>)
    ensures |r| == |zones|
  {
    seq(|zones|, i requires 0 <= i < |zones| => env.road(zones[i].road))
  }

  function KeyAt(env: Env, zones: seq<Zone>): nat -> real {
    (i: nat) => if i < |zones| then SortKey(env, zones[i]) else 0.0
  }

  /** The zones of a road, by index, in km order. */
  function RoadList(env: Env, zones: seq<Zone>, road: string): seq<nat> {
    Sort(ByKey(KeyAt(env, zones)), IndicesOf(RoadKeys(env, zones), road, |zones|))
  }

  lemma RoadListIs(env: Env, zones: seq<Zone>, road: string)
    ensures var list := RoadList(env, zones, road);
            && Distinct(list) && Ascending(KeyAt(env, zones), list)
            && forall p :: 0 <= p < |list| ==> list[p] < |zones| && env.road(zones[list[p]].road) == road
  {
    var group := IndicesOf(RoadKeys(env, zones), road, |zones|);
    SortByKeyAscends(KeyAt(env, zones), group);
    SortDistinct<nat>(ByKey(KeyAt(env, zones)), group);
    var list := RoadList(env, zones, road);
    forall p | 0 <= p < |list| ensures list[p] < |zones| && env.road(zones[list[p]].road) == road {
      SortMember<nat>(ByKey(KeyAt(env, zones)), group, list[p]);
      IndicesComplete(RoadKeys(env, zones), road, |zones|, list[p]);
    }
  }

  lemma RoadListHas(env: Env, zones: seq<Zone>, i: nat)
    requires i < |zones|
    ensures i in RoadList(env, zones, env.road(zones[i].road))
  {
    var road := env.road(zones[i].road);
    IndicesComplete(RoadKeys(env, zones), road, |zones|, i);
    SortMember<nat>(ByKey(KeyAt(env, zones)), IndicesOf(RoadKeys(env, zones), road, |zones|), i);
  }

  function BaseOf(env: Env, z: Zone): Base {
    (BaseKey(env, z), z.direction)
  }

  /** Section keys and directions along a road. */
  function Bases(env: Env, zones: seq<Zone>, road: string): (bs: seq<Base>)
    ensures |bs| == |RoadList(env, zones, road)|
  {
    var list := RoadList(env, zones, road);
    RoadListIs(env, zones, road);
    seq(|list|, p requires 0 <= p < |list| => BaseOf(env, zones[list[p]]))
  }

  function Roads(env: Env, zones: seq<Zone>): seq<string> {
    Sort(Less, FirstKeys(RoadKeys(env, zones), |zones|))
  }

  /** A place in the result: a road and a position along it. */
  datatype Slot = Slot(road: string, p: nat)

  function RoadSlots(env: Env, zones: seq<Zone>, road: string): (r: seq<Slot>)
    ensures |r| == |RoadList(env, zones, road)|
  {
    seq(|RoadList(env, zones, road)|, p requires 0 <= p < |RoadList(env, zones, road)| => Slot(road, p))
  }

  function SlotsOf(env: Env, zones: seq<Zone>, roads: seq<string>): seq<Slot> {
    if roads == [] then []
    else SlotsOf(env, zones, roads[..|roads| - 1]) + RoadSlots(env, zones, roads[|roads| - 1])
  }

  function Slots(env: Env, zones: seq<Zone>): seq<Slot> {
    SlotsOf(env, zones, Roads(env, zones))
  }

  predicate IsSlot(env: Env, zones: seq<Zone>, s: Slot) {
    s.p < |RoadList(env, zones, s.road)|
  }

  /** The index of the zone a slot holds. */
  function Source(env: Env, zones: seq<Zone>, s: Slot): (i: nat)
    requires IsSlot(env, zones, s)
    ensures i < |zones|
  {
    RoadListIs(env, zones, s.road);
    RoadList(env, zones, s.road)[s.p]
  }

  function IdAt(env: Env, zones: seq<Zone>, s: Slot): string
    requires IsSlot(env, zones, s)
  {
    MakeId(env.slug(s.road), Number(Bases(env, zones, s.road), s.p), zones[Source(env, zones, s)].direction)
  }

  function Numbered(env: Env, z: Zone, road: string, number: nat): Zone {
    z.(id := MakeId(env.slug(road), number, z.direction))
  }

  function WithId(env: Env, zones: seq<Zone>, s: Slot): Zone
    requires IsSlot(env, zones, s)
  {
    Numbered(env, zones[Source(env, zones, s)], s.road, Number(Bases(env, zones, s.road), s.p))
  }

  lemma {:induction false} SlotsAreSlots(env: Env, zones: seq<Zone>, roads: seq<string>, s: Slot)
    ensures s in SlotsOf(env, zones, roads) <==> s.road in roads && IsSlot(env, zones, s)
  {
    if roads != [] {
      var n := |roads| - 1;
      SlotsAreSlots(env, zones, roads[..n], s);
      assert roads == roads[..n] + [roads[n]];
      if IsSlot(env, zones, s) && s.road == roads[n] {
        assert RoadSlots(env, zones, roads[n])[s.p] == s;
      }
    }
  }

  lemma {:induction false} SlotsDistinct(env: Env, zones: seq<Zone>, roads: seq<string>)
    requires Distinct(roads)
    ensures Distinct(SlotsOf(env, zones, roads))
  {
    if roads != [] {
      var n := |roads| - 1;
      SlotsDistinct(env, zones, roads[..n]);
      var before, last := SlotsOf(env, zones, roads[..n]), RoadSlots(env, zones, roads[n]);
      forall i | 0 <= i < |before| ensures before[i].road != roads[n] {
        SlotsAreSlots(env, zones, roads[..n], before[i]);
      }
    }
  }

  function AssignIds(env: Env, zones: seq<Zone>): (r: seq<Zone>)
    ensures |r| == |Slots(env, zones)|
  {
    var slots := Slots(env, zones);
    seq(|slots|, j requires 0 <= j < |slots| =>
      SlotsAreSlots(env, zones, Roads(env, zones), slots[j]);
      WithId(env, zones, slots[j]))
  }

  /** Every position along a road that is present has its place in the result. */
  lemma FindSlot(env: Env, zones: seq<Zone>, i: nat, p: nat) returns (j: nat)
    requires i < |zones| && p < |RoadList(env, zones, env.road(zones[i].road))|
    ensures j < |Slots(env, zones)| && Slots(env, zones)[j] == Slot(env.road(zones[i].road), p)
  {
    var road := env.road(zones[i].road);
    var firsts := FirstKeys(RoadKeys(env, zones), |zones|);
    FirstKeysAre(RoadKeys(env, zones), |zones|);
    assert RoadKeys(env, zones)[i] in firsts;
    SortMember(Less, firsts, road);
    SlotsAreSlots(env, zones, Roads(env, zones), Slot(road, p));
    j :| 0 <= j < |Slots(env, zones)| && Slots(env, zones)[j] == Slot(road, p);
  }

  lemma SlotValid(env: Env, zones: seq<Zone>, j: nat)
    requires j < |Slots(env, zones)|
    ensures IsSlot(env, zones, Slots(env, zones)[j])
  {
    SlotsAreSlots(env, zones, Roads(env, zones), Slots(env, zones)[j]);
  }

  /** The input index of the j-th zone of the result. */
  function Origin(env: Env, zones: seq<Zone>, j: nat): (i: nat)
    requires j < |Slots(env, zones)|
    ensures i < |zones|
  {
    SlotValid(env, zones, j);
    Source(env, zones, Slots(env, zones)[j])
  }

  /** No zone is lost: each has a place in the result, ... */
  lemma EveryZoneAssigned(env: Env, zones: seq<Zone>, i: nat) returns (j: nat)
    requires i < |zones|
    ensures j < |Slots(env, zones)| && Origin(env, zones, j) == i
  {
    var road := env.road(zones[i].road);
    RoadListHas(env, zones, i);
    var p :| 0 <= p < |RoadList(env, zones, road)| && RoadList(env, zones, road)[p] == i;
    j := FindSlot(env, zones, i, p);
  }

  /** ... none is duplicated, and apart from the ID each is what it was. */
  lemma AssignedOnce(env: Env, zones: seq<Zone>, j: nat, k: nat)
    requires j < k < |Slots(env, zones)|
    ensures Origin(env, zones, j) != Origin(env, zones, k)
    ensures AssignIds(env, zones)[j].(id := "") == zones[Origin(env, zones, j)].(id := "")
  {
    var slots := Slots(env, zones);
    SlotValid(env, zones, j);
    SlotValid(env, zones, k);
    RoadsDistinct(env, zones);
    SlotsDistinct(env, zones, Roads(env, zones));
    assert slots[j] != slots[k];
    RoadListIs(env, zones, slots[j].road);
    RoadListIs(env, zones, slots[k].road);
  }

  lemma RoadsDistinct(env: Env, zones: seq<Zone>)
    ensures Distinct(Roads(env, zones))
  {
    FirstKeysAre(RoadKeys(env, zones), |zones|);
    SortDistinct(Less, FirstKeys(RoadKeys(env, zones), |zones|));
  }

  // ----- unique IDs -----

  ghost predicate SlugsInjective(env: Env, zones: seq<Zone>) {
    forall i, j :: 0 <= i < |zones| && 0 <= j < |zones| && env.slug(env.road(zones[i].road)) == env.slug(env.road(zones[j].road))
      ==> env.road(zones[i].road) == env.road(zones[j].road)
  }

  ghost predicate NoClashes(env: Env, zones: seq<Zone>) {
    forall i :: 0 <= i < |zones| ==> !Clash(Bases(env, zones, env.road(zones[i].road)))
  }

  ghost predicate UniqueIds(zones: seq<Zone>) {
    forall j, k :: 0 <= j < k < |zones| ==> zones[j].id != zones[k].id
  }

  lemma SlotRoad(env: Env, zones: seq<Zone>, s: Slot)
    requires IsSlot(env, zones, s)
    ensures env.road(zones[Source(env, zones, s)].road) == s.road
  {
    RoadListIs(env, zones, s.road);
  }

  lemma SlotsDiffer(env: Env, zones: seq<Zone>, s: Slot, t: Slot)
    requires SlugsInjective(env, zones) && NoClashes(env, zones)
    requires IsSlot(env, zones, s) && IsSlot(env, zones, t) && s != t
    ensures IdAt(env, zones, s) != IdAt(env, zones, t)
  {
    var i, j := Source(env, zones, s), Source(env, zones, t);
    SlotRoad(env, zones, s);
    SlotRoad(env, zones, t);
    var bs := Bases(env, zones, s.road);
    IdDetermines(env.slug(s.road), Number(bs, s.p), zones[i].direction,
                 env.slug(t.road), Number(Bases(env, zones, t.road), t.p), zones[j].direction);
    if s.road == t.road && zones[i].direction == zones[j].direction {
      assert !Clash(bs);
      NumbersUniqueIff(bs);
      var lo, hi := if s.p < t.p then s.p else t.p, if s.p < t.p then t.p else s.p;
      assert bs[lo].1 == bs[hi].1;
    }
  }

  /** IDs are unique across the whole result exactly when no road has a clash of
      section keys, given that the roads present have distinct slugs. */
  lemma IdsUniqueIff(env: Env, zones: seq<Zone>)
    requires SlugsInjective(env, zones)
    ensures UniqueIds(AssignIds(env, zones)) <==> NoClashes(env, zones)
  {
    var slots := Slots(env, zones);
    if NoClashes(env, zones) {
      RoadsDistinct(env, zones);
      SlotsDistinct(env, zones, Roads(env, zones));
      forall j, k | 0 <= j < k < |slots| ensures AssignIds(env, zones)[j].id != AssignIds(env, zones)[k].id {
        SlotValid(env, zones, j);
        SlotValid(env, zones, k);
        SlotsDiffer(env, zones, slots[j], slots[k]);
      }
    } else {
      var i :| 0 <= i < |zones| && Clash(Bases(env, zones, env.road(zones[i].road)));
      SharedId(env, zones, i);
    }
  }

  lemma IdOfSlot(env: Env, zones: seq<Zone>, j: nat)
    requires j < |Slots(env, zones)|
    ensures var s := Slots(env, zones)[j];
            && IsSlot(env, zones, s)
            && AssignIds(env, zones)[j].id
               == MakeId(env.slug(s.road), Number(Bases(env, zones, s.road), s.p), Bases(env, zones, s.road)[s.p].1)
  {
    SlotValid(env, zones, j);
    RoadListIs(env, zones, Slots(env, zones)[j].road);
  }

  lemma SharedId(env: Env, zones: seq<Zone>, i: nat)
    requires i < |zones| && Clash(Bases(env, zones, env.road(zones[i].road)))
    ensures !UniqueIds(AssignIds(env, zones))
  {
    var p, q := ClashSharesSection(Bases(env, zones, env.road(zones[i].road)));
    var j := FindSlot(env, zones, i, p);
    var k := FindSlot(env, zones, i, q);
    SameIds(env, zones, j, k);
    NotUnique(AssignIds(env, zones), j, k);
  }

  lemma NotUnique(zones: seq<Zone>, j: nat, k: nat)
    requires j < |zones| && k < |zones| && j != k && zones[j].id == zones[k].id
    ensures !UniqueIds(zones)
  {
    var lo, hi := if j < k then j else k, if j < k then k else j;
    assert 0 <= lo < hi < |zones| && zones[lo].id == zones[hi].id;
  }

  lemma SameIds(env: Env, zones: seq<Zone>, j: nat, k: nat)
    requires j < |Slots(env, zones)| && k < |Slots(env, zones)|
    requires var s, t := Slots(env, zones)[j], Slots(env, zones)[k];
             var bs := Bases(env, zones, s.road);
             && s.road == t.road && s.p < |bs| && t.p < |bs|
             && bs[s.p].1 == bs[t.p].1 && Section(bs, s.p) == Section(bs, t.p)
    ensures AssignIds(env, zones)[j].id == AssignIds(env, zones)[k].id
  {
    var s, t := Slots(env, zones)[j], Slots(env, zones)[k];
    NumbersAreSections(Bases(env, zones, s.road), s.p, t.p);
    IdOfSlot(env, zones, j);
    IdOfSlot(env, zones, k);
  }

  // ----- an input whose IDs are not unique -----

  lemma TwiceCounted(bs: seq<Base>, p: nat, q: nat)
    requires p < q < |bs| && bs[p] == bs[q]
    ensures Count(bs, bs[p], |bs|) >= 2
  {
    CountGrows(bs, bs[p], p + 1, q);
    CountGrows(bs, bs[p], q + 1, |bs|);
  }

  /** Two zones of one section key, and a third whose key is that key numbered. */
  lemma NumberedKeyClashes(env: Env, zones: seq<Zone>, x: nat, y: nat, z: nat)
    requires x < |zones| && y < |zones| && z < |zones| && x != y
    requires env.road(zones[x].road) == env.road(zones[y].road) == env.road(zones[z].road)
    requires BaseOf(env, zones[x]) == BaseOf(env, zones[y])
    requires BaseOf(env, zones[z]) == (BaseKey(env, zones[x]) + "#" + Decimal(1), zones[x].direction)
    ensures !UniqueIds(AssignIds(env, zones))
  {
    var road := env.road(zones[x].road);
    var list, bs := RoadList(env, zones, road), Bases(env, zones, road);
    RoadListIs(env, zones, road);
    RoadListHas(env, zones, x);
    RoadListHas(env, zones, y);
    RoadListHas(env, zones, z);
    var p, q, r := PositionOf(list, x), PositionOf(list, y), PositionOf(list, z);
    TwiceCounted(bs, if p < q then p else q, if p < q then q else p);
    assert ClashAt(bs, p, r, 1);
    SharedId(env, zones, x);
  }

  /** Without km markers: two zones from "a" to "b", and one to a "b#1". */
  lemma HashedSettlementClashes(env: Env, zones: seq<Zone>)
    requires |zones| == 3
    requires forall i :: 0 <= i < 3 ==>
      && env.road(zones[i].road) == env.road(zones[0].road) && zones[i].direction == zones[0].direction
      && KmOf(env, zones[i].start.km).None? && TownOf(env, zones[i].start.town) == "a"
    requires TownOf(env, zones[0].end.town) == "b" == TownOf(env, zones[1].end.town)
    requires TownOf(env, zones[2].end.town) == "b#1"
    ensures !UniqueIds(AssignIds(env, zones))
  {
    assert !Less("b", "a") && !Less("b#1", "a");
    assert Decimal(1) == "1";
    assert "a" + "-" + "b#1" == "a" + "-" + "b" + "#" + "1";
    NumberedKeyClashes(env, zones, 0, 1, 2);
  }
}
