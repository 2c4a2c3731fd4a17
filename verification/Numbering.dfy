/**
 What numbering gives the zones themselves: the two directions of a section share a
 number, different km bands get different ones, and numbers rise with the km.
 */
module Numbering {
  import opened Prelude
  import opened Text
  import opened Zones
  import opened Grouping
  import opened Ids

  // ----- section keys -----

  predicate Marked(env: Env, z: Zone) {
    KmOf(env, z.start.km).Some? && KmOf(env, z.end.km).Some?
  }

  /** One section seen from its two ends: markers exchanged, or without them settlements. */
  predicate Opposed(env: Env, a: Zone, b: Zone) {
    && KmOf(env, a.start.km) == KmOf(env, b.end.km) && KmOf(env, a.end.km) == KmOf(env, b.start.km)
    && (Marked(env, a) || (TownOf(env, a.start.town) == TownOf(env, b.end.town)
                           && TownOf(env, a.end.town) == TownOf(env, b.start.town)))
  }

  lemma OpposedShareKey(env: Env, a: Zone, b: Zone)
    requires Opposed(env, a, b)
    ensures BaseKey(env, a) == BaseKey(env, b)
  {
    LessTotal(TownOf(env, a.start.town), TownOf(env, a.end.town));
  }

  /** A zone and the same zone handed over the other way round have one key. */
  lemma BaseKeyIgnoresEndOrder(env: Env, z: Zone)
    ensures BaseKey(env, Exchanged(z)) == BaseKey(env, z)
  {
    OpposedShareKey(env, Exchanged(z), z);
  }

  /** The markers of a zone are `lo` and `hi`, whichever comes first. */
  predicate Runs(env: Env, z: Zone, lo: real, hi: real) {
    && lo <= hi
    && ((KmOf(env, z.start.km) == Some(lo) && KmOf(env, z.end.km) == Some(hi))
        || (KmOf(env, z.start.km) == Some(hi) && KmOf(env, z.end.km) == Some(lo)))
  }

  /** Markers that read alike to a tenth of a km are one band, and others are not,
      as long as no formatted value holds a dash. */
  lemma SameBandIff(env: Env, a: Zone, b: Zone, lo: real, hi: real, lo': real, hi': real)
    requires Runs(env, a, lo, hi) && Runs(env, b, lo', hi')
    requires '-' !in env.tenths(hi) && '-' !in env.tenths(hi')
    ensures BaseKey(env, a) == BaseKey(env, b) <==> env.tenths(lo) == env.tenths(lo') && env.tenths(hi) == env.tenths(hi')
  {
    if BaseKey(env, a) == BaseKey(env, b) {
      LastSplit(env.tenths(lo), env.tenths(hi), env.tenths(lo'), env.tenths(hi'), '-');
    }
  }

  // ----- the number of a zone -----

  function Place(env: Env, zones: seq<Zone>, i: nat): (p: nat)
    requires i < |zones|
    ensures p < |RoadList(env, zones, env.road(zones[i].road))| && RoadList(env, zones, env.road(zones[i].road))[p] == i
  {
    RoadListHas(env, zones, i);
    PositionOf(RoadList(env, zones, env.road(zones[i].road)), i)
  }

  function BasesAround(env: Env, zones: seq<Zone>, i: nat): seq<Base>
    requires i < |zones|
  {
    Bases(env, zones, env.road(zones[i].road))
  }

  /** The number in the ID of the i-th zone; see IsNumbered. */
  function NumberOf(env: Env, zones: seq<Zone>, i: nat): nat
    requires i < |zones|
  {
    Number(BasesAround(env, zones, i), Place(env, zones, i))
  }

  /** Each zone is in the result, its ID made of its road, its number and its direction. */
  lemma IsNumbered(env: Env, zones: seq<Zone>, i: nat)
    requires i < |zones|
    ensures zones[i].(id := MakeId(env.slug(env.road(zones[i].road)), NumberOf(env, zones, i), zones[i].direction))
            in AssignIds(env, zones)
  {
    var j := FindSlot(env, zones, i, Place(env, zones, i));
    assert AssignIds(env, zones)[j] in AssignIds(env, zones);
  }

  lemma IdLooks()
    ensures MakeId("trakia", 7, East) == "trakia-07-east" && MakeId("hemus", 12, West) == "hemus-12-west"
    ensures MakeId("struma", 1, South) == "struma-01-south" && MakeId("maritsa", 2, North) == "maritsa-02-north"
  {
    assert TwoDigits(7) == "07" && TwoDigits(12) == "12" && TwoDigits(1) == "01" && TwoDigits(2) == "02";
  }

  // ----- the two directions of a section -----

  predicate SameRoad(env: Env, a: Zone, b: Zone) {
    env.road(a.road) == env.road(b.road)
  }

  /** No other zone of its road and direction has its key. */
  ghost predicate OnlyOne(env: Env, zones: seq<Zone>, i: nat)
    requires i < |zones|
  {
    forall h :: 0 <= h < |zones| && h != i && SameRoad(env, zones[h], zones[i]) && zones[h].direction == zones[i].direction ==>
      BaseKey(env, zones[h]) != BaseKey(env, zones[i])
  }

  lemma BaseAt(env: Env, zones: seq<Zone>, i: nat, p: nat)
    requires i < |zones| && p < |BasesAround(env, zones, i)|
    ensures var list := RoadList(env, zones, env.road(zones[i].road));
            && list[p] < |zones| && SameRoad(env, zones[list[p]], zones[i])
            && BasesAround(env, zones, i)[p] == BaseOf(env, zones[list[p]])
  {
    RoadListIs(env, zones, env.road(zones[i].road));
  }

  lemma {:induction false} CountsNone(bs: seq<Base>, b: Base, n: nat)
    requires n <= |bs| && forall p :: 0 <= p < n ==> bs[p] != b
    ensures Count(bs, b, n) == 0
  {
    if n > 0 {
      CountsNone(bs, b, n - 1);
    }
  }

  /** How many zones of its direction and key lie before it along its road. */
  function Occurrence(env: Env, zones: seq<Zone>, i: nat): nat
    requires i < |zones|
  {
    Count(BasesAround(env, zones, i), BaseOf(env, zones[i]), Place(env, zones, i))
  }

  lemma OnlyOneIsFirst(env: Env, zones: seq<Zone>, i: nat)
    requires i < |zones| && OnlyOne(env, zones, i)
    ensures Occurrence(env, zones, i) == 0
  {
    var bs, p := BasesAround(env, zones, i), Place(env, zones, i);
    RoadListIs(env, zones, env.road(zones[i].road));
    forall h | 0 <= h < p ensures bs[h] != BaseOf(env, zones[i]) {
      BaseAt(env, zones, i, h);
    }
    CountsNone(bs, BaseOf(env, zones[i]), p);
  }

  /** The two directions of a section get one number, occurrence by occurrence. */
  lemma OpposedShareNumber(env: Env, zones: seq<Zone>, i: nat, k: nat)
    requires i < |zones| && k < |zones| && SameRoad(env, zones[i], zones[k]) && Opposed(env, zones[i], zones[k])
    requires Occurrence(env, zones, i) == Occurrence(env, zones, k)
    ensures NumberOf(env, zones, i) == NumberOf(env, zones, k)
  {
    OpposedShareKey(env, zones[i], zones[k]);
    BaseAt(env, zones, i, Place(env, zones, i));
    BaseAt(env, zones, k, Place(env, zones, k));
    OppositeDirectionsShareNumber(BasesAround(env, zones, i), Place(env, zones, i), Place(env, zones, k));
  }

  /** So do the two zones of a section that has one in each direction. */
  lemma LonePairSharesNumber(env: Env, zones: seq<Zone>, i: nat, k: nat)
    requires i < |zones| && k < |zones| && SameRoad(env, zones[i], zones[k]) && Opposed(env, zones[i], zones[k])
    requires OnlyOne(env, zones, i) && OnlyOne(env, zones, k)
    ensures NumberOf(env, zones, i) == NumberOf(env, zones, k)
  {
    OnlyOneIsFirst(env, zones, i);
    OnlyOneIsFirst(env, zones, k);
    OpposedShareNumber(env, zones, i, k);
  }

  // ----- numbers rise with the km -----

  lemma SameNameSameBase(bs: seq<Base>, p: nat, q: nat)
    requires p < |bs| && q < |bs| && Section(bs, p) == Section(bs, q) && '#' !in bs[p].0 && '#' !in bs[q].0
    ensures bs[p].0 == bs[q].0
  {
    var i, j := Count(bs, bs[p], p), Count(bs, bs[q], q);
    HashInside(bs[p].0, i);
    HashInside(bs[q].0, j);
    NumberedKeysDiffer(bs[p].0, i, bs[q].0, j);
  }

  lemma FirstOfSection(bs: seq<Base>, q: nat) returns (first: nat)
    requires q < |bs|
    ensures first < |bs| && Section(bs, first) == Section(bs, q) && Number(bs, first) == Number(bs, q)
    ensures forall h :: 0 <= h < first ==> Section(bs, h) != Section(bs, first)
  {
    var ss := Sections(bs);
    assert ss[q] == Section(bs, q);
    first := PositionOf(ss, ss[q]);
    PositionIsFirst(ss, ss[q]);
    forall h | 0 <= h < first ensures Section(bs, h) != Section(bs, first) {
      assert ss[h] != ss[q];
    }
    NumbersAreSections(bs, first, q);
  }

  lemma EarlierKmComesFirst(env: Env, zones: seq<Zone>, i: nat, p: nat, q: nat)
    requires i < |zones| && p < |BasesAround(env, zones, i)| && q < |BasesAround(env, zones, i)|
    requires var list := RoadList(env, zones, env.road(zones[i].road));
             && list[p] < |zones| && list[q] < |zones|
             && KmOf(env, zones[list[p]].start.km).Some? && KmOf(env, zones[list[q]].start.km).Some?
             && KmOf(env, zones[list[p]].start.km).value < KmOf(env, zones[list[q]].start.km).value
    ensures p < q
  {
    RoadListIs(env, zones, env.road(zones[i].road));
  }

  /** A road's zones lie in order of their start markers; without markers, of latitude. */
  lemma RoadIsInOrder(env: Env, zones: seq<Zone>, road: string, p: nat, q: nat)
    requires p < q < |RoadList(env, zones, road)|
    ensures var list := RoadList(env, zones, road);
            && list[p] < |zones| && list[q] < |zones|
            && var a, b := zones[list[p]].start, zones[list[q]].start;
               && (KmOf(env, a.km).Some? && KmOf(env, b.km).Some? ==> KmOf(env, a.km).value <= KmOf(env, b.km).value)
               && (KmOf(env, a.km).None? && KmOf(env, b.km).None? ==> a.at.lat <= b.at.lat)
  {
    RoadListIs(env, zones, road);
  }

  /** A section all of whose zones start beyond a zone's start gets a larger number,
      as long as no key holds a hash sign. */
  lemma NumbersFollowKm(env: Env, zones: seq<Zone>, i: nat, k: nat)
    requires i < |zones| && k < |zones| && SameRoad(env, zones[k], zones[i])
    requires forall h :: 0 <= h < |zones| && SameRoad(env, zones[h], zones[i]) ==> '#' !in BaseKey(env, zones[h])
    requires KmOf(env, zones[i].start.km).Some?
    requires forall h :: 0 <= h < |zones| && SameRoad(env, zones[h], zones[i]) && BaseKey(env, zones[h]) == BaseKey(env, zones[k]) ==>
      KmOf(env, zones[h].start.km).Some? && KmOf(env, zones[i].start.km).value < KmOf(env, zones[h].start.km).value
    ensures NumberOf(env, zones, i) < NumberOf(env, zones, k)
  {
    var bs, p, q := BasesAround(env, zones, i), Place(env, zones, i), Place(env, zones, k);
    var first := FirstOfSection(bs, q);
    BaseAt(env, zones, i, q);
    BaseAt(env, zones, i, first);
    SameNameSameBase(bs, first, q);
    EarlierKmComesFirst(env, zones, i, p, first);
    NumbersFollowFirstUse(bs, p, first);
  }
}
