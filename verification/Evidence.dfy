/**
 What a match stands for, in terms of the zones alone: the zones put together are of
 one road and direction, and between any two of them one of three things was found.
 */
module Evidence {
  import opened Prelude
  import opened Text
  import opened Grouping
  import opened Zones
  import opened Greedy
  import opened Matching

  // ----- what each test finds -----

  predicate Between(x: real, a: real, b: real) {
    a <= x <= b || b <= x <= a
  }

  function Span(a: real, b: real): real {
    if a < b then b - a else a - b
  }

  /** From `lo` to `hi` runs through both ranges, for half of one of them at least. */
  predicate CommonStretch(a0: real, a1: real, b0: real, b1: real, lo: real, hi: real) {
    && lo < hi && Between(lo, a0, a1) && Between(hi, a0, a1) && Between(lo, b0, b1) && Between(hi, b0, b1)
    && (2.0 * (hi - lo) >= Span(a0, a1) || 2.0 * (hi - lo) >= Span(b0, b1))
  }

  ghost predicate ShareStretch(env: Env, a: Zone, b: Zone) {
    var a0, a1 := KmOf(env, a.start.km), KmOf(env, a.end.km);
    var b0, b1 := KmOf(env, b.start.km), KmOf(env, b.end.km);
    && a0.Some? && a1.Some? && b0.Some? && b1.Some?
    && exists lo, hi :: CommonStretch(a0.value, a1.value, b0.value, b1.value, lo, hi)
  }

  lemma CommonStretchOf(a0: real, a1: real, b0: real, b1: real, lo: real, hi: real)
    requires CommonStretch(a0, a1, b0, b1, lo, hi)
    ensures var aMin, aMax, bMin, bMax := Min(a0, a1), Max(a0, a1), Min(b0, b1), Max(b0, b1);
            hi - lo <= Min(aMax, bMax) - Max(aMin, bMin) && Min(aMax - aMin, bMax - bMin) > 0.0
            && 2.0 * (hi - lo) >= Min(aMax - aMin, bMax - bMin)
  {
  }

  lemma StretchThere(a0: real, a1: real, b0: real, b1: real, shorter: real)
    requires var aMin, aMax, bMin, bMax := Min(a0, a1), Max(a0, a1), Min(b0, b1), Max(b0, b1);
             && shorter == Min(aMax - aMin, bMax - bMin) && shorter > 0.0
             && 2.0 * (Min(aMax, bMax) - Max(aMin, bMin)) >= shorter
    ensures exists lo, hi :: CommonStretch(a0, a1, b0, b1, lo, hi)
  {
    var lo, hi := Max(Min(a0, a1), Min(b0, b1)), Min(Max(a0, a1), Max(b0, b1));
    assert lo < hi;
    assert CommonStretch(a0, a1, b0, b1, lo, hi);
  }

  /** Markers match exactly when the zones have half of one range in common. */
  lemma KmOverlapIff(env: Env, a: Zone, b: Zone)
    ensures KmRangesOverlap(env, a, b) <==> ShareStretch(env, a, b)
  {
    var a0, a1 := KmOf(env, a.start.km), KmOf(env, a.end.km);
    var b0, b1 := KmOf(env, b.start.km), KmOf(env, b.end.km);
    if a0.Some? && a1.Some? && b0.Some? && b1.Some? {
      if KmRangesOverlap(env, a, b) {
        var aMin, aMax := Min(a0.value, a1.value), Max(a0.value, a1.value);
        var bMin, bMax := Min(b0.value, b1.value), Max(b0.value, b1.value);
        StretchThere(a0.value, a1.value, b0.value, b1.value, Min(aMax - aMin, bMax - bMin));
      }
      if ShareStretch(env, a, b) {
        var lo, hi :| CommonStretch(a0.value, a1.value, b0.value, b1.value, lo, hi);
        CommonStretchOf(a0.value, a1.value, b0.value, b1.value, lo, hi);
      }
    }
  }

  /** Consecutive zones, which share a camera, do not match by their markers. */
  lemma TouchingRangesDoNotOverlap(env: Env, a: Zone, b: Zone)
    requires var a0, a1 := KmOf(env, a.start.km), KmOf(env, a.end.km);
             var b0, b1 := KmOf(env, b.start.km), KmOf(env, b.end.km);
             a0.Some? && a1.Some? && b0.Some? && b1.Some? && a1 == b0
             && ((a0.value < a1.value && b0.value < b1.value) || (a0.value > a1.value && b0.value > b1.value))
    ensures !KmRangesOverlap(env, a, b)
  {
  }

  /** The same two settlements, whichever is the start. */
  ghost predicate SameTowns(env: Env, a: Zone, b: Zone) {
    && TownOf(env, a.start.town) != "" && TownOf(env, b.start.town) != ""
    && multiset{TownOf(env, a.start.town), TownOf(env, a.end.town)}
       == multiset{TownOf(env, b.start.town), TownOf(env, b.end.town)}
  }

  lemma SamePair(a0: string, a1: string, b0: string, b1: string)
    ensures multiset{a0, a1} == multiset{b0, b1} <==> (a0 == b0 && a1 == b1) || (a0 == b1 && a1 == b0)
  {
    if multiset{a0, a1} == multiset{b0, b1} {
      assert a0 in multiset{b0, b1};
      assert multiset{a0, a1} - multiset{a0} == multiset{a1};
      assert multiset{b0, b1} - multiset{a0} == multiset{if a0 == b0 then b1 else b0};
      assert a1 in multiset{if a0 == b0 then b1 else b0};
    }
  }

  lemma SettlementsIff(env: Env, a: Zone, b: Zone)
    ensures SettlementsMatch(env, a, b) <==> SameTowns(env, a, b)
  {
    SamePair(TownOf(env, a.start.town), TownOf(env, a.end.town), TownOf(env, b.start.town), TownOf(env, b.end.town));
  }

  /** Each end of one is within 2 km of an end of the other, of a different one each. */
  predicate SameEnds(env: Env, a: Zone, b: Zone) {
    && a.start.at != ORIGIN && b.start.at != ORIGIN
    && ((env.dist(a.start.at, b.start.at) < 2000.0 && env.dist(a.end.at, b.end.at) < 2000.0)
        || (env.dist(a.start.at, b.end.at) < 2000.0 && env.dist(a.end.at, b.start.at) < 2000.0))
  }

  lemma CoordsIff(env: Env, a: Zone, b: Zone)
    ensures CoordsClose(env, a, b) <==> SameEnds(env, a, b)
  {
  }

  /** One shared camera is not enough. */
  lemma NeighboursAreNotClose(env: Env, a: Zone, b: Zone)
    requires env.dist(a.start.at, b.start.at) >= 2000.0 && env.dist(a.start.at, b.end.at) >= 2000.0
    ensures !CoordsClose(env, a, b)
  {
  }

  // ----- what a score and a method say -----

  function Methods(env: Env, a: Zone, b: Zone): seq<string> {
    (if SettlementsMatch(env, a, b) then ["settlement"] else [])
    + (if KmRangesOverlap(env, a, b) then ["km_marker"] else [])
    + (if CoordsClose(env, a, b) then ["coords"] else [])
  }

  lemma JoinTwo(a: string, b: string)
    ensures Join([a, b], '+') == a + "+" + b
  {
    assert [a, b][1..] == [b];
  }

  lemma JoinThree(a: string, b: string, c: string)
    ensures Join([a, b, c], '+') == a + "+" + b + "+" + c
  {
    assert [a, b, c][1..] == [b, c];
    JoinTwo(b, c);
    assert a + "+" + (b + "+" + c) == a + "+" + b + "+" + c;
  }

  lemma MethodsJoined(env: Env, a: Zone, b: Zone)
    requires Score(env, a, b) > 0
    ensures Methods(env, a, b) != [] && HowMatched(env, a, b) == Join(Methods(env, a, b), '+')
  {
    JoinTwo("settlement", "km_marker");
    JoinTwo("settlement", "coords");
    JoinTwo("km_marker", "coords");
    JoinThree("settlement", "km_marker", "coords");
  }

  lemma MethodsHaveNoPlus(m: string)
    requires m in ["settlement", "km_marker", "coords"]
    ensures '+' !in m
  {
  }

  /** Of two zones scored against each other: the method names what was found, and the
      confidence weighs it, five, three and two tenths. */
  ghost predicate Backed(env: Env, a: Zone, b: Zone, how: string, confidence: int) {
    var found := Split(how, '+');
    && ("settlement" in found <==> SameTowns(env, a, b))
    && ("km_marker" in found <==> ShareStretch(env, a, b))
    && ("coords" in found <==> SameEnds(env, a, b))
    && (SameTowns(env, a, b) || ShareStretch(env, a, b) || SameEnds(env, a, b))
    && confidence == (if SameTowns(env, a, b) then 5 else 0) + (if ShareStretch(env, a, b) then 3 else 0)
                     + (if SameEnds(env, a, b) then 2 else 0)
  }

  lemma MethodsTell(env: Env, a: Zone, b: Zone)
    ensures "settlement" in Methods(env, a, b) <==> SettlementsMatch(env, a, b)
    ensures "km_marker" in Methods(env, a, b) <==> KmRangesOverlap(env, a, b)
    ensures "coords" in Methods(env, a, b) <==> CoordsClose(env, a, b)
    ensures forall i :: 0 <= i < |Methods(env, a, b)| ==> Methods(env, a, b)[i] in ["settlement", "km_marker", "coords"]
  {
    assert |"settlement"| == 10 && |"km_marker"| == 9 && |"coords"| == 6;
  }

  lemma ScoreIsBacked(env: Env, a: Zone, b: Zone)
    requires Score(env, a, b) > 0
    ensures Backed(env, a, b, HowMatched(env, a, b), Score(env, a, b))
  {
    var methods := Methods(env, a, b);
    MethodsJoined(env, a, b);
    MethodsTell(env, a, b);
    forall i | 0 <= i < |methods| ensures '+' !in methods[i] {
      MethodsHaveNoPlus(methods[i]);
    }
    SplitInvertsJoin(methods, '+');
    SettlementsIff(env, a, b);
    KmOverlapIff(env, a, b);
    CoordsIff(env, a, b);
  }

  /** Of one road and direction, and alike in one way at least. */
  ghost predicate Alike(env: Env, a: Zone, b: Zone) {
    && env.road(a.road) == env.road(b.road) && a.direction == b.direction
    && (SameTowns(env, a, b) || ShareStretch(env, a, b) || SameEnds(env, a, b))
  }

  // ----- every match -----

  /** A match of no such pair claims no confidence, and says what it is. */
  predicate Unscored(m: ZoneMatch) {
    && m.confidence == 0
    && m.how == if m.bg.Some? || m.tt.Some? then "none" else if m.osm.Some? then "osm_only" else "kml_only"
  }

  /** The match of a BG TOLL and a TollTracker zone says what they have in common. */
  ghost predicate PairBacked(env: Env, s: Sources, m: ZoneMatch) {
    && InRange(s, m)
    && (m.bg.None? || m.tt.None? ==> Unscored(m))
    && (m.bg.Some? && m.tt.Some? ==>
          Alike(env, s.bg[m.bg.value], s.tt[m.tt.value])
          && Backed(env, s.bg[m.bg.value], s.tt[m.tt.value], m.how, m.confidence))
  }

  /** An OSM zone put to a zone of the other sources ends where that one does. */
  ghost predicate OsmBacked(env: Env, s: Sources, m: ZoneMatch)
    requires InRange(s, m)
  {
    m.osm.Some? && (m.bg.Some? || m.tt.Some?) ==>
      var z := if m.tt.Some? then s.tt[m.tt.value] else s.bg[m.bg.value];
      Alike(env, s.osm[m.osm.value], z) && SameEnds(env, s.osm[m.osm.value], z)
  }

  /** A KML zone is like the zone it was put to: TollTracker's, BG TOLL's or OSM's. */
  ghost predicate KmlBacked(env: Env, s: Sources, m: ZoneMatch)
    requires InRange(s, m)
  {
    m.kml.Some? ==>
      && (m.tt.Some? ==> Alike(env, s.tt[m.tt.value], s.kml[m.kml.value]))
      && (m.tt.None? && m.bg.Some? ==> Alike(env, s.bg[m.bg.value], s.kml[m.kml.value]))
      && (m.tt.None? && m.bg.None? && m.osm.Some? ==> Alike(env, s.osm[m.osm.value], s.kml[m.kml.value]))
  }

  lemma ScoredAlike(env: Env, a: Zone, b: Zone)
    requires KeyOf(env, a) == KeyOf(env, b) && Score(env, a, b) > 0
    ensures Alike(env, a, b)
  {
    ScoreIsBacked(env, a, b);
  }

  lemma ChoiceIsAlike(env: Env, left: seq<Zone>, right: seq<Zone>, i: nat)
    requires i < |left| && AllChoices(Pairing(env, left, right))[i].Some?
    ensures var j := AllChoices(Pairing(env, left, right))[i].value;
            j < |right| && Score(env, left[i], right[j]) > 0 && Alike(env, left[i], right[j])
  {
    var p := Pairing(env, left, right);
    ChoicesAreMatching(p);
    var j := AllChoices(p)[i].value;
    assert p.left[i] == KeyOf(env, left[i]) && p.right[j] == KeyOf(env, right[j]);
    ScoredAlike(env, left[i], right[j]);
  }

  lemma BaseBacked(env: Env, s: Sources, order: seq<nat>, q: nat)
    requires (forall h :: 0 <= h < |order| ==> order[h] < |s.bg|) && q < |BaseMatches(env, s, order)|
    ensures PairBacked(env, s, BaseMatches(env, s, order)[q])
  {
    var p := Pairing(env, s.bg, s.tt);
    BaseIsSound(env, s, order);
    var m := BaseMatches(env, s, order)[q];
    if q < |order| {
      ChoiceAt(p, order[q]);
      assert m == BgMatch(env, s, order[q], AllChoices(p)[order[q]]);
      if m.tt.Some? {
        ChoiceIsAlike(env, s.bg, s.tt, order[q]);
        ScoreIsBacked(env, s.bg[order[q]], s.tt[m.tt.value]);
      }
    } else {
      assert m == TtMatches(Taken(AllChoices(p)), |s.tt|)[q - |order|];
    }
  }

  ghost predicate Settled(env: Env, s: Sources, m: ZoneMatch) {
    PairBacked(env, s, m) && OsmBacked(env, s, m)
  }

  ghost predicate AllSettled(env: Env, s: Sources, ms: seq<ZoneMatch>) {
    forall q :: 0 <= q < |ms| ==> Settled(env, s, ms[q])
  }

  lemma BaseSettled(env: Env, s: Sources, order: seq<nat>)
    requires forall h :: 0 <= h < |order| ==> order[h] < |s.bg|
    ensures AllSettled(env, s, BaseMatches(env, s, order))
  {
    var p := Pairing(env, s.bg, s.tt);
    var base := BaseMatches(env, s, order);
    forall q | 0 <= q < |base| ensures Settled(env, s, base[q]) {
      BaseBacked(env, s, order, q);
      if q < |order| {
        ChoiceAt(p, order[q]);
        assert base[q] == BgMatch(env, s, order[q], AllChoices(p)[order[q]]);
      } else {
        assert base[q] == TtMatches(Taken(AllChoices(p)), |s.tt|)[q - |order|];
      }
    }
  }

  lemma {:induction false} TargetFits(env: Env, s: Sources, ms: seq<ZoneMatch>, o: Zone)
    requires AllInRange(s, ms) && OsmTarget(env, s, ms, o).Some?
    ensures OsmFits(env, s, ms[OsmTarget(env, s, ms, o).value], o)
  {
    var before := ms[..|ms| - 1];
    if OsmTarget(env, s, before, o).Some? {
      TargetFits(env, s, before, o);
    }
  }

  /** The match holds a TollTracker zone, or else a BG TOLL zone, of the OSM zone's road
      and direction that ends where it does. */
  predicate Suits(env: Env, s: Sources, m: ZoneMatch, o: Zone)
    requires InRange(s, m)
  {
    (m.tt.Some? || m.bg.Some?) &&
    var z := if m.tt.Some? then s.tt[m.tt.value] else s.bg[m.bg.value];
    env.road(o.road) == env.road(z.road) && o.direction == z.direction && SameEnds(env, o, z)
  }

  lemma SuitsIff(env: Env, s: Sources, m: ZoneMatch, o: Zone)
    requires InRange(s, m)
    ensures OsmFits(env, s, m, o) <==> Suits(env, s, m, o)
  {
    if m.tt.Some? || m.bg.Some? {
      CoordsIff(env, o, Anchor(s, m).value);
    }
  }

  lemma {:induction false} TargetIsFirst(env: Env, s: Sources, ms: seq<ZoneMatch>, o: Zone)
    requires AllInRange(s, ms)
    ensures match OsmTarget(env, s, ms, o)
            case Some(t) => t < |ms| && Suits(env, s, ms[t], o) && forall h :: 0 <= h < t ==> !Suits(env, s, ms[h], o)
            case None => forall h :: 0 <= h < |ms| ==> !Suits(env, s, ms[h], o)
  {
    if ms != [] {
      var n := |ms| - 1;
      TargetIsFirst(env, s, ms[..n], o);
      SuitsIff(env, s, ms[n], o);
      assert forall h :: 0 <= h < n ==> ms[..n][h] == ms[h];
    }
  }

  /** An OSM zone goes to the first match it suits, and is a match of its own if there is
      none. */
  lemma OsmGoesToFirst(env: Env, s: Sources, ms: seq<ZoneMatch>, k: nat)
    requires AllInRange(s, ms) && k < |s.osm|
    ensures (forall h :: 0 <= h < |ms| ==> !Suits(env, s, ms[h], s.osm[k])) ==>
      AddOsm(env, s, ms, k) == ms + [ZoneMatch(None, None, Some(k), None, 0, "osm_only")]
    ensures forall t :: 0 <= t < |ms| && Suits(env, s, ms[t], s.osm[k])
                        && (forall h :: 0 <= h < t ==> !Suits(env, s, ms[h], s.osm[k])) ==>
      AddOsm(env, s, ms, k) == ms[t := ms[t].(osm := Some(k))]
  {
    TargetIsFirst(env, s, ms, s.osm[k]);
  }

  lemma FitsIsBacked(env: Env, s: Sources, m: ZoneMatch, k: nat)
    requires k < |s.osm| && Settled(env, s, m) && OsmFits(env, s, m, s.osm[k])
    ensures Settled(env, s, m.(osm := Some(k)))
  {
    CoordsIff(env, s.osm[k], Anchor(s, m).value);
  }

  lemma AddOsmSettled(env: Env, s: Sources, ms: seq<ZoneMatch>, k: nat)
    requires AllInRange(s, ms) && AllSettled(env, s, ms) && k < |s.osm|
    ensures AllSettled(env, s, AddOsm(env, s, ms, k))
  {
    var t := OsmTarget(env, s, ms, s.osm[k]);
    if t.Some? {
      TargetFits(env, s, ms, s.osm[k]);
      FitsIsBacked(env, s, ms[t.value], k);
    }
  }

  ghost function Settling(env: Env, s: Sources): (seq<ZoneMatch>, nat) -> bool {
    (ms: seq<ZoneMatch>, k: nat) => AllInRange(s, ms) && AllSettled(env, s, ms)
  }

  lemma OsmStageSettled(env: Env, s: Sources, ms: seq<ZoneMatch>, k: nat)
    requires AllInRange(s, ms) && AllSettled(env, s, ms) && k <= |s.osm|
    ensures AllSettled(env, s, OsmStage(env, s, ms, k))
  {
    var inv, step := Settling(env, s), Adder(env, s);
    forall x, i: nat | i < k && inv(x, i) ensures inv(step(x, i), i + 1) {
      AddOsmSettled(env, s, x, i);
    }
    StepsKeep(inv, step, ms, k);
  }

  lemma KmlStageBacked(env: Env, s: Sources, ms: seq<ZoneMatch>, q: nat)
    requires AllInRange(s, ms) && AllAnchored(ms) && AllSettled(env, s, ms) && q < |KmlStage(env, s, ms)|
    ensures var m := KmlStage(env, s, ms)[q]; Settled(env, s, m) && KmlBacked(env, s, m)
  {
    KmlStageSound(env, s, ms);
    var choices := AllChoices(KmlProblem(env, s, ms));
    var m := KmlStage(env, s, ms)[q];
    if q < |ms| {
      assert m == ms[q].(kml := choices[q]) && Settled(env, s, ms[q]);
      if m.kml.Some? {
        ChoiceIsAlike(env, KmlPrimaries(s, ms), s.kml, q);
      }
    } else {
      assert m == KmlMatches(Taken(choices), |s.kml|)[q - |ms|];
    }
  }

  /** Zones are put in one match only if they are of one road and direction and have
      their settlements, half of a km range, or both endpoints in common. */
  lemma MatchesAreBacked(env: Env, s: Sources, order: seq<nat>, q: nat)
    requires (forall h :: 0 <= h < |order| ==> order[h] < |s.bg|) && q < |MatchesIn(env, s, order)|
    ensures var m := MatchesIn(env, s, order)[q];
            PairBacked(env, s, m) && OsmBacked(env, s, m) && KmlBacked(env, s, m)
  {
    var base := BaseMatches(env, s, order);
    BaseIsSound(env, s, order);
    BaseSettled(env, s, order);
    OsmStageAnchored(env, s, base, |s.osm|);
    OsmStageSettled(env, s, base, |s.osm|);
    KmlStageBacked(env, s, OsmStage(env, s, base, |s.osm|), q);
  }

  lemma OnlyCoords(found: seq<string>)
    requires found == ["coords"]
    ensures "coords" in found && "settlement" !in found && "km_marker" !in found
  {
    assert |"settlement"| == 10 && |"km_marker"| == 9 && |"coords"| == 6;
  }

  lemma OneMethod(how: string)
    requires '+' !in how
    ensures Split(how, '+') == [how]
  {
    SplitWord(how, "", '+');
    assert how + "" == how;
  }

  lemma CoordsAlone(env: Env, a: Zone, b: Zone, how: string, confidence: int)
    requires Backed(env, a, b, how, confidence) && how == "coords"
    ensures SameEnds(env, a, b) && confidence == 2
  {
    MethodsHaveNoPlus(how);
    OneMethod(how);
    OnlyCoords([how]);
  }

  /** Two zones matched by coordinates alone agree at both ends. */
  lemma MatchedByCoordsAlone(env: Env, s: Sources, order: seq<nat>, q: nat)
    requires (forall h :: 0 <= h < |order| ==> order[h] < |s.bg|) && q < |MatchesIn(env, s, order)|
    requires var m := MatchesIn(env, s, order)[q]; m.bg.Some? && m.tt.Some? && m.how == "coords"
    ensures var m := MatchesIn(env, s, order)[q];
            && m.bg.value < |s.bg| && m.tt.value < |s.tt| && m.confidence == 2
            && SameEnds(env, s.bg[m.bg.value], s.tt[m.tt.value])
  {
    MatchesAreBacked(env, s, order, q);
    var m := MatchesIn(env, s, order)[q];
    CoordsAlone(env, s.bg[m.bg.value], s.tt[m.tt.value], m.how, m.confidence);
  }
}
