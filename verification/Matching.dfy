/**
 Cross-source matching: BG TOLL against TollTracker inside (road, direction)
 groups, OSM onto what is there, KML against every match, and each leftover as a
 match of its own. A match refers to its zones by their index in the input.
 */
module Matching {
  import opened Prelude
  import opened Grouping
  import opened Zones
  import opened Greedy

  datatype Sources = Sources(bg: seq<Zone>, tt: seq<Zone>, osm: seq<Zone>, kml: seq<Zone>)

  datatype ZoneMatch = ZoneMatch(bg: Option<nat>, tt: Option<nat>, osm: Option<nat>, kml: Option<nat>,
                                 confidence: int, how: string)

  // ----- scores, in tenths -----

  const COORDS_CLOSE_M := 2000.0

  predicate KmRangesOverlap(env: Env, a: Zone, b: Zone) {
    var a0, a1 := KmOf(env, a.start.km), KmOf(env, a.end.km);
    var b0, b1 := KmOf(env, b.start.km), KmOf(env, b.end.km);
    if a0.None? || a1.None? || b0.None? || b1.None? then false
    else
      var aMin, aMax := Min(a0.value, a1.value), Max(a0.value, a1.value);
      var bMin, bMax := Min(b0.value, b1.value), Max(b0.value, b1.value);
      var overlap := Min(aMax, bMax) - Max(aMin, bMin);
      var shorter := Min(aMax - aMin, bMax - bMin);
      shorter > 0.0 && overlap >= 0.5 * shorter
  }

  predicate SettlementsMatch(env: Env, a: Zone, b: Zone) {
    var a0, a1 := TownOf(env, a.start.town), TownOf(env, a.end.town);
    var b0, b1 := TownOf(env, b.start.town), TownOf(env, b.end.town);
    a0 != "" && b0 != "" && ((a0 == b0 && a1 == b1) || (a0 == b1 && a1 == b0))
  }

  predicate CoordsClose(env: Env, a: Zone, b: Zone) {
    a.start.at != ORIGIN && b.start.at != ORIGIN &&
    var fwd := Max(env.dist(a.start.at, b.start.at), env.dist(a.end.at, b.end.at));
    var rev := Max(env.dist(a.start.at, b.end.at), env.dist(a.end.at, b.start.at));
    Min(fwd, rev) < COORDS_CLOSE_M
  }

  function Score(env: Env, a: Zone, b: Zone): int {
    (if SettlementsMatch(env, a, b) then 5 else 0)
    + (if KmRangesOverlap(env, a, b) then 3 else 0)
    + (if CoordsClose(env, a, b) then 2 else 0)
  }

  /** A settlement match is never beaten by a candidate without one, and beats it
      outright unless that one matches by km range and coordinates both. */
  lemma SettlementRanksFirst(env: Env, a: Zone, b: Zone, c: Zone)
    requires SettlementsMatch(env, a, b) && !SettlementsMatch(env, a, c)
    ensures Score(env, a, b) >= Score(env, a, c)
    ensures Score(env, a, b) == Score(env, a, c)
            <==> KmRangesOverlap(env, a, c) && CoordsClose(env, a, c) && !KmRangesOverlap(env, a, b) && !CoordsClose(env, a, b)
  {
  }

  lemma KmRangeRanksSecond(env: Env, a: Zone, b: Zone, c: Zone)
    requires SettlementsMatch(env, a, b) == SettlementsMatch(env, a, c)
    requires KmRangesOverlap(env, a, b) && !KmRangesOverlap(env, a, c)
    ensures Score(env, a, b) > Score(env, a, c)
  {
  }

  /** As much is known of one end as of the other. */
  predicate EndsAlike(env: Env, z: Zone) {
    (z.start.at == ORIGIN <==> z.end.at == ORIGIN) && (TownOf(env, z.start.town) == "" <==> TownOf(env, z.end.town) == "")
  }

  /** The same zone, or one that says as much of both ends the other way round. */
  predicate SameSection(env: Env, a: Zone, b: Zone) {
    b == a || (b == Exchanged(a) && EndsAlike(env, a))
  }

  lemma ExchangedTowns(env: Env, a: Zone, b: Zone)
    requires EndsAlike(env, a)
    ensures SettlementsMatch(env, Exchanged(a), b) == SettlementsMatch(env, a, b)
    ensures SettlementsMatch(env, b, Exchanged(a)) == SettlementsMatch(env, b, a)
  {
  }

  lemma ExchangedMarkers(env: Env, a: Zone, b: Zone)
    ensures KmRangesOverlap(env, Exchanged(a), b) == KmRangesOverlap(env, a, b)
    ensures KmRangesOverlap(env, b, Exchanged(a)) == KmRangesOverlap(env, b, a)
  {
  }

  lemma ExchangedCoords(env: Env, a: Zone, b: Zone)
    requires EndsAlike(env, a)
    ensures CoordsClose(env, Exchanged(a), b) == CoordsClose(env, a, b)
    ensures CoordsClose(env, b, Exchanged(a)) == CoordsClose(env, b, a)
  {
  }

  lemma ExchangedMatches(env: Env, a: Zone, b: Zone)
    requires EndsAlike(env, a)
    ensures Score(env, Exchanged(a), b) == Score(env, a, b) && Score(env, b, Exchanged(a)) == Score(env, b, a)
    ensures HowMatched(env, Exchanged(a), b) == HowMatched(env, a, b)
    ensures HowMatched(env, b, Exchanged(a)) == HowMatched(env, b, a)
    ensures CoordsClose(env, Exchanged(a), b) == CoordsClose(env, a, b)
    ensures CoordsClose(env, b, Exchanged(a)) == CoordsClose(env, b, a)
  {
    ExchangedTowns(env, a, b);
    ExchangedMarkers(env, a, b);
    ExchangedCoords(env, a, b);
  }

  /** Whether two zones match, and how well, does not depend on which way round
      either is handed over. */
  lemma ScoreIgnoresEndOrder(env: Env, a: Zone, b: Zone, a': Zone, b': Zone)
    requires SameSection(env, a, a') && SameSection(env, b, b')
    ensures Score(env, a', b') == Score(env, a, b)
    ensures HowMatched(env, a', b') == HowMatched(env, a, b)
    ensures CoordsClose(env, a', b') == CoordsClose(env, a, b)
  {
    if a' != a {
      ExchangedMatches(env, a, b);
    }
    if b' != b {
      ExchangedMatches(env, b, a');
    }
  }

  /** Nor on which is asked about which. */
  lemma ScoreSymmetric(env: Env, a: Zone, b: Zone)
    requires IsMetric(env.dist)
    ensures Score(env, a, b) == Score(env, b, a)
  {
    assert SettlementsMatch(env, a, b) == SettlementsMatch(env, b, a);
    assert KmRangesOverlap(env, a, b) == KmRangesOverlap(env, b, a);
    assert CoordsClose(env, a, b) == CoordsClose(env, b, a);
  }

  function Append(how: string, name: string): string {
    if how == "" then name else how + "+" + name
  }

  function HowMatched(env: Env, a: Zone, b: Zone): string {
    var h0 := if SettlementsMatch(env, a, b) then "settlement" else "";
    var h1 := if KmRangesOverlap(env, a, b) then Append(h0, "km_marker") else h0;
    if CoordsClose(env, a, b) then Append(h1, "coords") else h1
  }

  function Keys(env: Env, zones: seq<Zone>): (keys: seq<Key>)
    ensures |keys| == |zones|
  {
    seq(|zones|, i requires 0 <= i < |zones| => KeyOf(env, zones[i]))
  }

  /** Pairing two lists of zones. */
  function Pairing(env: Env, left: seq<Zone>, right: seq<Zone>): Problem<Key> {
    Problem(Keys(env, left), Keys(env, right),
            (i: nat, j: nat) => if i < |left| && j < |right| then Score(env, left[i], right[j]) else 0)
  }

  // ----- the matches, stage by stage -----

  function Unused(taken: set<nat>, n: nat): (r: seq<nat>)
    ensures forall q :: 0 <= q < |r| ==> r[q] < n && r[q] !in taken
    ensures Distinct(r)
  {
    if n == 0 then []
    else if n - 1 in taken then Unused(taken, n - 1)
    else Unused(taken, n - 1) + [n - 1]
  }

  lemma {:induction false} UnusedComplete(taken: set<nat>, n: nat, i: nat)
    requires i < n && i !in taken
    ensures i in Unused(taken, n)
  {
    if i < n - 1 {
      UnusedComplete(taken, n - 1, i);
    }
  }

  function BgMatch(env: Env, s: Sources, i: nat, j: Option<nat>): ZoneMatch
    requires i < |s.bg| && (j.Some? ==> j.value < |s.tt|)
  {
    match j
    case None => ZoneMatch(Some(i), None, None, None, 0, "none")
    case Some(j) =>
      ZoneMatch(Some(i), Some(j), None, None, Score(env, s.bg[i], s.tt[j]), HowMatched(env, s.bg[i], s.tt[j]))
  }

  /** BG TOLL matches in the given order of BG TOLL zones. */
  function BgMatches(env: Env, s: Sources, order: seq<nat>): (ms: seq<ZoneMatch>)
    requires forall q :: 0 <= q < |order| ==> order[q] < |s.bg|
    ensures |ms| == |order|
  {
    var p := Pairing(env, s.bg, s.tt);
    seq(|order|, q requires 0 <= q < |order| =>
      ChoiceAt(p, order[q]);
      BgMatch(env, s, order[q], AllChoices(p)[order[q]]))
  }

  function TtMatches(taken: set<nat>, n: nat): seq<ZoneMatch> {
    var rest := Unused(taken, n);
    seq(|rest|, q requires 0 <= q < |rest| => ZoneMatch(None, Some(rest[q]), None, None, 0, "none"))
  }

  function BaseMatches(env: Env, s: Sources, order: seq<nat>): seq<ZoneMatch>
    requires forall q :: 0 <= q < |order| ==> order[q] < |s.bg|
  {
    BgMatches(env, s, order) + TtMatches(Taken(AllChoices(Pairing(env, s.bg, s.tt))), |s.tt|)
  }

  predicate InRange(s: Sources, m: ZoneMatch) {
    && (m.bg.Some? ==> m.bg.value < |s.bg|)
    && (m.tt.Some? ==> m.tt.value < |s.tt|)
    && (m.osm.Some? ==> m.osm.value < |s.osm|)
    && (m.kml.Some? ==> m.kml.value < |s.kml|)
  }

  /** The zone a match is known by while OSM and KML are fitted to it. */
  function Anchor(s: Sources, m: ZoneMatch): Option<Zone>
    requires InRange(s, m)
  {
    if m.tt.Some? then Some(s.tt[m.tt.value]) else if m.bg.Some? then Some(s.bg[m.bg.value]) else None
  }

  predicate OsmFits(env: Env, s: Sources, m: ZoneMatch, o: Zone)
    requires InRange(s, m)
  {
    match Anchor(s, m)
    case None => false
    case Some(z) => env.road(o.road) == env.road(z.road) && o.direction == z.direction && CoordsClose(env, o, z)
  }

  predicate AllInRange(s: Sources, ms: seq<ZoneMatch>) {
    forall q :: 0 <= q < |ms| ==> InRange(s, ms[q])
  }

  /** The first match the OSM zone fits. */
  function OsmTarget(env: Env, s: Sources, ms: seq<ZoneMatch>, o: Zone): (t: Option<nat>)
    requires AllInRange(s, ms)
    ensures t.Some? ==> t.value < |ms|
  {
    if ms == [] then None
    else
      match OsmTarget(env, s, ms[..|ms| - 1], o)
      case Some(t) => Some(t)
      case None => if OsmFits(env, s, ms[|ms| - 1], o) then Some(|ms| - 1) else None
  }

  function AddOsm(env: Env, s: Sources, ms: seq<ZoneMatch>, k: nat): (r: seq<ZoneMatch>)
    requires AllInRange(s, ms) && k < |s.osm|
    ensures AllInRange(s, r)
  {
    match OsmTarget(env, s, ms, s.osm[k])
    case Some(t) => ms[t := ms[t].(osm := Some(k))]
    case None => ms + [ZoneMatch(None, None, Some(k), None, 0, "osm_only")]
  }

  function OsmStage(env: Env, s: Sources, ms: seq<ZoneMatch>, k: nat): (r: seq<ZoneMatch>)
    requires AllInRange(s, ms) && k <= |s.osm|
    ensures AllInRange(s, r)
  {
    OsmInRange(env, s, ms, k);
    Steps(Adder(env, s), ms, k)
  }

  function Adder(env: Env, s: Sources): (seq<ZoneMatch>, nat) -> seq<ZoneMatch> {
    (ms: seq<ZoneMatch>, k: nat) => if AllInRange(s, ms) && k < |s.osm| then AddOsm(env, s, ms, k) else ms
  }

  function Sound(s: Sources): (seq<ZoneMatch>, nat) -> bool {
    (ms: seq<ZoneMatch>, k: nat) => AllInRange(s, ms)
  }

  lemma OsmInRange(env: Env, s: Sources, ms: seq<ZoneMatch>, k: nat)
    requires AllInRange(s, ms) && k <= |s.osm|
    ensures AllInRange(s, Steps(Adder(env, s), ms, k))
  {
    StepsKeep(Sound(s), Adder(env, s), ms, k);
  }

  lemma OsmNext(env: Env, s: Sources, ms: seq<ZoneMatch>, k: nat)
    requires AllInRange(s, ms) && k < |s.osm|
    ensures OsmStage(env, s, ms, k + 1) == AddOsm(env, s, OsmStage(env, s, ms, k), k)
  {
  }

  predicate HasZone(m: ZoneMatch) {
    m.bg.Some? || m.tt.Some? || m.osm.Some? || m.kml.Some?
  }

  /** Ready for the KML stage: a zone to go by, and no KML zone yet. */
  predicate Anchored(m: ZoneMatch) {
    HasZone(m) && m.kml.None?
  }

  predicate AllAnchored(ms: seq<ZoneMatch>) {
    forall q :: 0 <= q < |ms| ==> Anchored(ms[q])
  }

  function KmlPrimary(s: Sources, m: ZoneMatch): Zone
    requires InRange(s, m) && Anchored(m)
  {
    if m.tt.Some? then s.tt[m.tt.value] else if m.bg.Some? then s.bg[m.bg.value] else s.osm[m.osm.value]
  }

  function KmlPrimaries(s: Sources, ms: seq<ZoneMatch>): (zs: seq<Zone>)
    requires AllInRange(s, ms) && AllAnchored(ms)
    ensures |zs| == |ms|
  {
    seq(|ms|, q requires 0 <= q < |ms| && InRange(s, ms[q]) && Anchored(ms[q]) => KmlPrimary(s, ms[q]))
  }

  function KmlProblem(env: Env, s: Sources, ms: seq<ZoneMatch>): Problem<Key>
    requires AllInRange(s, ms) && AllAnchored(ms)
  {
    Pairing(env, KmlPrimaries(s, ms), s.kml)
  }

  function WithKml(ms: seq<ZoneMatch>, choices: seq<Option<nat>>): (r: seq<ZoneMatch>)
    requires |ms| == |choices|
    ensures |r| == |ms|
  {
    seq(|ms|, q requires 0 <= q < |ms| => ms[q].(kml := choices[q]))
  }

  function KmlMatches(taken: set<nat>, n: nat): seq<ZoneMatch> {
    var rest := Unused(taken, n);
    seq(|rest|, q requires 0 <= q < |rest| => ZoneMatch(None, None, None, Some(rest[q]), 0, "kml_only"))
  }

  function KmlStage(env: Env, s: Sources, ms: seq<ZoneMatch>): seq<ZoneMatch>
    requires AllInRange(s, ms) && AllAnchored(ms)
  {
    var choices := AllChoices(KmlProblem(env, s, ms));
    WithKml(ms, choices) + KmlMatches(Taken(choices), |s.kml|)
  }

  lemma BaseIsSound(env: Env, s: Sources, order: seq<nat>)
    requires forall q :: 0 <= q < |order| ==> order[q] < |s.bg|
    ensures AllInRange(s, BaseMatches(env, s, order)) && AllAnchored(BaseMatches(env, s, order))
  {
    var p := Pairing(env, s.bg, s.tt);
    var ms := BgMatches(env, s, order);
    var base := BaseMatches(env, s, order);
    forall q | 0 <= q < |base| ensures InRange(s, base[q]) && Anchored(base[q]) {
      if q < |ms| {
        ChoiceAt(p, order[q]);
      } else {
        assert base[q] == TtMatches(Taken(AllChoices(p)), |s.tt|)[q - |ms|];
      }
    }
  }

  lemma AddOsmKeeps(env: Env, s: Sources, ms: seq<ZoneMatch>, k: nat)
    requires AllInRange(s, ms) && k < |s.osm|
    ensures var r := AddOsm(env, s, ms, k);
            && |ms| <= |r| <= |ms| + 1
            && (forall q :: 0 <= q < |ms| ==> r[q] == ms[q] || r[q] == ms[q].(osm := Some(k)))
            && forall q :: |ms| <= q < |r| ==> r[q] == ZoneMatch(None, None, Some(k), None, 0, "osm_only")
  {
  }

  lemma AddOsmAnchored(env: Env, s: Sources, ms: seq<ZoneMatch>, k: nat)
    requires AllInRange(s, ms) && AllAnchored(ms) && k < |s.osm|
    ensures AllAnchored(AddOsm(env, s, ms, k))
  {
    AddOsmKeeps(env, s, ms, k);
    var r := AddOsm(env, s, ms, k);
    forall q | 0 <= q < |r| ensures Anchored(r[q]) {
      assert q < |ms| ==> Anchored(ms[q]);
    }
  }

  function SoundAnchored(s: Sources): (seq<ZoneMatch>, nat) -> bool {
    (ms: seq<ZoneMatch>, k: nat) => AllInRange(s, ms) && AllAnchored(ms)
  }

  lemma OsmStageAnchored(env: Env, s: Sources, ms: seq<ZoneMatch>, k: nat)
    requires AllInRange(s, ms) && AllAnchored(ms) && k <= |s.osm|
    ensures AllAnchored(OsmStage(env, s, ms, k))
  {
    var inv, step := SoundAnchored(s), Adder(env, s);
    forall x, i: nat | i < k && inv(x, i) ensures inv(step(x, i), i + 1) {
      AddOsmAnchored(env, s, x, i);
    }
    StepsKeep(inv, step, ms, k);
  }

  /** All stages, for BG TOLL zones taken in the given order. */
  function MatchesIn(env: Env, s: Sources, order: seq<nat>): seq<ZoneMatch>
    requires forall q :: 0 <= q < |order| ==> order[q] < |s.bg|
  {
    BaseIsSound(env, s, order);
    var base := BaseMatches(env, s, order);
    OsmStageAnchored(env, s, base, |s.osm|);
    KmlStage(env, s, OsmStage(env, s, base, |s.osm|))
  }

  function Matches(env: Env, s: Sources): seq<ZoneMatch> {
    GroupedKeepsGroups(Keys(env, s.bg));
    MatchesIn(env, s, Grouped(Keys(env, s.bg)))
  }

  // ----- nothing is lost or used twice -----

  ghost predicate Has(ms: seq<ZoneMatch>, source: ZoneMatch -> Option<nat>, i: nat) {
    exists q :: 0 <= q < |ms| && source(ms[q]) == Some(i)
  }

  /** Of the `n` zones of one source, each is in exactly one match. */
  ghost predicate Once(ms: seq<ZoneMatch>, source: ZoneMatch -> Option<nat>, n: nat) {
    && (forall i :: 0 <= i < n ==> Has(ms, source, i))
    && forall q, r :: 0 <= q < r < |ms| && source(ms[q]).Some? ==> source(ms[q]) != source(ms[r])
  }

  function BgOf(): ZoneMatch -> Option<nat> { (m: ZoneMatch) => m.bg }

  function TtOf(): ZoneMatch -> Option<nat> { (m: ZoneMatch) => m.tt }

  function KmlOf(): ZoneMatch -> Option<nat> { (m: ZoneMatch) => m.kml }

  /** Matches added behind that do not name the source change nothing. */
  lemma OnceKept(ms: seq<ZoneMatch>, more: seq<ZoneMatch>, source: ZoneMatch -> Option<nat>, n: nat)
    requires Once(ms, source, n) && |ms| <= |more|
    requires forall q :: 0 <= q < |ms| ==> source(more[q]) == source(ms[q])
    requires forall q :: |ms| <= q < |more| ==> source(more[q]) == None
    ensures Once(more, source, n)
  {
    forall i | 0 <= i < n ensures Has(more, source, i) {
      assert Has(ms, source, i);
      var q :| 0 <= q < |ms| && source(ms[q]) == Some(i);
      assert source(more[q]) == Some(i);
    }
  }

  /** A matching plus one match for each index it leaves over. */
  lemma OnceByLeftovers(ms: seq<ZoneMatch>, more: seq<ZoneMatch>, source: ZoneMatch -> Option<nat>,
                        choices: seq<Option<nat>>, n: nat)
    requires forall q :: 0 <= q < |choices| && choices[q].Some? ==> choices[q].value < n
    requires forall q, r :: 0 <= q < r < |choices| && choices[q].Some? ==> choices[q] != choices[r]
    requires |ms| == |choices| && forall q :: 0 <= q < |ms| ==> source(ms[q]) == choices[q]
    requires |more| == |Unused(Taken(choices), n)|
    requires forall q :: 0 <= q < |more| ==> source(more[q]) == Some(Unused(Taken(choices), n)[q])
    ensures Once(ms + more, source, n)
  {
    var all, rest := ms + more, Unused(Taken(choices), n);
    forall i | 0 <= i < n ensures Has(all, source, i) {
      if i in Taken(choices) {
        var q :| 0 <= q < |choices| && choices[q] == Some(i);
        assert source(all[q]) == Some(i);
      } else {
        UnusedComplete(Taken(choices), n, i);
        var q :| 0 <= q < |rest| && rest[q] == i;
        assert source(all[|ms| + q]) == Some(i);
      }
    }
    forall q, r | 0 <= q < r < |all| && source(all[q]).Some? ensures source(all[q]) != source(all[r]) {
      if q < |ms| && |ms| <= r {
        assert choices[q].value in Taken(choices);
        assert rest[r - |ms|] !in Taken(choices);
      } else if |ms| <= q {
        assert rest[q - |ms|] != rest[r - |ms|];
      }
    }
  }

  lemma BgOnce(env: Env, s: Sources, order: seq<nat>)
    requires KeepsGroups(Keys(env, s.bg), order)
    ensures Once(BaseMatches(env, s, order), BgOf(), |s.bg|)
  {
    var ms := BgMatches(env, s, order);
    forall i | 0 <= i < |s.bg| ensures Has(ms, BgOf(), i) {
      assert i in order;
      var q :| 0 <= q < |order| && order[q] == i;
      assert BgOf()(ms[q]) == Some(i);
    }
    OnceKept(ms, BaseMatches(env, s, order), BgOf(), |s.bg|);
  }

  function InOrder(choices: seq<Option<nat>>, order: seq<nat>): seq<Option<nat>>
    requires forall q :: 0 <= q < |order| ==> order[q] < |choices|
  {
    seq(|order|, q requires 0 <= q < |order| => choices[order[q]])
  }

  lemma TakenInOrder(choices: seq<Option<nat>>, order: seq<nat>)
    requires forall q :: 0 <= q < |order| ==> order[q] < |choices|
    requires forall i :: 0 <= i < |choices| ==> i in order
    ensures Taken(InOrder(choices, order)) == Taken(choices)
  {
    forall j ensures j in Taken(choices) <==> j in Taken(InOrder(choices, order)) {
      if j in Taken(choices) {
        var i :| 0 <= i < |choices| && choices[i] == Some(j);
        assert i in order;
        var q :| 0 <= q < |order| && order[q] == i;
        assert InOrder(choices, order)[q] == Some(j);
      }
    }
  }

  lemma TtOnce(env: Env, s: Sources, order: seq<nat>)
    requires KeepsGroups(Keys(env, s.bg), order)
    ensures Once(BaseMatches(env, s, order), TtOf(), |s.tt|)
  {
    var p := Pairing(env, s.bg, s.tt);
    var choices := AllChoices(p);
    ChoicesAreMatching(p);
    TakenInOrder(choices, order);
    OnceByLeftovers(BgMatches(env, s, order), TtMatches(Taken(choices), |s.tt|), TtOf(),
                    InOrder(choices, order), |s.tt|);
  }

  const NOTHING := ZoneMatch(None, None, None, None, 0, "none")

  predicate SameSources(m: ZoneMatch, m': ZoneMatch) {
    m.bg == m'.bg && m.tt == m'.tt && m.kml == m'.kml
  }

  ghost predicate SameApartFromOsm(ms: seq<ZoneMatch>, r: seq<ZoneMatch>) {
    |ms| <= |r| && forall q :: 0 <= q < |r| ==> SameSources(if q < |ms| then ms[q] else NOTHING, r[q])
  }

  ghost function Keeping(ms: seq<ZoneMatch>): seq<ZoneMatch> -> bool {
    (r: seq<ZoneMatch>) => SameApartFromOsm(ms, r)
  }

  lemma AddOsmSame(env: Env, s: Sources, ms: seq<ZoneMatch>, before: seq<ZoneMatch>, k: nat)
    requires AllInRange(s, before) && k < |s.osm| && Keeping(ms)(before)
    ensures Keeping(ms)(AddOsm(env, s, before, k))
  {
    AddOsmKeeps(env, s, before, k);
    SameApartTwice(ms, before, AddOsm(env, s, before, k));
  }

  lemma SameApartTwice(ms: seq<ZoneMatch>, r: seq<ZoneMatch>, t: seq<ZoneMatch>)
    requires SameApartFromOsm(ms, r) && SameApartFromOsm(r, t)
    ensures SameApartFromOsm(ms, t)
  {
    forall q | 0 <= q < |t| ensures SameSources(if q < |ms| then ms[q] else NOTHING, t[q]) {
      assert SameSources(if q < |r| then r[q] else NOTHING, t[q]);
      if q < |r| {
        assert SameSources(if q < |ms| then ms[q] else NOTHING, r[q]);
      }
    }
  }

  lemma KeepsItself(ms: seq<ZoneMatch>)
    ensures Keeping(ms)(ms)
  {
  }

  ghost function SoundKeeping(s: Sources, ms: seq<ZoneMatch>): (seq<ZoneMatch>, nat) -> bool {
    (r: seq<ZoneMatch>, k: nat) => AllInRange(s, r) && Keeping(ms)(r)
  }

  lemma OsmStageKeeps(env: Env, s: Sources, ms: seq<ZoneMatch>, k: nat)
    requires AllInRange(s, ms) && k <= |s.osm|
    ensures Keeping(ms)(OsmStage(env, s, ms, k))
  {
    var inv, step := SoundKeeping(s, ms), Adder(env, s);
    KeepsItself(ms);
    forall x, i: nat | i < k && inv(x, i) ensures inv(step(x, i), i + 1) {
      AddOsmSame(env, s, ms, x, i);
    }
    StepsKeep(inv, step, ms, k);
  }

  lemma KmlOnce(env: Env, s: Sources, ms: seq<ZoneMatch>)
    requires AllInRange(s, ms) && AllAnchored(ms)
    ensures Once(KmlStage(env, s, ms), KmlOf(), |s.kml|)
  {
    var p := KmlProblem(env, s, ms);
    ChoicesAreMatching(p);
    OnceByLeftovers(WithKml(ms, AllChoices(p)), KmlMatches(Taken(AllChoices(p)), |s.kml|), KmlOf(),
                    AllChoices(p), |s.kml|);
  }

  lemma KmlStageSound(env: Env, s: Sources, ms: seq<ZoneMatch>)
    requires AllInRange(s, ms) && AllAnchored(ms)
    ensures AllInRange(s, KmlStage(env, s, ms))
    ensures forall q :: 0 <= q < |KmlStage(env, s, ms)| ==>
      HasZone(KmlStage(env, s, ms)[q])
  {
    var p := KmlProblem(env, s, ms);
    ChoicesAreMatching(p);
    var final := KmlStage(env, s, ms);
    forall q | 0 <= q < |final| ensures InRange(s, final[q]) && HasZone(final[q]) {
      if q < |ms| {
        assert InRange(s, ms[q]) && Anchored(ms[q]);
        assert final[q] == ms[q].(kml := AllChoices(p)[q]);
      } else {
        assert final[q] == KmlMatches(Taken(AllChoices(p)), |s.kml|)[q - |ms|];
      }
    }
  }

  /** The KML stage keeps what the stages before it settled. */
  lemma KmlStageKeeps(env: Env, s: Sources, ms: seq<ZoneMatch>)
    requires AllInRange(s, ms) && AllAnchored(ms)
    ensures Once(ms, BgOf(), |s.bg|) ==> Once(KmlStage(env, s, ms), BgOf(), |s.bg|)
    ensures Once(ms, TtOf(), |s.tt|) ==> Once(KmlStage(env, s, ms), TtOf(), |s.tt|)
  {
    if Once(ms, BgOf(), |s.bg|) {
      OnceKept(ms, KmlStage(env, s, ms), BgOf(), |s.bg|);
    }
    if Once(ms, TtOf(), |s.tt|) {
      OnceKept(ms, KmlStage(env, s, ms), TtOf(), |s.tt|);
    }
  }

  lemma OsmStageOnce(env: Env, s: Sources, order: seq<nat>)
    requires KeepsGroups(Keys(env, s.bg), order)
    ensures var ms := BaseMatches(env, s, order);
            && AllInRange(s, ms)
            && Once(OsmStage(env, s, ms, |s.osm|), BgOf(), |s.bg|)
            && Once(OsmStage(env, s, ms, |s.osm|), TtOf(), |s.tt|)
  {
    var base := BaseMatches(env, s, order);
    BaseIsSound(env, s, order);
    OsmStageKeeps(env, s, base, |s.osm|);
    BgOnce(env, s, order);
    TtOnce(env, s, order);
    var withOsm := OsmStage(env, s, base, |s.osm|);
    assert forall q :: 0 <= q < |withOsm| ==> SameSources(if q < |base| then base[q] else NOTHING, withOsm[q]);
    OnceKept(base, withOsm, BgOf(), |s.bg|);
    OnceKept(base, withOsm, TtOf(), |s.tt|);
  }

  /** Every BG TOLL, TollTracker and KML zone is in exactly one match, whatever
      order the groups are taken in; no match is empty. */
  lemma MatchesConserve(env: Env, s: Sources, order: seq<nat>)
    requires KeepsGroups(Keys(env, s.bg), order)
    ensures var ms := MatchesIn(env, s, order);
            && Once(ms, BgOf(), |s.bg|) && Once(ms, TtOf(), |s.tt|) && Once(ms, KmlOf(), |s.kml|)
            && AllInRange(s, ms)
            && forall q :: 0 <= q < |ms| ==> HasZone(ms[q])
  {
    var base := BaseMatches(env, s, order);
    BaseIsSound(env, s, order);
    OsmStageAnchored(env, s, base, |s.osm|);
    OsmStageOnce(env, s, order);
    var withOsm := OsmStage(env, s, base, |s.osm|);
    KmlStageKeeps(env, s, withOsm);
    KmlOnce(env, s, withOsm);
    KmlStageSound(env, s, withOsm);
  }

  // ----- nothing left over could still be paired -----

  /** In the base matches a BG TOLL zone without a TollTracker partner scores
      nothing against any TollTracker zone of its group left on its own. */
  lemma BasePairsMaximal(env: Env, s: Sources, order: seq<nat>, q: nat, r: nat)
    requires KeepsGroups(Keys(env, s.bg), order)
    requires var ms := BaseMatches(env, s, order);
             && q < |ms| && r < |ms| && ms[q].bg.Some? && ms[q].tt.None? && ms[r].bg.None? && ms[r].tt.Some?
             && ms[q].bg.value < |s.bg| && ms[r].tt.value < |s.tt|
             && KeyOf(env, s.bg[ms[q].bg.value]) == KeyOf(env, s.tt[ms[r].tt.value])
    ensures var ms := BaseMatches(env, s, order);
            Score(env, s.bg[ms[q].bg.value], s.tt[ms[r].tt.value]) <= 0
  {
    var p := Pairing(env, s.bg, s.tt);
    var taken := Taken(AllChoices(p));
    var ms := BaseMatches(env, s, order);
    assert ms[r] == TtMatches(taken, |s.tt|)[r - |order|];
    assert Unused(taken, |s.tt|)[r - |order|] !in taken;
    ChoicesAreMaximal(p, order[q], ms[r].tt.value);
  }

  /** A match without KML scores nothing against any KML zone of its group left
      on its own. */
  lemma KmlMaximal(env: Env, s: Sources, ms: seq<ZoneMatch>, q: nat, r: nat)
    requires AllInRange(s, ms) && AllAnchored(ms)
    requires var final := KmlStage(env, s, ms);
             && q < |ms| <= r < |final| && final[q].kml.None? && final[r].kml.Some? && final[r].kml.value < |s.kml|
             && KeyOf(env, KmlPrimary(s, ms[q])) == KeyOf(env, s.kml[final[r].kml.value])
    ensures Score(env, KmlPrimary(s, ms[q]), s.kml[KmlStage(env, s, ms)[r].kml.value]) <= 0
  {
    var p := KmlProblem(env, s, ms);
    var taken := Taken(AllChoices(p));
    var final := KmlStage(env, s, ms);
    assert final[r] == KmlMatches(taken, |s.kml|)[r - |ms|];
    assert Unused(taken, |s.kml|)[r - |ms|] !in taken;
    assert final[q] == ms[q].(kml := AllChoices(p)[q]);
    ChoicesAreMaximal(p, q, final[r].kml.value);
  }
}
