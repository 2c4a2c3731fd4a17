/**
 Which way round a source describes a section is an accident of the source. Here
 any secondary zones whose orientation can be told are handed over the other way
 round, through matching, merging and everything behind: the same is published.
 */
module Layout {
  import opened Prelude
  import opened Zones
  import opened Grouping
  import opened Greedy
  import opened Matching
  import opened Merging
  import opened Validation
  import opened Pipeline

  /** Which zones of the sources that can be secondary are exchanged. */
  datatype Exchange = Exchange(bg: set<nat>, osm: set<nat>, kml: set<nat>)

  function Swap(zones: seq<Zone>, which: set<nat>): (r: seq<Zone>)
    ensures |r| == |zones|
  {
    seq(|zones|, i requires 0 <= i < |zones| => if i in which then Exchanged(zones[i]) else zones[i])
  }

  function SwapSources(s: Sources, x: Exchange): Sources {
    Sources(Swap(s.bg, x.bg), s.tt, Swap(s.osm, x.osm), Swap(s.kml, x.kml))
  }

  predicate SayAsMuch(env: Env, zones: seq<Zone>, which: set<nat>) {
    forall i :: 0 <= i < |zones| && i in which ==> EndsAlike(env, zones[i])
  }

  predicate AllSayAsMuch(env: Env, s: Sources, x: Exchange) {
    SayAsMuch(env, s.bg, x.bg) && SayAsMuch(env, s.osm, x.osm) && SayAsMuch(env, s.kml, x.kml)
  }

  predicate Within(i: Option<nat>, which: set<nat>) {
    i.Some? && i.value in which
  }

  function TurnsOf(x: Exchange, m: ZoneMatch): Turns {
    Turns(Within(m.bg, x.bg), Within(m.osm, x.osm), Within(m.kml, x.kml))
  }

  /** Every exchanged zone is secondary in its match and can be placed there. */
  ghost predicate AllTurnable(env: Env, s: Sources, x: Exchange) {
    MatchesMergeable(env, s);
    forall q :: 0 <= q < |Matches(env, s)| ==>
      var m := Matches(env, s)[q];
      Mergeable(s, m) && Turnable(env, QuadOf(s, m), TurnsOf(x, m))
  }

  // ----- matching -----

  ghost predicate SameSections(env: Env, zs: seq<Zone>, ws: seq<Zone>) {
    |zs| == |ws| && forall i :: 0 <= i < |zs| ==> SameSection(env, zs[i], ws[i])
  }

  ghost predicate SameInput(env: Env, s: Sources, t: Sources) {
    && SameSections(env, s.bg, t.bg) && SameSections(env, s.tt, t.tt)
    && SameSections(env, s.osm, t.osm) && SameSections(env, s.kml, t.kml)
  }

  lemma SwapKeepsSections(env: Env, zones: seq<Zone>, which: set<nat>)
    requires SayAsMuch(env, zones, which)
    ensures SameSections(env, zones, Swap(zones, which))
  {
  }

  lemma KeysAlike(env: Env, zs: seq<Zone>, ws: seq<Zone>)
    requires SameSections(env, zs, ws)
    ensures Keys(env, zs) == Keys(env, ws)
  {
    forall i | 0 <= i < |zs| ensures KeyOf(env, zs[i]) == KeyOf(env, ws[i]) {
      assert SameSection(env, zs[i], ws[i]);
    }
  }

  lemma PairingAlike(env: Env, zs: seq<Zone>, ws: seq<Zone>, zs': seq<Zone>, ws': seq<Zone>)
    requires SameSections(env, zs, zs') && SameSections(env, ws, ws')
    ensures AllChoices(Pairing(env, zs', ws')) == AllChoices(Pairing(env, zs, ws))
  {
    var p, r := Pairing(env, zs, ws), Pairing(env, zs', ws');
    KeysAlike(env, zs, zs');
    KeysAlike(env, ws, ws');
    forall i: nat, j: nat | i < |zs| && j < |ws| ensures p.score(i, j) == r.score(i, j) {
      ScoreIgnoresEndOrder(env, zs[i], ws[j], zs'[i], ws'[j]);
    }
    ChoicesAlike(p, r, |zs|);
  }

  lemma BgMatchAlike(env: Env, s: Sources, t: Sources, i: nat, j: Option<nat>)
    requires SameInput(env, s, t) && i < |s.bg| && (j.Some? ==> j.value < |s.tt|)
    ensures BgMatch(env, t, i, j) == BgMatch(env, s, i, j)
  {
    if j.Some? {
      ScoreIgnoresEndOrder(env, s.bg[i], s.tt[j.value], t.bg[i], t.tt[j.value]);
    }
  }

  lemma BaseAlike(env: Env, s: Sources, t: Sources, order: seq<nat>)
    requires SameInput(env, s, t) && forall q :: 0 <= q < |order| ==> order[q] < |s.bg|
    ensures BaseMatches(env, t, order) == BaseMatches(env, s, order)
  {
    var p := Pairing(env, s.bg, s.tt);
    PairingAlike(env, s.bg, s.tt, t.bg, t.tt);
    forall q | 0 <= q < |order| ensures BgMatches(env, t, order)[q] == BgMatches(env, s, order)[q] {
      ChoiceAt(p, order[q]);
      BgMatchAlike(env, s, t, order[q], AllChoices(p)[order[q]]);
    }
    assert BgMatches(env, t, order) == BgMatches(env, s, order);
  }

  lemma FitAlike(env: Env, s: Sources, t: Sources, m: ZoneMatch, k: nat)
    requires SameInput(env, s, t) && InRange(s, m) && k < |s.osm|
    ensures OsmFits(env, t, m, t.osm[k]) == OsmFits(env, s, m, s.osm[k])
  {
    if Anchor(s, m).Some? {
      assert SameSection(env, Anchor(s, m).value, Anchor(t, m).value);
      ScoreIgnoresEndOrder(env, s.osm[k], Anchor(s, m).value, t.osm[k], Anchor(t, m).value);
    }
  }

  lemma {:induction false} TargetAlike(env: Env, s: Sources, t: Sources, ms: seq<ZoneMatch>, k: nat)
    requires SameInput(env, s, t) && AllInRange(s, ms) && AllInRange(t, ms) && k < |s.osm|
    ensures OsmTarget(env, t, ms, t.osm[k]) == OsmTarget(env, s, ms, s.osm[k])
    decreases |ms|
  {
    if ms != [] {
      TargetAlike(env, s, t, ms[..|ms| - 1], k);
      FitAlike(env, s, t, ms[|ms| - 1], k);
    }
  }

  lemma AdderAlike(env: Env, s: Sources, t: Sources, ms: seq<ZoneMatch>, k: nat)
    requires SameInput(env, s, t)
    ensures Adder(env, t)(ms, k) == Adder(env, s)(ms, k)
  {
    assert AllInRange(t, ms) <==> AllInRange(s, ms);
    if AllInRange(s, ms) && k < |s.osm| {
      TargetAlike(env, s, t, ms, k);
    }
  }

  lemma OsmAlike(env: Env, s: Sources, t: Sources, ms: seq<ZoneMatch>, k: nat)
    requires SameInput(env, s, t) && AllInRange(s, ms) && AllInRange(t, ms) && k <= |s.osm|
    ensures OsmStage(env, t, ms, k) == OsmStage(env, s, ms, k)
  {
    var f, g := Adder(env, t), Adder(env, s);
    forall x, i: nat | i < k ensures f(x, i) == g(x, i) {
      AdderAlike(env, s, t, x, i);
    }
    StepsAlike(f, g, ms, k);
  }

  lemma KmlAlike(env: Env, s: Sources, t: Sources, ms: seq<ZoneMatch>)
    requires SameInput(env, s, t) && AllInRange(s, ms) && AllInRange(t, ms) && AllAnchored(ms)
    ensures KmlStage(env, t, ms) == KmlStage(env, s, ms)
  {
    forall q | 0 <= q < |ms| ensures SameSection(env, KmlPrimaries(s, ms)[q], KmlPrimaries(t, ms)[q]) {
      assert InRange(s, ms[q]) && Anchored(ms[q]);
    }
    PairingAlike(env, KmlPrimaries(s, ms), s.kml, KmlPrimaries(t, ms), t.kml);
  }

  /** The zones are matched by index exactly as before, scores and reasons too. */
  lemma MatchesIgnoreLayout(env: Env, s: Sources, t: Sources)
    requires SameInput(env, s, t)
    ensures Matches(env, t) == Matches(env, s)
  {
    var order := Grouped(Keys(env, s.bg));
    KeysAlike(env, s.bg, t.bg);
    GroupedKeepsGroups(Keys(env, s.bg));
    BaseAlike(env, s, t, order);
    BaseIsSound(env, s, order);
    BaseIsSound(env, t, order);
    var base := BaseMatches(env, s, order);
    OsmAlike(env, s, t, base, |s.osm|);
    OsmStageAnchored(env, s, base, |s.osm|);
    KmlAlike(env, s, t, OsmStage(env, s, base, |s.osm|));
  }

  // ----- merging and the rest -----

  lemma SwapIsSame(env: Env, s: Sources, x: Exchange)
    requires AllSayAsMuch(env, s, x)
    ensures SameInput(env, s, SwapSources(s, x))
  {
    SwapKeepsSections(env, s.bg, x.bg);
    SwapKeepsSections(env, s.osm, x.osm);
    SwapKeepsSections(env, s.kml, x.kml);
  }

  lemma SwappedQuad(s: Sources, x: Exchange, m: ZoneMatch)
    requires InRange(s, m)
    ensures QuadOf(SwapSources(s, x), m) == Turn(QuadOf(s, m), TurnsOf(x, m))
  {
  }

  lemma MergedIgnoresLayout(env: Env, s: Sources, x: Exchange)
    requires AllSayAsMuch(env, s, x) && AllTurnable(env, s, x)
    ensures Merged(env, SwapSources(s, x)) == Merged(env, s)
  {
    var t := SwapSources(s, x);
    SwapIsSame(env, s, x);
    MatchesIgnoreLayout(env, s, t);
    MatchesMergeable(env, s);
    MatchesMergeable(env, t);
    forall q | 0 <= q < |Matches(env, s)| ensures Merged(env, t)[q] == Merged(env, s)[q] {
      var m := Matches(env, s)[q];
      SwappedQuad(s, x, m);
      MergeIgnoresLayout(env, QuadOf(s, m), TurnsOf(x, m));
    }
  }

  /** Handing over any secondary zones the other way round, labels kept, changes
      neither the zones published nor the warnings. */
  lemma PublishedIgnoresLayout(env: Env, required: seq<string>, s: Sources, x: Exchange)
    requires AllSayAsMuch(env, s, x) && AllTurnable(env, s, x)
    ensures Published(env, required, SwapSources(s, x)) == Published(env, required, s)
  {
    MergedIgnoresLayout(env, s, x);
  }
}
