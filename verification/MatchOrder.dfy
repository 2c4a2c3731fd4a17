/**
 Grouping only changes the order in which matches are found: the plain loop over all
 BG TOLL zones, in input order, matches the same zones with each other.
 */
module MatchOrder {
  import opened Prelude
  import opened Grouping
  import opened Zones
  import opened Greedy
  import opened Matching

  function Plain(n: nat): seq<nat> {
    seq(n, i => i)
  }

  /** The grouped order of the BG TOLL matches, then the rest as they stand. */
  function Extended(order: seq<nat>, n: nat): (r: seq<nat>)
    requires |order| <= n
    ensures |r| == n
  {
    seq(n, q requires 0 <= q < n => if q < |order| then order[q] else q)
  }

  /** The base matches of the grouped loop are those of the plain one, reordered. */
  lemma BaseReordered(env: Env, s: Sources, order: seq<nat>, q: nat)
    requires KeepsGroups(Keys(env, s.bg), order)
    requires q < |BaseMatches(env, s, order)|
    ensures |BaseMatches(env, s, Plain(|s.bg|))| == |BaseMatches(env, s, order)|
    ensures Extended(order, |BaseMatches(env, s, order)|)[q] < |BaseMatches(env, s, order)|
    ensures BaseMatches(env, s, order)[q]
         == BaseMatches(env, s, Plain(|s.bg|))[Extended(order, |BaseMatches(env, s, order)|)[q]]
  {
    var plain := Plain(|s.bg|);
    KeepsGroupsLength(Keys(env, s.bg), order);
    assert q < |order| ==> plain[order[q]] == order[q];
  }

  // ----- what the OSM stage does to a list of matches -----

  lemma {:induction false} OsmTargetIff(env: Env, s: Sources, ms: seq<ZoneMatch>, o: Zone)
    requires AllInRange(s, ms)
    ensures OsmTarget(env, s, ms, o).Some? <==> exists q :: 0 <= q < |ms| && OsmFits(env, s, ms[q], o)
    ensures OsmTarget(env, s, ms, o).Some? ==> OsmFits(env, s, ms[OsmTarget(env, s, ms, o).value], o)
  {
    if ms != [] {
      OsmTargetIff(env, s, ms[..|ms| - 1], o);
    }
  }

  /** The OSM zones that fit none of the matches. */
  function Lone(env: Env, s: Sources, ms: seq<ZoneMatch>, k: nat): seq<nat>
    requires AllInRange(s, ms) && k <= |s.osm|
  {
    if k == 0 then []
    else Lone(env, s, ms, k - 1) + if OsmTarget(env, s, ms, s.osm[k - 1]).None? then [k - 1] else []
  }

  function LoneMatch(k: nat): ZoneMatch {
    ZoneMatch(None, None, Some(k), None, 0, "osm_only")
  }

  predicate SameButOsm(m: ZoneMatch, m': ZoneMatch) {
    m' == m.(osm := m'.osm)
  }

  ghost predicate Shape(ms: seq<ZoneMatch>, lone: seq<nat>, r: seq<ZoneMatch>) {
    && |r| == |ms| + |lone|
    && (forall q :: 0 <= q < |ms| ==> SameButOsm(ms[q], r[q]))
    && forall q :: |ms| <= q < |r| ==> r[q] == LoneMatch(lone[q - |ms|])
  }

  /** What a match is known by does not depend on its OSM zone; and a match without a
      zone to go by fits nothing, so OSM zones on their own never attract another. */
  lemma FitsAlike(env: Env, s: Sources, m: ZoneMatch, m': ZoneMatch, o: Zone)
    requires InRange(s, m) && InRange(s, m') && SameButOsm(m, m')
    ensures OsmFits(env, s, m, o) <==> OsmFits(env, s, m', o)
  {
  }

  lemma FitsAt(env: Env, s: Sources, ms: seq<ZoneMatch>, lone: seq<nat>, r: seq<ZoneMatch>, o: Zone, q: nat)
    requires AllInRange(s, ms) && AllInRange(s, r) && Shape(ms, lone, r) && q < |r|
    ensures OsmFits(env, s, r[q], o) <==> q < |ms| && OsmFits(env, s, ms[q], o)
  {
    if q < |ms| {
      FitsAlike(env, s, ms[q], r[q], o);
    }
  }

  lemma TargetAlike(env: Env, s: Sources, ms: seq<ZoneMatch>, lone: seq<nat>, r: seq<ZoneMatch>, o: Zone)
    requires AllInRange(s, ms) && AllInRange(s, r) && Shape(ms, lone, r)
    ensures OsmTarget(env, s, r, o).Some? <==> OsmTarget(env, s, ms, o).Some?
    ensures OsmTarget(env, s, r, o).Some? ==> OsmTarget(env, s, r, o).value < |ms|
  {
    OsmTargetIff(env, s, ms, o);
    OsmTargetIff(env, s, r, o);
    if OsmTarget(env, s, r, o).Some? {
      FitsAt(env, s, ms, lone, r, o, OsmTarget(env, s, r, o).value);
    }
    if OsmTarget(env, s, ms, o).Some? {
      FitsAt(env, s, ms, lone, r, o, OsmTarget(env, s, ms, o).value);
    }
  }

  lemma ShapeStep(ms: seq<ZoneMatch>, lone: seq<nat>, r: seq<ZoneMatch>, k: nat, t: Option<nat>)
    requires Shape(ms, lone, r) && (t.Some? ==> t.value < |ms|)
    ensures t.Some? ==> Shape(ms, lone, r[t.value := r[t.value].(osm := Some(k))])
    ensures t.None? ==> Shape(ms, lone + [k], r + [LoneMatch(k)])
  {
  }

  ghost function Shaped(ms: seq<ZoneMatch>, lone: seq<nat>): seq<ZoneMatch> -> bool {
    (r: seq<ZoneMatch>) => Shape(ms, lone, r)
  }

  lemma AddOsmShape(env: Env, s: Sources, ms: seq<ZoneMatch>, lone: seq<nat>, r: seq<ZoneMatch>, k: nat)
    requires AllInRange(s, ms) && AllInRange(s, r) && Shaped(ms, lone)(r) && k < |s.osm|
    ensures Shaped(ms, lone + if OsmTarget(env, s, ms, s.osm[k]).None? then [k] else [])(AddOsm(env, s, r, k))
  {
    TargetAlike(env, s, ms, lone, r, s.osm[k]);
    ShapeStep(ms, lone, r, k, OsmTarget(env, s, r, s.osm[k]));
  }

  ghost function SoundShaped(env: Env, s: Sources, ms: seq<ZoneMatch>): (seq<ZoneMatch>, nat) -> bool
    requires AllInRange(s, ms)
  {
    (r: seq<ZoneMatch>, k: nat) => k <= |s.osm| && AllInRange(s, r) && Shaped(ms, Lone(env, s, ms, k))(r)
  }

  lemma ShapedItself(env: Env, s: Sources, ms: seq<ZoneMatch>)
    requires AllInRange(s, ms)
    ensures SoundShaped(env, s, ms)(ms, 0)
  {
    assert Lone(env, s, ms, 0) == [];
    assert Shape(ms, [], ms);
    assert Shaped(ms, Lone(env, s, ms, 0))(ms);
  }

  lemma ShapedNext(env: Env, s: Sources, ms: seq<ZoneMatch>, r: seq<ZoneMatch>, k: nat)
    requires AllInRange(s, ms) && k < |s.osm| && SoundShaped(env, s, ms)(r, k)
    ensures SoundShaped(env, s, ms)(Adder(env, s)(r, k), k + 1)
  {
    var lone := Lone(env, s, ms, k);
    AddOsmShape(env, s, ms, lone, r, k);
    assert Lone(env, s, ms, k + 1) == lone + if OsmTarget(env, s, ms, s.osm[k]).None? then [k] else [];
    assert Adder(env, s)(r, k) == AddOsm(env, s, r, k);
  }

  lemma OsmStageShape(env: Env, s: Sources, ms: seq<ZoneMatch>, k: nat)
    requires AllInRange(s, ms) && k <= |s.osm|
    ensures Shaped(ms, Lone(env, s, ms, k))(OsmStage(env, s, ms, k))
  {
    var inv, step := SoundShaped(env, s, ms), Adder(env, s);
    ShapedItself(env, s, ms);
    forall x, i: nat | i < k && inv(x, i) ensures inv(step(x, i), i + 1) {
      ShapedNext(env, s, ms, x, i);
    }
    StepsKeep(inv, step, ms, k);
  }

  // ----- the two orders, stage by stage -----

  /** The same match, unless it is told apart by the OSM zone written onto it. */
  predicate Alike(m: ZoneMatch, m': ZoneMatch) {
    SameButOsm(m, m') && (m.bg.None? && m.tt.None? ==> m == m')
  }

  ghost predicate Rearranged(ms: seq<ZoneMatch>, ms': seq<ZoneMatch>, perm: seq<nat>) {
    |ms'| == |ms| == |perm| && forall q :: 0 <= q < |perm| ==> perm[q] < |ms| && Alike(ms[perm[q]], ms'[q])
  }

  ghost predicate Onto(perm: seq<nat>) {
    forall i :: 0 <= i < |perm| ==> i in perm
  }

  lemma ExtendedIsOnto<K>(keys: seq<K>, order: seq<nat>, n: nat)
    requires KeepsGroups(keys, order) && |order| == |keys| <= n
    ensures Onto(Extended(order, n))
    ensures forall q :: 0 <= q < n ==> Extended(order, n)[q] < n
  {
    var perm := Extended(order, n);
    forall i | 0 <= i < n ensures i in perm {
      if i < |order| {
        assert i in order;
        var q :| 0 <= q < |order| && order[q] == i;
        assert perm[q] == i;
      } else {
        assert perm[i] == i;
      }
    }
  }

  lemma BaseRearranged(env: Env, s: Sources, order: seq<nat>)
    requires KeepsGroups(Keys(env, s.bg), order)
    ensures var base, base' := BaseMatches(env, s, Plain(|s.bg|)), BaseMatches(env, s, order);
            && |order| <= |base'| && |base| == |base'| && AllInRange(s, base) && AllInRange(s, base')
            && forall q :: 0 <= q < |base'| ==>
                 Extended(order, |base'|)[q] < |base| && base'[q] == base[Extended(order, |base'|)[q]]
  {
    BaseIsSound(env, s, Plain(|s.bg|));
    BaseIsSound(env, s, order);
    KeepsGroupsLength(Keys(env, s.bg), order);
    forall q | 0 <= q < |BaseMatches(env, s, order)|
      ensures var n := |BaseMatches(env, s, order)|;
              && |BaseMatches(env, s, Plain(|s.bg|))| == n && Extended(order, n)[q] < n
              && BaseMatches(env, s, order)[q] == BaseMatches(env, s, Plain(|s.bg|))[Extended(order, n)[q]]
    {
      BaseReordered(env, s, order, q);
    }
  }

  /** Reordered matches attract the same OSM zones. */
  lemma {:induction false} LoneAlike(env: Env, s: Sources, ms: seq<ZoneMatch>, ms': seq<ZoneMatch>, perm: seq<nat>, k: nat)
    requires AllInRange(s, ms) && AllInRange(s, ms') && k <= |s.osm|
    requires |ms| == |ms'| == |perm| && Onto(perm)
    requires forall q :: 0 <= q < |perm| ==> perm[q] < |ms| && ms'[q] == ms[perm[q]]
    ensures Lone(env, s, ms, k) == Lone(env, s, ms', k)
  {
    if k > 0 {
      LoneAlike(env, s, ms, ms', perm, k - 1);
      var o := s.osm[k - 1];
      OsmTargetIff(env, s, ms, o);
      OsmTargetIff(env, s, ms', o);
      if OsmTarget(env, s, ms, o).Some? {
        assert OsmTarget(env, s, ms, o).value in perm;
        var q :| 0 <= q < |perm| && perm[q] == OsmTarget(env, s, ms, o).value;
        assert OsmFits(env, s, ms'[q], o);
      }
      if OsmTarget(env, s, ms', o).Some? {
        assert OsmFits(env, s, ms[perm[OsmTarget(env, s, ms', o).value]], o);
      }
    }
  }

  function WithOsm(env: Env, s: Sources, order: seq<nat>): seq<ZoneMatch>
    requires forall q :: 0 <= q < |order| ==> order[q] < |s.bg|
  {
    BaseIsSound(env, s, order);
    OsmStage(env, s, BaseMatches(env, s, order), |s.osm|)
  }

  lemma WithOsmSound(env: Env, s: Sources, order: seq<nat>)
    requires forall q :: 0 <= q < |order| ==> order[q] < |s.bg|
    ensures AllInRange(s, WithOsm(env, s, order)) && AllAnchored(WithOsm(env, s, order))
  {
    BaseIsSound(env, s, order);
    OsmStageAnchored(env, s, BaseMatches(env, s, order), |s.osm|);
  }

  lemma BaseHasZone(env: Env, s: Sources, order: seq<nat>, q: nat)
    requires forall q :: 0 <= q < |order| ==> order[q] < |s.bg|
    requires q < |BaseMatches(env, s, order)|
    ensures BaseMatches(env, s, order)[q].bg.Some? || BaseMatches(env, s, order)[q].tt.Some?
  {
  }

  lemma ShapesRearranged(ms: seq<ZoneMatch>, ms': seq<ZoneMatch>, lone: seq<nat>, r: seq<ZoneMatch>, r': seq<ZoneMatch>,
                         order: seq<nat>)
    requires Shape(ms, lone, r) && Shape(ms', lone, r') && |order| <= |ms| == |ms'|
    requires forall q :: 0 <= q < |ms'| ==> Extended(order, |ms'|)[q] < |ms| && ms'[q] == ms[Extended(order, |ms'|)[q]]
    requires forall q :: 0 <= q < |ms'| ==> ms'[q].bg.Some? || ms'[q].tt.Some?
    ensures Rearranged(r, r', Extended(order, |r'|))
  {
    var perm := Extended(order, |r'|);
    forall q | 0 <= q < |perm| ensures perm[q] < |r| && Alike(r[perm[q]], r'[q]) {
      if q < |ms| {
        assert perm[q] == Extended(order, |ms'|)[q];
        assert SameButOsm(ms[perm[q]], r[perm[q]]) && SameButOsm(ms'[q], r'[q]);
      }
    }
  }

  lemma OsmRearranged(env: Env, s: Sources, order: seq<nat>)
    requires KeepsGroups(Keys(env, s.bg), order)
    ensures var os, os' := WithOsm(env, s, Plain(|s.bg|)), WithOsm(env, s, order);
            |order| <= |os'| && Rearranged(os, os', Extended(order, |os'|))
  {
    var plain := Plain(|s.bg|);
    var base, base' := BaseMatches(env, s, plain), BaseMatches(env, s, order);
    KeepsGroupsLength(Keys(env, s.bg), order);
    BaseRearranged(env, s, order);
    ExtendedIsOnto(Keys(env, s.bg), order, |base'|);
    LoneAlike(env, s, base, base', Extended(order, |base'|), |s.osm|);
    OsmStageShape(env, s, base, |s.osm|);
    OsmStageShape(env, s, base', |s.osm|);
    forall q | 0 <= q < |base'| ensures base'[q].bg.Some? || base'[q].tt.Some? {
      BaseHasZone(env, s, order, q);
    }
    ShapesRearranged(base, base', Lone(env, s, base, |s.osm|), WithOsm(env, s, plain), WithOsm(env, s, order), order);
  }

  // ----- KML -----

  lemma PrimaryAlike(s: Sources, m: ZoneMatch, m': ZoneMatch)
    requires InRange(s, m) && InRange(s, m') && Anchored(m) && Anchored(m') && Alike(m, m')
    ensures KmlPrimary(s, m) == KmlPrimary(s, m')
  {
  }

  lemma PrimariesRearranged(s: Sources, ms: seq<ZoneMatch>, ms': seq<ZoneMatch>, perm: seq<nat>)
    requires AllInRange(s, ms) && AllAnchored(ms) && AllInRange(s, ms') && AllAnchored(ms') && Rearranged(ms, ms', perm)
    ensures forall q :: 0 <= q < |perm| ==> KmlPrimaries(s, ms')[q] == KmlPrimaries(s, ms)[perm[q]]
  {
    forall q | 0 <= q < |perm| ensures KmlPrimaries(s, ms')[q] == KmlPrimaries(s, ms)[perm[q]] {
      assert InRange(s, ms'[q]) && InRange(s, ms[perm[q]]) && Anchored(ms'[q]) && Anchored(ms[perm[q]]);
      PrimaryAlike(s, ms[perm[q]], ms'[q]);
    }
  }

  /** Every match keeps the KML zone it gets, wherever it stands. */
  lemma KmlChoicesRearranged(env: Env, s: Sources, ms: seq<ZoneMatch>, ms': seq<ZoneMatch>, perm: seq<nat>, q: nat)
    requires AllInRange(s, ms) && AllAnchored(ms) && AllInRange(s, ms') && AllAnchored(ms') && Rearranged(ms, ms', perm)
    requires KeepsGroups(KmlProblem(env, s, ms).left, perm) && q < |perm|
    ensures AllChoices(KmlProblem(env, s, ms'))[q] == AllChoices(KmlProblem(env, s, ms))[perm[q]]
  {
    var p, p' := KmlProblem(env, s, ms), KmlProblem(env, s, ms');
    PrimariesRearranged(s, ms, ms', perm);
    OrderIrrelevant(p, perm, q);
    assert Reordered(p, perm).left == p'.left;
    ChoicesAlike(Reordered(p, perm), p', |perm|);
  }

  lemma BaseKey(env: Env, s: Sources, q: nat)
    requires q < |s.bg|
    ensures var os := WithOsm(env, s, Plain(|s.bg|));
            && q < |os| && AllInRange(s, os) && AllAnchored(os)
            && KmlProblem(env, s, os).left[q] == KeyOf(env, s.bg[q])
  {
    var plain := Plain(|s.bg|);
    WithOsmSound(env, s, plain);
    BaseIsSound(env, s, plain);
    OsmStageShape(env, s, BaseMatches(env, s, plain), |s.osm|);
    ChoiceAt(Pairing(env, s.bg, s.tt), q);
    var base, os := BaseMatches(env, s, plain), WithOsm(env, s, plain);
    assert base[q].bg == Some(q) && SameButOsm(base[q], os[q]);
    assert InRange(s, base[q]) && InRange(s, os[q]) && Anchored(os[q]);
    TtKey(env, s, q);
    assert KmlPrimaries(s, os)[q] == KmlPrimary(s, os[q]);
  }

  /** A BG TOLL zone and the TollTracker zone chosen for it are of one group. */
  lemma TtKey(env: Env, s: Sources, q: nat)
    requires q < |s.bg|
    ensures var j := AllChoices(Pairing(env, s.bg, s.tt))[q];
            j.Some? ==> j.value < |s.tt| && KeyOf(env, s.tt[j.value]) == KeyOf(env, s.bg[q])
  {
    ChoiceAt(Pairing(env, s.bg, s.tt), q);
  }

  lemma OrderKeepsKmlGroups(env: Env, s: Sources, order: seq<nat>)
    requires KeepsGroups(Keys(env, s.bg), order)
    ensures var os := WithOsm(env, s, Plain(|s.bg|));
            && AllInRange(s, os) && AllAnchored(os) && |order| <= |os|
            && KeepsGroups(KmlProblem(env, s, os).left, Extended(order, |os|))
  {
    var os := WithOsm(env, s, Plain(|s.bg|));
    WithOsmSound(env, s, Plain(|s.bg|));
    KeepsGroupsLength(Keys(env, s.bg), order);
    OsmRearranged(env, s, order);
    ExtendedIsOnto(Keys(env, s.bg), order, |os|);
    var keys, perm := KmlProblem(env, s, os).left, Extended(order, |os|);
    forall q, r | 0 <= q < r < |perm| && keys[perm[q]] == keys[perm[r]] ensures perm[q] < perm[r] {
      if r < |order| {
        BaseKey(env, s, order[q]);
        BaseKey(env, s, order[r]);
        assert Keys(env, s.bg)[order[q]] == Keys(env, s.bg)[order[r]];
      }
    }
  }

  lemma TakenRearranged(cs: seq<Option<nat>>, cs': seq<Option<nat>>, perm: seq<nat>)
    requires |cs| == |cs'| == |perm| && Onto(perm)
    requires forall q :: 0 <= q < |perm| ==> perm[q] < |cs| && cs'[q] == cs[perm[q]]
    ensures Taken(cs) == Taken(cs')
  {
    forall j ensures j in Taken(cs) <==> j in Taken(cs') {
      if j in Taken(cs) {
        var i :| 0 <= i < |cs| && cs[i] == Some(j);
        assert i in perm;
        var q :| 0 <= q < |perm| && perm[q] == i;
        assert cs'[q] == Some(j);
      }
      if j in Taken(cs') {
        var q :| 0 <= q < |cs'| && cs'[q] == Some(j);
        assert cs[perm[q]] == Some(j);
      }
    }
  }

  /** Whatever order keeps each group's own order, the same zones end up in one match:
      the matches are those of the plain loop, rearranged, up to the OSM zone written
      onto a match. */
  lemma GroupingIrrelevant(env: Env, s: Sources, order: seq<nat>)
    requires KeepsGroups(Keys(env, s.bg), order)
    ensures var grouped, plain := MatchesIn(env, s, order), MatchesIn(env, s, Plain(|s.bg|));
            |order| <= |grouped| && Rearranged(plain, grouped, Extended(order, |grouped|))
  {
    var os, os' := WithOsm(env, s, Plain(|s.bg|)), WithOsm(env, s, order);
    KeepsGroupsLength(Keys(env, s.bg), order);
    WithOsmSound(env, s, Plain(|s.bg|));
    WithOsmSound(env, s, order);
    OsmRearranged(env, s, order);
    OrderKeepsKmlGroups(env, s, order);
    ExtendedIsOnto(Keys(env, s.bg), order, |os|);
    KmlStagesRearranged(env, s, os, os', order);
  }

  lemma KmlStagesRearranged(env: Env, s: Sources, ms: seq<ZoneMatch>, ms': seq<ZoneMatch>, order: seq<nat>)
    requires AllInRange(s, ms) && AllAnchored(ms) && AllInRange(s, ms') && AllAnchored(ms') && |order| <= |ms|
    requires var perm := Extended(order, |ms|);
             Rearranged(ms, ms', perm) && Onto(perm) && KeepsGroups(KmlProblem(env, s, ms).left, perm)
    ensures var r, r' := KmlStage(env, s, ms), KmlStage(env, s, ms');
            |order| <= |r'| && Rearranged(r, r', Extended(order, |r'|))
  {
    var perm := Extended(order, |ms|);
    var cs, cs' := AllChoices(KmlProblem(env, s, ms)), AllChoices(KmlProblem(env, s, ms'));
    forall q | 0 <= q < |perm| ensures cs'[q] == cs[perm[q]] {
      KmlChoicesRearranged(env, s, ms, ms', perm, q);
    }
    TakenRearranged(cs, cs', perm);
    WithKmlRearranged(ms, ms', cs, cs', perm);
    ExtendedRearranged(WithKml(ms, cs), WithKml(ms', cs'), KmlMatches(Taken(cs), |s.kml|), order);
  }

  lemma WithKmlRearranged(ms: seq<ZoneMatch>, ms': seq<ZoneMatch>, cs: seq<Option<nat>>, cs': seq<Option<nat>>,
                          perm: seq<nat>)
    requires Rearranged(ms, ms', perm) && |cs| == |cs'| == |ms|
    requires forall q :: 0 <= q < |perm| ==> cs'[q] == cs[perm[q]]
    ensures Rearranged(WithKml(ms, cs), WithKml(ms', cs'), perm)
  {
    forall q | 0 <= q < |perm| ensures Alike(WithKml(ms, cs)[perm[q]], WithKml(ms', cs')[q]) {
      assert Alike(ms[perm[q]], ms'[q]);
    }
  }

  /** The same matches added behind both. */
  lemma ExtendedRearranged(ms: seq<ZoneMatch>, ms': seq<ZoneMatch>, more: seq<ZoneMatch>, order: seq<nat>)
    requires |order| <= |ms| && Rearranged(ms, ms', Extended(order, |ms|))
    ensures Rearranged(ms + more, ms' + more, Extended(order, |ms' + more|))
  {
    var perm, all := Extended(order, |ms|), Extended(order, |ms' + more|);
    forall q | 0 <= q < |all| ensures all[q] < |ms + more| && Alike((ms + more)[all[q]], (ms' + more)[q]) {
      if q < |ms| {
        assert all[q] == perm[q] && Alike(ms[perm[q]], ms'[q]);
      }
    }
  }
}
