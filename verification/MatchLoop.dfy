/**
 The matcher as it runs: dictionaries of groups in insertion order, a set of used
 indices, and a list of matches that grows and is written to. It returns exactly
 the matches that Matching specifies.
 */
module MatchLoop {
  import opened Prelude
  import opened Grouping
  import opened Zones
  import opened Greedy
  import opened Matching

  /** The candidates of one zone's group, already-used ones skipped. */
  method FindBest(env: Env, a: Zone, zones: seq<Zone>, candidates: seq<nat>, used: set<nat>,
                  ghost p: Problem<Key>, ghost i: nat)
    returns (best: Option<nat>)
    requires i < |p.left| && |p.right| == |zones|
    requires forall j :: 0 <= j < |zones| ==> p.score(i, j) == Score(env, a, zones[j])
    requires forall c :: 0 <= c < |candidates| ==> candidates[c] < |zones| && p.right[candidates[c]] == p.left[i]
    ensures best == BestOf(p, i, used, candidates)
  {
    best := None;
    var bestScore := 0;
    for c := 0 to |candidates|
      invariant best == BestOf(p, i, used, candidates[..c])
      invariant best.Some? ==> best.value < |zones| && bestScore == p.score(i, best.value)
    {
      var j := candidates[c];
      BestOfSnoc(p, i, used, candidates[..c], j);
      assert candidates[..c + 1] == candidates[..c] + [j];
      if j !in used {
        var score := 0;
        if SettlementsMatch(env, a, zones[j]) {
          score := score + 5;
        }
        if KmRangesOverlap(env, a, zones[j]) {
          score := score + 3;
        }
        if CoordsClose(env, a, zones[j]) {
          score := score + 2;
        }
        assert score == p.score(i, j);
        if score > 0 && (best.None? || score > bestScore) {
          best, bestScore := Some(j), score;
        }
      }
    }
    assert candidates[..|candidates|] == candidates;
  }

  /** What the groups processed so far have used. */
  ghost function UsedBy(choices: seq<Option<nat>>, done: seq<nat>): set<nat>
    requires forall q :: 0 <= q < |done| ==> done[q] < |choices|
  {
    Taken(InOrder(choices, done))
  }

  lemma UsedBySnoc(choices: seq<Option<nat>>, done: seq<nat>, i: nat)
    requires forall q :: 0 <= q < |done| ==> done[q] < |choices|
    requires i < |choices|
    ensures UsedBy(choices, done + [i])
         == UsedBy(choices, done) + if choices[i].Some? then {choices[i].value} else {}
  {
    var cs, cs' := InOrder(choices, done), InOrder(choices, done + [i]);
    assert cs' == cs + [choices[i]];
    forall j ensures j in Taken(cs') <==> j in Taken(cs) || choices[i] == Some(j) {
      if j in Taken(cs) {
        var q :| 0 <= q < |cs| && cs[q] == Some(j);
        assert cs'[q] == Some(j);
      }
      if choices[i] == Some(j) {
        assert cs'[|cs|] == Some(j);
      }
    }
  }

  /** The items before `i` in the grouped order include exactly its group's
      earlier members, so the choice made now is the plain loop's. */
  lemma ChoiceInGroup(p: Problem<Key>, done: seq<nat>, rest: seq<nat>, i: nat)
    requires i < |p.left| && KeepsGroups(p.left, done + [i] + rest)
    ensures forall q :: 0 <= q < |done| ==> done[q] < |p.left|
    ensures BestOf(p, i, UsedBy(AllChoices(p), done), IndicesOf(p.right, p.left[i], |p.right|)) == AllChoices(p)[i]
  {
    var order := done + [i] + rest;
    var cs := AllChoices(p);
    forall q | 0 <= q < |done| ensures done[q] < |p.left| {
      assert order[q] == done[q];
    }
    assert order[|done|] == i;
    var mine, theirs := UsedBy(cs, done), Taken(cs[..i]);
    forall j | 0 <= j < |p.right| && p.right[j] == p.left[i] ensures j in mine <==> j in theirs {
      if j in mine {
        var q :| 0 <= q < |done| && InOrder(cs, done)[q] == Some(j);
        ChoiceAt(p, done[q]);
        assert order[q] == done[q];
        assert cs[..i][done[q]] == Some(j);
      }
      if j in theirs {
        var h :| 0 <= h < i && cs[..i][h] == Some(j);
        ChoiceAt(p, h);
        assert h in order;
        var q :| 0 <= q < |order| && order[q] == h;
        assert q < |done|;
        assert InOrder(cs, done)[q] == Some(j);
      }
    }
    ChoiceAt(p, i);
    BestIsLocal(p, i, mine, theirs, |p.right|);
    GroupScan(p, i, mine, |p.right|);
  }

  lemma NextMember<T>(done: seq<T>, members: seq<T>, rest: seq<T>, b: nat)
    requires b < |members|
    ensures done + members + rest == done + members[..b] + [members[b]] + (members[b + 1..] + rest)
    ensures done + members[..b + 1] == done + members[..b] + [members[b]]
  {
  }

  /** One group of BG TOLL zones, `done` being the zones of earlier groups. */
  method MatchGroup(env: Env, s: Sources, members: seq<nat>, candidates: seq<nat>, matches0: seq<ZoneMatch>,
                    used0: set<nat>, ghost done: seq<nat>, ghost rest: seq<nat>)
    returns (matches: seq<ZoneMatch>, used: set<nat>)
    requires KeepsGroups(Keys(env, s.bg), done + members + rest)
    requires forall b :: 0 <= b < |members| ==>
      members[b] < |s.bg| && candidates == IndicesOf(Keys(env, s.tt), KeyOf(env, s.bg[members[b]]), |s.tt|)
    requires forall q :: 0 <= q < |done| ==> done[q] < |s.bg|
    requires matches0 == BgMatches(env, s, done)
    requires used0 == UsedBy(AllChoices(Pairing(env, s.bg, s.tt)), done)
    ensures forall q :: 0 <= q < |done + members| ==> (done + members)[q] < |s.bg|
    ensures matches == BgMatches(env, s, done + members)
    ensures used == UsedBy(AllChoices(Pairing(env, s.bg, s.tt)), done + members)
  {
    ghost var p := Pairing(env, s.bg, s.tt);
    ghost var sofar := done;
    matches, used := matches0, used0;
    for b := 0 to |members|
      invariant sofar == done + members[..b]
      invariant matches == BgMatches(env, s, sofar)
      invariant used == UsedBy(AllChoices(p), sofar)
    {
      var i := members[b];
      NextMember(done, members, rest, b);
      ChoiceInGroup(p, sofar, members[b + 1..] + rest, i);
      var best := FindBest(env, s.bg[i], s.tt, candidates, used, p, i);
      BgMatchesSnoc(env, s, sofar, i);
      UsedBySnoc(AllChoices(p), sofar, i);
      matches := matches + [BgMatch(env, s, i, best)];
      if best.Some? {
        used := used + {best.value};
      }
      sofar := sofar + [i];
    }
    assert members[..|members|] == members;
  }

  lemma BgMatchesSnoc(env: Env, s: Sources, done: seq<nat>, i: nat)
    requires forall q :: 0 <= q < |done| ==> done[q] < |s.bg|
    requires i < |s.bg|
    ensures var j := AllChoices(Pairing(env, s.bg, s.tt))[i];
            && (j.Some? ==> j.value < |s.tt|)
            && BgMatches(env, s, done + [i]) == BgMatches(env, s, done) + [BgMatch(env, s, i, j)]
  {
    ChoiceAt(Pairing(env, s.bg, s.tt), i);
  }

  /** BG TOLL against TollTracker, group by group. */
  method MatchBgToll(env: Env, s: Sources) returns (matches: seq<ZoneMatch>, used: set<nat>)
    ensures KeepsGroups(Keys(env, s.bg), Grouped(Keys(env, s.bg)))
    ensures matches == BgMatches(env, s, Grouped(Keys(env, s.bg)))
    ensures used == Taken(AllChoices(Pairing(env, s.bg, s.tt)))
  {
    var keys, ttKeys := Keys(env, s.bg), Keys(env, s.tt);
    var order, groups := GroupBy(keys);
    var ttOrder, ttGroups := GroupBy(ttKeys);
    ghost var done: seq<nat> := [];
    ghost var choices := AllChoices(Pairing(env, s.bg, s.tt));
    matches, used := [], {};
    for g := 0 to |order|
      invariant done == GroupOrder(keys, order[..g])
      invariant forall q :: 0 <= q < |done| ==> done[q] < |s.bg|
      invariant matches == BgMatches(env, s, done)
      invariant used == UsedBy(choices, done)
    {
      var key := order[g];
      var members := groups[key];
      var candidates := if key in ttGroups then ttGroups[key] else [];
      ghost var rest := AllGroups(keys, order, g);
      matches, used := MatchGroup(env, s, members, candidates, matches, used, done, rest);
      NextGroup(keys, order, g);
      done := done + members;
    }
    assert order[..|order|] == order;
    GroupedKeepsGroups(keys);
    TakenInOrder(choices, done);
  }

  lemma NextGroup<K>(keys: seq<K>, order: seq<K>, g: nat)
    requires g < |order|
    ensures GroupOrder(keys, order[..g + 1]) == GroupOrder(keys, order[..g]) + IndicesOf(keys, order[g], |keys|)
  {
    assert order[..g + 1][..g] == order[..g];
  }

  lemma AllGroups<K>(keys: seq<K>, order: seq<K>, g: nat) returns (rest: seq<nat>)
    requires order == FirstKeys(keys, |keys|) && g < |order|
    ensures KeepsGroups(keys, GroupOrder(keys, order[..g]) + IndicesOf(keys, order[g], |keys|) + rest)
  {
    rest := GroupOrderSplit(keys, order, g);
    GroupedKeepsGroups(keys);
  }

  lemma {:induction false} GroupOrderSplit<K>(keys: seq<K>, firsts: seq<K>, g: nat) returns (rest: seq<nat>)
    requires g < |firsts|
    ensures GroupOrder(keys, firsts) == GroupOrder(keys, firsts[..g]) + IndicesOf(keys, firsts[g], |keys|) + rest
    decreases |firsts|
  {
    var n := |firsts| - 1;
    assert firsts[..n][..g] == firsts[..g];
    if g < n {
      var rest' := GroupOrderSplit(keys, firsts[..n], g);
      rest := rest' + IndicesOf(keys, firsts[n], |keys|);
    } else {
      rest := [];
    }
  }

  method FindFit(env: Env, s: Sources, matches: seq<ZoneMatch>, o: Zone) returns (t: Option<nat>)
    requires AllInRange(s, matches)
    ensures t == OsmTarget(env, s, matches, o)
  {
    for q := 0 to |matches|
      invariant OsmTarget(env, s, matches[..q], o) == None
    {
      if OsmFits(env, s, matches[q], o) {
        FirstFit(env, s, matches, o, q);
        return Some(q);
      }
      assert matches[..q + 1][..q] == matches[..q];
    }
    assert matches[..|matches|] == matches;
    return None;
  }

  /** OSM zones: written onto the first match they fit, or added. */
  method FitOsm(env: Env, s: Sources, base: seq<ZoneMatch>) returns (matches: seq<ZoneMatch>)
    requires AllInRange(s, base)
    ensures matches == OsmStage(env, s, base, |s.osm|)
  {
    matches := base;
    for k := 0 to |s.osm|
      invariant matches == OsmStage(env, s, base, k)
    {
      OsmNext(env, s, base, k);
      var t := FindFit(env, s, matches, s.osm[k]);
      if t.Some? {
        matches := matches[t.value := matches[t.value].(osm := Some(k))];
      } else {
        matches := matches + [ZoneMatch(None, None, Some(k), None, 0, "osm_only")];
      }
    }
  }

  lemma {:induction false} FirstFit(env: Env, s: Sources, ms: seq<ZoneMatch>, o: Zone, q: nat)
    requires AllInRange(s, ms) && q < |ms|
    requires OsmTarget(env, s, ms[..q], o) == None && OsmFits(env, s, ms[q], o)
    ensures OsmTarget(env, s, ms, o) == Some(q)
    decreases |ms|
  {
    var n := |ms| - 1;
    if q < n {
      assert ms[..n][..q] == ms[..q];
      FirstFit(env, s, ms[..n], o, q);
    }
  }

  /** The matches when the first `q` have been given their KML zones. */
  function PartlyKml(base: seq<ZoneMatch>, choices: seq<Option<nat>>, q: nat): (r: seq<ZoneMatch>)
    requires |base| == |choices| && q <= |base|
    ensures |r| == |base|
    ensures q == 0 ==> r == base
    ensures q == |base| ==> r == WithKml(base, choices)
  {
    seq(|base|, r requires 0 <= r < |base| => if r < q then base[r].(kml := choices[r]) else base[r])
  }

  lemma PartlyKmlStep(base: seq<ZoneMatch>, choices: seq<Option<nat>>, q: nat)
    requires |base| == |choices| && q < |base| && Anchored(base[q])
    ensures var before, after := PartlyKml(base, choices, q), PartlyKml(base, choices, q + 1);
            after == if choices[q].Some? then before[q := before[q].(kml := choices[q])] else before
  {
  }

  /** The KML zone of one match, the earlier matches having been served. */
  method ChooseKml(env: Env, s: Sources, base: seq<ZoneMatch>, candidates: seq<nat>, used: set<nat>, q: nat)
    returns (best: Option<nat>)
    requires AllInRange(s, base) && AllAnchored(base) && q < |base|
    requires candidates == IndicesOf(Keys(env, s.kml), KeyOf(env, KmlPrimary(s, base[q])), |s.kml|)
    requires used == Taken(AllChoices(KmlProblem(env, s, base))[..q])
    ensures best == AllChoices(KmlProblem(env, s, base))[q]
  {
    ghost var p := KmlProblem(env, s, base);
    var primary := KmlPrimary(s, base[q]);
    assert p.left[q] == KeyOf(env, primary);
    ChoiceAt(p, q);
    GroupScan(p, q, used, |p.right|);
    best := FindBest(env, primary, s.kml, candidates, used, p, q);
  }

  /** KML zones against every match in turn. */
  method FitKmlToMatches(env: Env, s: Sources, base: seq<ZoneMatch>) returns (matches: seq<ZoneMatch>, used: set<nat>)
    requires AllInRange(s, base) && AllAnchored(base)
    ensures matches == WithKml(base, AllChoices(KmlProblem(env, s, base)))
    ensures used == Taken(AllChoices(KmlProblem(env, s, base)))
  {
    var kmlOrder, groups := GroupBy(Keys(env, s.kml));
    ghost var choices := AllChoices(KmlProblem(env, s, base));
    matches, used := base, {};
    for q := 0 to |base|
      invariant matches == PartlyKml(base, choices, q)
      invariant used == Taken(choices[..q])
    {
      var key := KeyOf(env, KmlPrimary(s, base[q]));
      var candidates := if key in groups then groups[key] else [];
      var best := ChooseKml(env, s, base, candidates, used, q);
      TakenSnoc(choices, q);
      PartlyKmlStep(base, choices, q);
      if best.Some? {
        matches := matches[q := matches[q].(kml := best)];
        used := used + {best.value};
      }
    }
    assert choices[..|base|] == choices;
  }

  method FitKml(env: Env, s: Sources, base: seq<ZoneMatch>) returns (matches: seq<ZoneMatch>)
    requires AllInRange(s, base) && AllAnchored(base)
    ensures matches == KmlStage(env, s, base)
  {
    var used;
    matches, used := FitKmlToMatches(env, s, base);
    var rest := Unused(used, |s.kml|);
    matches := matches + seq(|rest|, q requires 0 <= q < |rest| => ZoneMatch(None, None, None, Some(rest[q]), 0, "kml_only"));
  }

  lemma TakenSnoc(choices: seq<Option<nat>>, q: nat)
    requires q < |choices|
    ensures Taken(choices[..q + 1]) == Taken(choices[..q]) + if choices[q].Some? then {choices[q].value} else {}
  {
    forall j ensures j in Taken(choices[..q + 1]) <==> j in Taken(choices[..q]) || choices[q] == Some(j) {
      if j in Taken(choices[..q]) {
        var r :| 0 <= r < q && choices[..q][r] == Some(j);
        assert choices[..q + 1][r] == Some(j);
      }
      if choices[q] == Some(j) {
        assert choices[..q + 1][q] == Some(j);
      }
    }
  }

  method MatchZones(env: Env, s: Sources) returns (matches: seq<ZoneMatch>)
    ensures matches == Matches(env, s)
  {
    var used;
    matches, used := MatchBgToll(env, s);
    ghost var order := Grouped(Keys(env, s.bg));
    var rest := Unused(used, |s.tt|);
    matches := matches + seq(|rest|, q requires 0 <= q < |rest| => ZoneMatch(None, Some(rest[q]), None, None, 0, "none"));
    assert matches == BaseMatches(env, s, order);
    BaseIsSound(env, s, order);
    OsmStageAnchored(env, s, matches, |s.osm|);
    matches := FitOsm(env, s, matches);
    matches := FitKml(env, s, matches);
  }
}
