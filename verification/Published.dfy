/**
 What is published, in terms of the zones the sources handed over: which zones may
 share a match, whose coordinates a shared camera gets, and what a length measures.
 */
module Published {
  import opened Prelude
  import opened Text
  import opened Zones
  import opened Grouping
  import opened Matching
  import opened Merging
  import opened Ids
  import opened Alignment
  import opened Seams
  import opened Pipeline
  import Evidence
  import SeamLoop

  // ----- whose coordinates a shared camera gets -----

  /** `a` ends at the camera where `b` starts: within 30 m, or numbered alike within 500. */
  predicate SharedCamera(env: Env, a: Zone, b: Zone) {
    && env.road(a.road) == env.road(b.road) && a.direction == b.direction
    && (env.dist(a.end.at, b.start.at) <= 30.0
        || (Truthy(a.end.km) && a.end.km == b.start.km && env.dist(a.end.at, b.start.at) < 500.0))
  }

  lemma SeamIff(env: Env, zones: seq<Zone>, a: nat, b: nat)
    requires a < |zones| && b < |zones|
    ensures Seam(ZoneRun(env, zones), ZoneSeats(zones), a, b) <==> a != b && SharedCamera(env, zones[a], zones[b])
  {
  }

  predicate HasTollTracker(z: Zone) {
    Contains(z.source, "tolltracker")
  }

  /** A shared camera is published in one point: where `a` ends if TollTracker knows `a`,
      where `b` starts if it only knows `b`, and where `a` ends if it knows neither. */
  lemma BetterSideStays(env: Env, zones: seq<Zone>, a: nat, b: nat)
    requires IsMetric(env.dist) && SeamsClear(env, zones) && a < |zones| && b < |zones| && a != b
    requires zones[a].start.at != ORIGIN && zones[b].start.at != ORIGIN && SharedCamera(env, zones[a], zones[b])
    ensures var st := SnappedSeats(env, zones);
            && st.ends[a] == st.starts[b]
            && (HasTollTracker(zones[a]) ==> st.ends[a] == zones[a].end.at)
            && (!HasTollTracker(zones[a]) && HasTollTracker(zones[b]) ==> st.starts[b] == zones[b].start.at)
            && (!HasTollTracker(zones[a]) && !HasTollTracker(zones[b]) ==> st.ends[a] == zones[a].end.at)
  {
    SeamIff(env, zones, a, b);
    LocatedIff(zones, a);
    LocatedIff(zones, b);
    assert (a, b) in ZoneVisits(env, zones);
    SeamsCoincide(ZoneRun(env, zones), ZoneSeats(zones), ZoneVisits(env, zones), a, b);
  }

  lemma ContainsChar(s: string, t: string, c: char)
    requires Contains(s, t) && c in t
    ensures c in s
  {
    var i :| 0 <= i <= |s| && t <= s[i..];
    var k :| 0 <= k < |t| && t[k] == c;
    assert s[i..][k] == c && s[i + k] == c;
  }

  lemma {:induction false} JoinedChar(names: seq<string>, sep: char, c: char)
    requires c != sep && forall n :: n in names ==> c !in n
    ensures c !in Join(names, sep)
  {
    if |names| > 1 {
      assert forall n :: n in names[1..] ==> n in names;
      JoinedChar(names[1..], sep, c);
    } else if |names| == 1 {
      assert names[0] in names;
    }
  }

  lemma {:induction false} JoinedContains(names: seq<string>, sep: char, n: string)
    requires n in names
    ensures Contains(Join(names, sep), n)
  {
    var s := Join(names, sep);
    if names[0] == n {
      assert n <= s[0..];
    } else {
      JoinedContains(names[1..], sep, n);
      var i :| 0 <= i <= |Join(names[1..], sep)| && n <= Join(names[1..], sep)[i..];
      assert s[|names[0]| + 1..] == Join(names[1..], sep);
      assert s[|names[0]| + 1 + i..] == Join(names[1..], sep)[i..];
    }
  }

  /** The source string tells a zone TollTracker knows. */
  lemma SourceTellsTollTracker(q: Quad)
    requires HasSource(q)
    ensures Contains(Join(Names(q), '+'), "tolltracker") <==> q.tt.Some?
  {
    NamesTell(q);
    if q.tt.Some? {
      assert "tolltracker" in Names(q);
      JoinedContains(Names(q), '+', "tolltracker");
    } else {
      forall n | n in Names(q) ensures 'r' !in n {
        assert n in ["bgtoll", "kml", "osm"];
      }
      JoinedChar(Names(q), '+', 'r');
      assert "tolltracker"[5] == 'r';
      if Contains(Join(Names(q), '+'), "tolltracker") {
        ContainsChar(Join(Names(q), '+'), "tolltracker", 'r');
      }
    }
  }

  lemma MergedSource(env: Env, q: Quad)
    requires HasSource(q)
    ensures Contains(Merge(env, q).source, "tolltracker") <==> q.tt.Some?
  {
    SourceTellsTollTracker(Oriented(env, q));
  }

  /** A merged zone TollTracker has coordinates for ends where TollTracker says. */
  lemma MergedAtTollTracker(env: Env, q: Quad)
    requires q.tt.Some? && q.tt.value.start.at.lat != 0.0
    ensures Merge(env, q).start.at == q.tt.value.start.at && Merge(env, q).end.at == q.tt.value.end.at
  {
    var o := Oriented(env, q);
    assert FirstWith(Preferred(Coordinates, o), Coordinates, 0);
    MergedPart(env, q, Coordinates, 0);
  }

  function Numbered(env: Env, s: Sources): seq<Zone> {
    AssignIds(env, Corroborated(env, s))
  }

  lemma CandidateSource(env: Env, s: Sources, j: nat)
    requires j < |Candidates(env, s)|
    ensures HasTollTracker(Numbered(env, s)[j]) <==> Feed(env, s, j).tt.Some?
  {
    CandidateZone(env, s, j);
    MergedSource(env, QuadOf(s, Feed(env, s, j)));
  }

  /** Where TollTracker has surveyed one side of a shared camera, both zones are published
      meeting where it says; where it has surveyed both, where it says `a` ends. */
  lemma SurveyedCameraIsPublished(env: Env, s: Sources, a: nat, b: nat)
    requires IsMetric(env.dist) && SeamsClear(env, Numbered(env, s))
    requires a < |Candidates(env, s)| && b < |Candidates(env, s)| && a != b
    requires var zones := Numbered(env, s);
             zones[a].start.at != ORIGIN && zones[b].start.at != ORIGIN && SharedCamera(env, zones[a], zones[b])
    ensures var at, ma, mb := Candidates(env, s)[a].end.at, Feed(env, s, a), Feed(env, s, b);
            && at == Candidates(env, s)[b].start.at
            && (ma.tt.Some? && s.tt[ma.tt.value].start.at.lat != 0.0 ==> at == s.tt[ma.tt.value].end.at)
            && (ma.tt.None? && mb.tt.Some? && s.tt[mb.tt.value].start.at.lat != 0.0 ==> at == s.tt[mb.tt.value].start.at)
  {
    BetterSideStays(env, Numbered(env, s), a, b);
    CandidateSeats(env, s, a);
    CandidateSeats(env, s, b);
    CandidateSource(env, s, a);
    CandidateSource(env, s, b);
    CandidateZone(env, s, a);
    CandidateZone(env, s, b);
    if Feed(env, s, a).tt.Some? && s.tt[Feed(env, s, a).tt.value].start.at.lat != 0.0 {
      MergedAtTollTracker(env, QuadOf(s, Feed(env, s, a)));
    }
    if Feed(env, s, b).tt.Some? && s.tt[Feed(env, s, b).tt.value].start.at.lat != 0.0 {
      MergedAtTollTracker(env, QuadOf(s, Feed(env, s, b)));
    }
  }

  // ----- which zones feed one published zone -----

  /** The zones a published zone is merged from are of one road and direction, and like
      one another in their settlements, their km ranges or both their endpoints. */
  lemma FedByAlikeZones(env: Env, s: Sources, j: nat)
    requires j < |Candidates(env, s)|
    ensures var m := Feed(env, s, j);
            Evidence.PairBacked(env, s, m) && Evidence.OsmBacked(env, s, m) && Evidence.KmlBacked(env, s, m)
  {
    GroupedKeepsGroups(Keys(env, s.bg));
    var order := Grouped(Keys(env, s.bg));
    var ms := MatchesIn(env, s, order);
    forall q | 0 <= q < |ms|
      ensures Evidence.PairBacked(env, s, ms[q]) && Evidence.OsmBacked(env, s, ms[q]) && Evidence.KmlBacked(env, s, ms[q])
    {
      Evidence.MatchesAreBacked(env, s, order, q);
    }
    assert Feed(env, s, j) in ms;
  }
}
