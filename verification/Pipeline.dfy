/**
 The whole pipeline: match, merge, drop what BG TOLL does not corroborate, number,
 snap seams, align, validate. What one stage establishes is what keeps the guards
 of a later one silent.
 */
module Pipeline {
  import opened Prelude
  import opened Text
  import opened Zones
  import opened Grouping
  import opened Matching
  import opened Merging
  import opened Ids
  import opened Alignment
  import opened Seams
  import SeamLoop
  import opened Validation

  // ----- match and merge -----

  function Take(zones: seq<Zone>, i: Option<nat>): Option<Zone>
    requires i.Some? ==> i.value < |zones|
  {
    if i.Some? then Some(zones[i.value]) else None
  }

  function QuadOf(s: Sources, m: ZoneMatch): Quad
    requires InRange(s, m)
  {
    Quad(Take(s.bg, m.bg), Take(s.tt, m.tt), Take(s.osm, m.osm), Take(s.kml, m.kml))
  }

  predicate Mergeable(s: Sources, m: ZoneMatch) {
    InRange(s, m) && HasZone(m)
  }

  function MergeOne(env: Env, s: Sources, m: ZoneMatch): Zone
    requires Mergeable(s, m)
  {
    Merge(env, QuadOf(s, m))
  }

  lemma MatchesMergeable(env: Env, s: Sources)
    ensures forall q :: 0 <= q < |Matches(env, s)| ==> Mergeable(s, Matches(env, s)[q])
  {
    GroupedKeepsGroups(Keys(env, s.bg));
    MatchesConserve(env, s, Grouped(Keys(env, s.bg)));
  }

  function Merged(env: Env, s: Sources): (zones: seq<Zone>)
    ensures |zones| == |Matches(env, s)|
  {
    MatchesMergeable(env, s);
    var ms := Matches(env, s);
    seq(|ms|, q requires 0 <= q < |ms| && Mergeable(s, ms[q]) => MergeOne(env, s, ms[q]))
  }

  // ----- drop -----

  /** The official ones among the first `n`, by index. */
  function OfficialIndices(zones: seq<Zone>, n: nat): (r: seq<nat>)
    requires n <= |zones|
    ensures forall k :: 0 <= k < |r| ==> r[k] < n && Official(zones[r[k]])
    ensures Distinct(r)
  {
    if n == 0 then []
    else if Official(zones[n - 1]) then OfficialIndices(zones, n - 1) + [n - 1]
    else OfficialIndices(zones, n - 1)
  }

  lemma {:induction false} OfficialComplete(zones: seq<Zone>, n: nat, i: nat)
    requires i < n <= |zones| && Official(zones[i])
    ensures i in OfficialIndices(zones, n)
  {
    if i < n - 1 {
      OfficialComplete(zones, n - 1, i);
    }
  }

  function OfficialOnly(zones: seq<Zone>): (r: seq<Zone>)
    ensures |r| == |OfficialIndices(zones, |zones|)|
  {
    Selected(zones, OfficialIndices(zones, |zones|))
  }

  function Selected(zones: seq<Zone>, indices: seq<nat>): (r: seq<Zone>)
    requires forall k :: 0 <= k < |indices| ==> indices[k] < |zones|
    ensures |r| == |indices|
  {
    seq(|indices|, k requires 0 <= k < |indices| => zones[indices[k]])
  }

  function Corroborated(env: Env, s: Sources): seq<Zone> {
    OfficialOnly(Merged(env, s))
  }

  // ----- snap and align -----

  function SiteOfZone(env: Env, z: Zone): Site {
    Site(KeyOf(env, z), z.start.km, z.end.km, Contains(z.source, "tolltracker"))
  }

  function ZoneRun(env: Env, zones: seq<Zone>): (r: Run)
    ensures |r.sites| == |zones|
  {
    Run(env.dist, JUNCTION_SNAP_M, seq(|zones|, i requires 0 <= i < |zones| => SiteOfZone(env, zones[i])))
  }

  function ZoneSeats(zones: seq<Zone>): (st: Seats)
    ensures |st.starts| == |zones| && |st.ends| == |zones|
  {
    Seats(seq(|zones|, i requires 0 <= i < |zones| => zones[i].start.at),
          seq(|zones|, i requires 0 <= i < |zones| => zones[i].end.at))
  }

  function ZoneIds(zones: seq<Zone>): (ids: seq<string>)
    ensures |ids| == |zones|
  {
    seq(|zones|, i requires 0 <= i < |zones| => zones[i].id)
  }

  function Seated(zones: seq<Zone>, st: Seats): (r: seq<Zone>)
    requires |st.starts| == |zones| && |st.ends| == |zones|
    ensures |r| == |zones|
  {
    seq(|zones|, i requires 0 <= i < |zones| => SeatedZone(zones[i], st.starts[i], st.ends[i]))
  }

  function SeatedZone(z: Zone, start: Pt, end: Pt): Zone {
    z.(start := z.start.(at := start), end := z.end.(at := end))
  }

  function ZoneVisits(env: Env, zones: seq<Zone>): (pairs: seq<(nat, nat)>)
    ensures Visits(ZoneRun(env, zones), pairs, LocatedZones(zones)) && InBounds(ZoneRun(env, zones), pairs)
  {
    var r, st := ZoneRun(env, zones), ZoneSeats(zones);
    SeamLoop.AllVisitsAreVisits(r, SeamLoop.IdAt(ZoneIds(zones)), st);
    VisitsInBounds(r, SeamLoop.AllVisits(r, SeamLoop.IdAt(ZoneIds(zones)), st), LocatedZones(zones));
    SeamLoop.AllVisits(r, SeamLoop.IdAt(ZoneIds(zones)), st)
  }

  function LocatedZones(zones: seq<Zone>): set<nat> {
    Elems(SeamLoop.Located(ZoneSeats(zones), |zones|))
  }

  function SnappedSeats(env: Env, zones: seq<Zone>): (st: Seats)
    ensures |st.starts| == |zones| && |st.ends| == |zones|
  {
    Snap(ZoneRun(env, zones), ZoneSeats(zones), ZoneVisits(env, zones))
  }

  function Snapped(env: Env, zones: seq<Zone>): (r: seq<Zone>)
    ensures |r| == |zones|
  {
    Seated(zones, SnappedSeats(env, zones))
  }

  function Aligned(env: Env, zones: seq<Zone>): (r: seq<Zone>)
    ensures |r| == |zones|
  {
    seq(|zones|, i requires 0 <= i < |zones| => Align(env.dist, zones[i]))
  }

  // ----- all of it -----

  /** What validation is given. */
  function Candidates(env: Env, s: Sources): (r: seq<Zone>)
    ensures |r| == |Slots(env, Corroborated(env, s))|
  {
    Aligned(env, Snapped(env, AssignIds(env, Corroborated(env, s))))
  }

  function Published(env: Env, required: seq<string>, s: Sources): (seq<Zone>, seq<Warning>) {
    Validated(env, required, Candidates(env, s))
  }

  /** The match a candidate comes from. */
  function Feed(env: Env, s: Sources, j: nat): (m: ZoneMatch)
    requires j < |Candidates(env, s)|
    ensures Mergeable(s, m)
  {
    MatchesMergeable(env, s);
    Matches(env, s)[OfficialIndices(Merged(env, s), |Merged(env, s)|)[Origin(env, Corroborated(env, s), j)]]
  }

  // ----- conservation -----

  lemma OfficialMatch(env: Env, s: Sources, m: ZoneMatch)
    requires Mergeable(s, m)
    ensures Official(MergeOne(env, s, m)) <==> m.bg.Some? || m.kml.Some?
  {
    MergedIsOfficial(env, QuadOf(s, m));
  }

  /** The candidate that comes from a given match. */
  lemma CandidateOf(env: Env, s: Sources, q: nat) returns (j: nat)
    requires q < |Matches(env, s)| && (Matches(env, s)[q].bg.Some? || Matches(env, s)[q].kml.Some?)
    ensures j < |Candidates(env, s)|
    ensures OfficialIndices(Merged(env, s), |Merged(env, s)|)[Origin(env, Corroborated(env, s), j)] == q
  {
    MatchesMergeable(env, s);
    var merged := Merged(env, s);
    OfficialMatch(env, s, Matches(env, s)[q]);
    OfficialComplete(merged, |merged|, q);
    var kept := OfficialIndices(merged, |merged|);
    var k :| 0 <= k < |kept| && kept[k] == q;
    j := EveryZoneAssigned(env, Corroborated(env, s), k);
  }

  /** Two candidates never come from one match. */
  lemma FeedsDiffer(env: Env, s: Sources, j: nat, k: nat)
    requires j < k < |Candidates(env, s)|
    ensures var kept := OfficialIndices(Merged(env, s), |Merged(env, s)|);
            kept[Origin(env, Corroborated(env, s), j)] != kept[Origin(env, Corroborated(env, s), k)]
  {
    AssignedOnce(env, Corroborated(env, s), j, k);
  }

  /** Which source a conservation statement is about. */
  datatype Book = BgToll | Kml

  function BookOf(b: Book): ZoneMatch -> Option<nat> {
    match b
    case BgToll => BgOf()
    case Kml => KmlOf()
  }

  function Size(s: Sources, b: Book): nat {
    match b
    case BgToll => |s.bg|
    case Kml => |s.kml|
  }

  lemma BooksKept(env: Env, s: Sources, b: Book)
    ensures Once(Matches(env, s), BookOf(b), Size(s, b))
  {
    GroupedKeepsGroups(Keys(env, s.bg));
    MatchesConserve(env, s, Grouped(Keys(env, s.bg)));
  }

  /** Every BG TOLL and every KML zone feeds a candidate, ... */
  lemma EveryOfficialZoneFeeds(env: Env, s: Sources, b: Book, i: nat) returns (j: nat)
    requires i < Size(s, b)
    ensures j < |Candidates(env, s)| && BookOf(b)(Feed(env, s, j)) == Some(i)
  {
    var ms := Matches(env, s);
    BooksKept(env, s, b);
    assert Has(ms, BookOf(b), i);
    var q :| 0 <= q < |ms| && BookOf(b)(ms[q]) == Some(i);
    j := CandidateOf(env, s, q);
  }

  /** ... no two candidates share one, ... */
  lemma NoZoneFeedsTwo(env: Env, s: Sources, b: Book, j: nat, k: nat)
    requires j < k < |Candidates(env, s)| && BookOf(b)(Feed(env, s, j)).Some?
    ensures BookOf(b)(Feed(env, s, j)) != BookOf(b)(Feed(env, s, k))
  {
    var ms := Matches(env, s);
    BooksKept(env, s, b);
    FeedsDiffer(env, s, j, k);
    var kept := OfficialIndices(Merged(env, s), |Merged(env, s)|);
    var q, r := kept[Origin(env, Corroborated(env, s), j)], kept[Origin(env, Corroborated(env, s), k)];
    OnceEither(ms, BookOf(b), Size(s, b), q, r);
  }

  lemma OnceEither(ms: seq<ZoneMatch>, source: ZoneMatch -> Option<nat>, n: nat, q: nat, r: nat)
    requires Once(ms, source, n) && q < |ms| && r < |ms| && q != r && source(ms[q]).Some?
    ensures source(ms[q]) != source(ms[r])
  {
    var lo, hi := if q < r then q else r, if q < r then r else q;
    assert source(ms[lo]).Some? ==> source(ms[lo]) != source(ms[hi]);
  }

  /** ... and every candidate is fed by one of each at most and by one at least. */
  lemma EveryCandidateIsOfficial(env: Env, s: Sources, j: nat)
    requires j < |Candidates(env, s)|
    ensures Feed(env, s, j).bg.Some? || Feed(env, s, j).kml.Some?
  {
    MatchesMergeable(env, s);
    OfficialMatch(env, s, Feed(env, s, j));
  }

  /** What later stages leave of the merged zone. */
  predicate SameRecord(a: Zone, b: Zone) {
    && a.road == b.road && a.roadLatin == b.roadLatin && a.direction == b.direction
    && a.description == b.description && a.limits == b.limits && a.roadType == b.roadType && a.source == b.source
    && a.start.(at := ORIGIN) == b.start.(at := ORIGIN) && a.end.(at := ORIGIN) == b.end.(at := ORIGIN)
  }

  lemma AssignedZone(env: Env, zones: seq<Zone>, j: nat)
    requires j < |Slots(env, zones)|
    ensures AssignIds(env, zones)[j].(id := "") == zones[Origin(env, zones, j)].(id := "")
  {
    SlotValid(env, zones, j);
  }

  lemma CandidateZone(env: Env, s: Sources, j: nat)
    requires j < |Candidates(env, s)|
    ensures var c, st := Corroborated(env, s), SnappedSeats(env, AssignIds(env, Corroborated(env, s)));
            var z := MergeOne(env, s, Feed(env, s, j)).(id := AssignIds(env, c)[j].id);
            && AssignIds(env, c)[j] == z
            && Candidates(env, s)[j] == Align(env.dist, SeatedZone(z, st.starts[j], st.ends[j]))
  {
    AssignedZone(env, Corroborated(env, s), j);
  }

  /** A candidate is the merge of its match: only the ID, the coordinates of its
      endpoints, its line and its length are later stages' work. */
  lemma CandidateIsItsMerge(env: Env, s: Sources, j: nat)
    requires j < |Candidates(env, s)|
    ensures SameRecord(Candidates(env, s)[j], MergeOne(env, s, Feed(env, s, j)))
  {
    CandidateZone(env, s, j);
  }

  // ----- validation drops nothing -----

  predicate AllValid(zones: seq<Zone>) {
    forall i :: 0 <= i < |zones| ==> Valid(zones[i])
  }

  predicate ValidSources(s: Sources) {
    AllValid(s.bg) && AllValid(s.tt) && AllValid(s.osm) && AllValid(s.kml)
  }

  lemma MergeKeepsDistance(env: Env, q: Quad)
    requires HasSource(q)
    requires (q.bg.Some? ==> Valid(q.bg.value)) && (q.tt.Some? ==> Valid(q.tt.value))
          && (q.osm.Some? ==> Valid(q.osm.value)) && (q.kml.Some? ==> Valid(q.kml.value))
    ensures Merge(env, q).distance > 0
  {
    var o := Oriented(env, q);
    var zs := [o.kml, o.tt, o.bg, o.osm];
    FirstOfIs(zs);
    assert zs[0] == o.kml && zs[1] == o.tt && zs[2] == o.bg && zs[3] == o.osm;
  }

  lemma {:induction false} FirstOfIs(zs: seq<Option<Zone>>)
    ensures FirstOf(zs).Some? ==> FirstOf(zs) in zs
    ensures (exists i :: 0 <= i < |zs| && zs[i].Some?) ==> FirstOf(zs).Some?
  {
    if zs != [] {
      FirstOfIs(zs[1..]);
      assert forall i :: 0 < i < |zs| ==> zs[i] == zs[1..][i - 1];
    }
  }

  lemma AlignKeepsDistance(dist: (Pt, Pt) -> real, z: Zone)
    requires z.distance > 0
    ensures Align(dist, z).distance > 0
  {
  }

  lemma DistancesPositive(env: Env, s: Sources, j: nat)
    requires ValidSources(s) && j < |Candidates(env, s)|
    ensures Candidates(env, s)[j].distance > 0
  {
    CandidateZone(env, s, j);
    MergeKeepsDistance(env, QuadOf(s, Feed(env, s, j)));
    var c := AssignIds(env, Corroborated(env, s));
    var st := SnappedSeats(env, c);
    AlignKeepsDistance(env.dist, SeatedZone(c[j], st.starts[j], st.ends[j]));
  }

  lemma CandidateIds(env: Env, s: Sources)
    ensures AllDistinct(Candidates(env, s)) <==> UniqueIds(AssignIds(env, Corroborated(env, s)))
  {
    var c := AssignIds(env, Corroborated(env, s));
    forall j | 0 <= j < |c| ensures Candidates(env, s)[j].id == c[j].id {
      CandidateId(env, s, j);
    }
    SameIdsSameDistinctness(Candidates(env, s), c);
  }

  lemma SnappedId(env: Env, zones: seq<Zone>, j: nat)
    requires j < |zones|
    ensures Aligned(env, Snapped(env, zones))[j].id == zones[j].id
  {
    assert Snapped(env, zones)[j].id == zones[j].id;
  }

  lemma CandidateId(env: Env, s: Sources, j: nat)
    requires j < |Candidates(env, s)|
    ensures Candidates(env, s)[j].id == AssignIds(env, Corroborated(env, s))[j].id
  {
    SnappedId(env, AssignIds(env, Corroborated(env, s)), j);
  }

  lemma SameIdsSameDistinctness(a: seq<Zone>, b: seq<Zone>)
    requires |a| == |b| && forall j :: 0 <= j < |a| ==> a[j].id == b[j].id
    ensures AllDistinct(a) <==> UniqueIds(b)
  {
  }

  /** Validation drops nothing exactly when no road has clashing section keys. */
  lemma NothingDropped(env: Env, required: seq<string>, s: Sources)
    requires ValidSources(s) && SlugsInjective(env, Corroborated(env, s))
    ensures Published(env, required, s).0 == Candidates(env, s) <==> NoClashes(env, Corroborated(env, s))
  {
    forall j | 0 <= j < |Candidates(env, s)| ensures Candidates(env, s)[j].distance > 0 {
      DistancesPositive(env, s, j);
    }
    NothingDroppedIff(Candidates(env, s));
    CandidateIds(env, s);
    IdsUniqueIff(env, Corroborated(env, s));
  }

  /** End to end: every BG TOLL and every KML zone feeds exactly one published zone. */
  lemma EachOfficialZoneIsPublishedOnce(env: Env, required: seq<string>, s: Sources, b: Book, i: nat) returns (j: nat)
    requires ValidSources(s) && SlugsInjective(env, Corroborated(env, s)) && NoClashes(env, Corroborated(env, s))
    requires i < Size(s, b)
    ensures Published(env, required, s).0 == Candidates(env, s)
    ensures j < |Candidates(env, s)| && BookOf(b)(Feed(env, s, j)) == Some(i)
    ensures forall k :: 0 <= k < |Candidates(env, s)| && k != j ==> BookOf(b)(Feed(env, s, k)) != Some(i)
  {
    NothingDropped(env, required, s);
    j := EveryOfficialZoneFeeds(env, s, b, i);
    forall k | 0 <= k < |Candidates(env, s)| && k != j ensures BookOf(b)(Feed(env, s, k)) != Some(i) {
      FeedsApart(env, s, b, j, k);
    }
  }

  lemma FeedsApart(env: Env, s: Sources, b: Book, j: nat, k: nat)
    requires j < |Candidates(env, s)| && k < |Candidates(env, s)| && j != k && BookOf(b)(Feed(env, s, j)).Some?
    ensures BookOf(b)(Feed(env, s, j)) != BookOf(b)(Feed(env, s, k))
  {
    if j < k {
      NoZoneFeedsTwo(env, s, b, j, k);
    } else if BookOf(b)(Feed(env, s, k)).Some? {
      NoZoneFeedsTwo(env, s, b, k, j);
    }
  }

  // ----- silent guards -----

  lemma DescriptionsAgree(env: Env, q: Quad)
    requires HasSource(q)
    ensures !DescriptionWrong(Merge(env, q))
  {
  }

  lemma LinesRunForward(env: Env, z: Zone)
    requires IsMetric(env.dist)
    ensures !LineReversed(env, Align(env.dist, z))
  {
    if |z.centerline| >= 2 {
      AlignedNeverReversed(env.dist, z);
    }
  }

  /** What keeps the guards of validation silent. */
  ghost predicate Sound(env: Env, s: Sources) {
    IsMetric(env.dist) && ValidSources(s) && SlugsInjective(env, Corroborated(env, s)) && NoClashes(env, Corroborated(env, s))
  }

  lemma CandidateIsGood(env: Env, s: Sources, j: nat)
    requires Sound(env, s) && j < |Candidates(env, s)|
    ensures var z := Candidates(env, s)[j]; z.distance > 0 && !LineReversed(env, z) && !DescriptionWrong(z)
  {
    DistancesPositive(env, s, j);
    CandidateZone(env, s, j);
    DescriptionsAgree(env, QuadOf(s, Feed(env, s, j)));
    var st := SnappedSeats(env, AssignIds(env, Corroborated(env, s)));
    LinesRunForward(env, SeatedZone(AssignIds(env, Corroborated(env, s))[j], st.starts[j], st.ends[j]));
  }

  lemma CoverageHarmless(seen: set<string>, required: seq<string>, w: Warning)
    requires w in Coverage(seen, required)
    ensures w.MissingCoverage?
  {
  }

  lemma JunctionsHarmless(env: Env, valid: seq<Zone>, n: nat, w: Warning)
    requires n <= |valid| && w in Junctions(env, valid, n)
    ensures w.JunctionGap?
  {
    JunctionsWarnIff(env, valid, n, w);
  }

  lemma SilentWhenGood(env: Env, required: seq<string>, zones: seq<Zone>, w: Warning)
    requires AllDistinct(zones) && w in Validated(env, required, zones).1
    requires forall i :: 0 <= i < |zones| ==>
      zones[i].distance > 0 && !LineReversed(env, zones[i]) && !DescriptionWrong(zones[i])
    ensures !Preventable(w)
  {
    var valid := Kept(zones, |zones|);
    if w in ZoneWarnings(env, zones, |zones|) {
      NoPreventableWarnings(env, zones, |zones|, w);
    } else if w in Junctions(env, valid, |valid|) {
      JunctionsHarmless(env, valid, |valid|, w);
    } else {
      CoverageHarmless(RoadsSeen(env, valid), required, w);
    }
  }

  /** No duplicate ID, bad distance, reversed line or mismatched description can be
      reported: numbering, merging and alignment rule them out. */
  lemma GuardsAreSilent(env: Env, required: seq<string>, s: Sources, w: Warning)
    requires Sound(env, s) && w in Published(env, required, s).1
    ensures !Preventable(w)
  {
    var zones := Candidates(env, s);
    forall j | 0 <= j < |zones|
      ensures zones[j].distance > 0 && !LineReversed(env, zones[j]) && !DescriptionWrong(zones[j])
    {
      CandidateIsGood(env, s, j);
    }
    IdsUniqueIff(env, Corroborated(env, s));
    CandidateIds(env, s);
    SilentWhenGood(env, required, zones, w);
  }

  // ----- seams -----

  /** A zone without a start has no end either. */
  predicate Grounded(z: Zone) {
    z.start.at == ORIGIN ==> z.end.at == ORIGIN
  }

  lemma {:induction false} FirstGoodIsGood(zs: seq<Option<Zone>>, good: Zone -> bool)
    ensures FirstGood(zs, good).Some? ==> good(FirstGood(zs, good).value)
  {
    if zs != [] && !(zs[0].Some? && good(zs[0].value)) {
      FirstGoodIsGood(zs[1..], good);
    }
  }

  lemma MergeIsGrounded(env: Env, q: Quad)
    requires HasSource(q)
    ensures Grounded(Merge(env, q))
  {
    var o := Oriented(env, q);
    FirstGoodIsGood([o.tt, o.kml, o.osm, o.bg], Placed());
  }

  lemma AssignedIsGrounded(env: Env, s: Sources, j: nat)
    requires j < |Candidates(env, s)|
    ensures Grounded(AssignIds(env, Corroborated(env, s))[j])
  {
    CandidateZone(env, s, j);
    MergeIsGrounded(env, QuadOf(s, Feed(env, s, j)));
  }

  /** The zones handed to snapping have clear seams; see Seams. */
  ghost predicate SeamsClear(env: Env, zones: seq<Zone>) {
    ClearSeams(ZoneRun(env, zones), ZoneSeats(zones), Elems(ZoneVisits(env, zones)))
  }

  /** Snapping leaves a zone that had no start where it was. */
  lemma UnlocatedStays(env: Env, zones: seq<Zone>, a: nat)
    requires IsMetric(env.dist) && SeamsClear(env, zones) && a < |zones| && a !in LocatedZones(zones)
    ensures SnappedSeats(env, zones).starts[a] == zones[a].start.at
    ensures SnappedSeats(env, zones).ends[a] == zones[a].end.at
  {
    var r, st, pairs := ZoneRun(env, zones), ZoneSeats(zones), ZoneVisits(env, zones);
    SnapProgress(r, st, pairs);
    assert forall b :: (a, b) !in pairs && (b, a) !in pairs;
    assert !EndDone(r, st, Elems(pairs), a) && !StartDone(r, st, Elems(pairs), a);
  }

  lemma LocatedIff(zones: seq<Zone>, i: nat)
    ensures i in LocatedZones(zones) <==> i < |zones| && zones[i].start.at != ORIGIN
  {
    SeamLoop.LocatedMember(ZoneSeats(zones), |zones|, i);
  }

  /** Two zones of a road and direction, both with coordinates after snapping, meet
      exactly or are too far apart to be called a suspicious gap. */
  lemma SnappedGapHarmless(env: Env, zones: seq<Zone>, a: nat, b: nat)
    requires IsMetric(env.dist) && SeamsClear(env, zones)
    requires a < |zones| && b < |zones| && a != b && KeyOf(env, zones[a]) == KeyOf(env, zones[b])
    requires Grounded(zones[a])
    ensures var st := SnappedSeats(env, zones);
            st.ends[a] != ORIGIN && st.starts[b] != ORIGIN ==>
              env.dist(st.ends[a], st.starts[b]) == 0.0 || env.dist(st.ends[a], st.starts[b]) > JUNCTION_GAP_MAX_M
  {
    var r, st, pairs := ZoneRun(env, zones), ZoneSeats(zones), ZoneVisits(env, zones);
    LocatedIff(zones, a);
    LocatedIff(zones, b);
    if a !in LocatedZones(zones) {
      UnlocatedStays(env, zones, a);
    } else if b !in LocatedZones(zones) {
      UnlocatedStays(env, zones, b);
    } else {
      assert (a, b) in pairs;
      SnappedGaps(r, st, pairs, a, b);
    }
  }

  lemma CandidateSeats(env: Env, s: Sources, a: nat)
    requires a < |Candidates(env, s)|
    ensures var zones := AssignIds(env, Corroborated(env, s));
            var st := SnappedSeats(env, zones);
            && Candidates(env, s)[a].end.at == st.ends[a] && Candidates(env, s)[a].start.at == st.starts[a]
            && KeyOf(env, Candidates(env, s)[a]) == KeyOf(env, zones[a])
  {
    CandidateZone(env, s, a);
  }

  lemma NoGapBetween(env: Env, s: Sources, a: nat, b: nat)
    requires IsMetric(env.dist) && SeamsClear(env, AssignIds(env, Corroborated(env, s)))
    requires a < |Candidates(env, s)| && b < |Candidates(env, s)| && a != b
    ensures !GapSuspicious(env, Candidates(env, s)[a], Candidates(env, s)[b])
  {
    var zones := AssignIds(env, Corroborated(env, s));
    CandidateSeats(env, s, a);
    CandidateSeats(env, s, b);
    AssignedIsGrounded(env, s, a);
    if KeyOf(env, zones[a]) == KeyOf(env, zones[b]) {
      SnappedGapHarmless(env, zones, a, b);
    }
  }

  /** With clear seams no junction gap is reported either. */
  lemma NoJunctionWarnings(env: Env, required: seq<string>, s: Sources, w: Warning)
    requires Sound(env, s) && SeamsClear(env, AssignIds(env, Corroborated(env, s)))
    requires w in Published(env, required, s).1
    ensures !w.JunctionGap?
  {
    var zones := Candidates(env, s);
    NothingDropped(env, required, s);
    forall a, b | 0 <= a < |zones| && 0 <= b < |zones| && a != b ensures !GapSuspicious(env, zones[a], zones[b]) {
      NoGapBetween(env, s, a, b);
    }
    NoJunctions(env, zones, |zones|);
    if w in ZoneWarnings(env, zones, |zones|) {
      NoEarlyJunction(env, zones, |zones|, w);
    } else {
      CoverageHarmless(RoadsSeen(env, zones), required, w);
    }
  }

  lemma ZoneWarningKinds(env: Env, z: Zone, seen: bool, w: Warning)
    requires w in WarningsOf(env, z, seen)
    ensures !w.JunctionGap?
  {
    if !seen {
      InEither(EarlyWarnings(env, z), LateWarnings(env, z), w);
      if w in LateWarnings(env, z) {
        LateWarningKinds(env, z, w);
      }
    }
  }

  lemma LateWarningKinds(env: Env, z: Zone, w: Warning)
    requires w in LateWarnings(env, z)
    ensures !w.JunctionGap?
  {
    if w !in AllLimitWarnings(env, z) {
      assert w == ReversedLine(z.id) || w in TownWarnings(env, z) || w == DescriptionMismatch(z.id);
    }
  }

  lemma NoEarlyJunction(env: Env, zones: seq<Zone>, n: nat, w: Warning)
    requires n <= |zones| && w in ZoneWarnings(env, zones, n)
    ensures !w.JunctionGap?
  {
    var i := WarnedZone(env, zones, n, w);
    ZoneWarningKinds(env, zones[i], zones[i].id in IdsSeen(zones, i), w);
  }

  lemma SeatedSeats(zones: seq<Zone>, st: Seats)
    requires |st.starts| == |zones| && |st.ends| == |zones|
    ensures ZoneSeats(Seated(zones, st)) == st
  {
    assert ZoneSeats(Seated(zones, st)).starts == st.starts;
    assert ZoneSeats(Seated(zones, st)).ends == st.ends;
  }

  lemma SeatedIds(zones: seq<Zone>, st: Seats)
    requires |st.starts| == |zones| && |st.ends| == |zones|
    ensures ZoneIds(Seated(zones, st)) == ZoneIds(zones)
  {
    assert ZoneIds(Seated(zones, st)) == ZoneIds(zones);
  }

  lemma SeatedRun(env: Env, zones: seq<Zone>, st: Seats)
    requires |st.starts| == |zones| && |st.ends| == |zones|
    ensures ZoneRun(env, Seated(zones, st)) == ZoneRun(env, zones)
  {
    assert ZoneRun(env, Seated(zones, st)).sites == ZoneRun(env, zones).sites;
  }

  /** Snapping the snapped zones, with the visits that run makes itself, changes
      nothing. */
  lemma SnappedTwice(env: Env, zones: seq<Zone>)
    requires IsMetric(env.dist) && SeamsClear(env, zones)
    ensures Snapped(env, Snapped(env, zones)) == Snapped(env, zones)
  {
    var st := SnappedSeats(env, zones);
    SeatedSeats(zones, st);
    SeatedIds(zones, st);
    SeatedRun(env, zones, st);
    SeamLoop.SecondRunIsIdle(ZoneRun(env, zones), SeamLoop.IdAt(ZoneIds(zones)), ZoneSeats(zones));
    assert SnappedSeats(env, Snapped(env, zones)) == st;
  }

  lemma SeamPointsMeet(env: Env, zones: seq<Zone>, a: nat, b: nat)
    requires IsMetric(env.dist) && SeamsClear(env, zones) && a < |zones| && b < |zones|
    requires zones[a].start.at != ORIGIN && zones[b].start.at != ORIGIN
    requires Seam(ZoneRun(env, zones), ZoneSeats(zones), a, b)
    ensures SnappedSeats(env, zones).ends[a] == SnappedSeats(env, zones).starts[b]
  {
    LocatedIff(zones, a);
    LocatedIff(zones, b);
    assert (a, b) in ZoneVisits(env, zones);
    SeamsCoincide(ZoneRun(env, zones), ZoneSeats(zones), ZoneVisits(env, zones), a, b);
  }

  predicate Framed(z: Zone) {
    |z.centerline| >= 2 ==> z.centerline[0] == z.start.at && z.centerline[|z.centerline| - 1] == z.end.at
  }

  lemma AlignFrames(dist: (Pt, Pt) -> real, z: Zone)
    ensures Framed(Align(dist, z))
  {
    if |z.centerline| >= 2 {
      AlignedEnds(dist, z.centerline, z.start.at, z.end.at);
    }
  }

  lemma CandidateFramed(env: Env, s: Sources, a: nat)
    requires a < |Candidates(env, s)|
    ensures Framed(Candidates(env, s)[a])
  {
    AlignFrames(env.dist, Snapped(env, AssignIds(env, Corroborated(env, s)))[a]);
  }

  /** The lines of two zones join where the zones meet. */
  predicate Joined(za: Zone, zb: Zone) {
    && za.end.at == zb.start.at
    && (|za.centerline| >= 2 && |zb.centerline| >= 2 ==> za.centerline[|za.centerline| - 1] == zb.centerline[0])
  }

  /** The two zones of a seam are published meeting in one point, lines included. */
  lemma PublishedSeamsMeet(env: Env, s: Sources, a: nat, b: nat)
    requires IsMetric(env.dist) && SeamsClear(env, AssignIds(env, Corroborated(env, s)))
    requires a < |Candidates(env, s)| && b < |Candidates(env, s)|
    requires var zones := AssignIds(env, Corroborated(env, s));
             && zones[a].start.at != ORIGIN && zones[b].start.at != ORIGIN
             && Seam(ZoneRun(env, zones), ZoneSeats(zones), a, b)
    ensures Joined(Candidates(env, s)[a], Candidates(env, s)[b])
  {
    SeamPointsMeet(env, AssignIds(env, Corroborated(env, s)), a, b);
    CandidateSeats(env, s, a);
    CandidateSeats(env, s, b);
    CandidateFramed(env, s, a);
    CandidateFramed(env, s, b);
  }
}
