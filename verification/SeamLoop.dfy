/**
 Seam snapping as it runs: endpoint objects grouped by road and direction, each
 group sorted by ID, every ordered pair visited, coordinates written in place.
 */
module SeamLoop {
  import opened Prelude
  import opened Text
  import opened Zones
  import opened Grouping
  import opened Sorting
  import opened Seams

  class ZoneEndpoint {
    var lat: real
    var lng: real
    const km: Option<string>

    constructor (at: Pt, km: Option<string>)
      ensures lat == at.lat && lng == at.lng && this.km == km
    {
      lat, lng, this.km := at.lat, at.lng, km;
    }

    function At(): Pt
      reads this
    {
      Pt(lat, lng)
    }
  }

  class LiveZone {
    const id: string
    const road: string
    const direction: Direction
    const source: string
    const start: ZoneEndpoint
    const end: ZoneEndpoint

    constructor (z: Zone, start: ZoneEndpoint, end: ZoneEndpoint)
      ensures id == z.id && road == z.road && direction == z.direction && source == z.source
      ensures this.start == start && this.end == end
    {
      id, road, direction, source := z.id, z.road, z.direction, z.source;
      this.start, this.end := start, end;
    }
  }

  function SiteOf(env: Env, z: LiveZone): Site {
    Site((env.road(z.road), z.direction), z.start.km, z.end.km, Contains(z.source, "tolltracker"))
  }

  function Sites(env: Env, zones: seq<LiveZone>): (r: seq<Site>)
    ensures |r| == |zones|
  {
    seq(|zones|, i requires 0 <= i < |zones| => SiteOf(env, zones[i]))
  }

  function RunOf(env: Env, snapM: real, zones: seq<LiveZone>): Run {
    Run(env.dist, snapM, Sites(env, zones))
  }

  /** The endpoints' coordinates now. */
  ghost function SeatsNow(zones: seq<LiveZone>): (st: Seats)
    reads set z | z in zones :: z.start, set z | z in zones :: z.end
    ensures |st.starts| == |zones| && |st.ends| == |zones|
  {
    Seats(seq(|zones|, i requires 0 <= i < |zones| reads set z | z in zones :: z.start => zones[i].start.At()),
          seq(|zones|, i requires 0 <= i < |zones| reads set z | z in zones :: z.end => zones[i].end.At()))
  }

  /** Every zone was built with endpoint objects of its own. */
  ghost predicate Separate(zones: seq<LiveZone>) {
    && (forall i, j :: 0 <= i < j < |zones| ==> zones[i].start != zones[j].start && zones[i].end != zones[j].end)
    && forall i, j :: 0 <= i < |zones| && 0 <= j < |zones| ==> zones[i].start != zones[j].end
  }

  /** One visit: at most one of the two endpoints is written. */
  method SnapPair(env: Env, snapM: real, zones: seq<LiveZone>, a: nat, b: nat)
    requires Separate(zones) && a < |zones| && b < |zones|
    modifies zones[a].end, zones[b].start
    ensures SeatsNow(zones) == Step(RunOf(env, snapM, zones), old(SeatsNow(zones)), a, b)
  {
    ghost var before := SeatsNow(zones);
    if a == b {
      return;
    }
    var za, zb := zones[a], zones[b];
    var gap := env.dist(za.end.At(), zb.start.At());
    if gap <= 0.0 {
      return;
    }
    var sameMarker := Truthy(za.end.km) && za.end.km == zb.start.km && gap < JUNCTION_GAP_MAX_M;
    if gap > snapM && !sameMarker {
      return;
    }
    if Contains(zb.source, "tolltracker") && !Contains(za.source, "tolltracker") {
      za.end.lat, za.end.lng := zb.start.lat, zb.start.lng;
      assert SeatsNow(zones).starts == before.starts;
      assert SeatsNow(zones).ends == before.ends[a := before.starts[b]];
    } else {
      zb.start.lat, zb.start.lng := za.end.lat, za.end.lng;
      assert SeatsNow(zones).ends == before.ends;
      assert SeatsNow(zones).starts == before.starts[b := before.ends[a]];
    }
  }

  // ----- groups and pairs -----

  function ById(id: nat -> string): (nat, nat) -> bool {
    (i: nat, j: nat) => Less(id(i), id(j))
  }

  /** Zones with a start, in order. */
  function Located(st: Seats, n: nat): (r: seq<nat>)
    requires n <= |st.starts|
    ensures forall q :: 0 <= q < |r| ==> r[q] < n
  {
    if n == 0 then []
    else if st.starts[n - 1] != ORIGIN then Located(st, n - 1) + [n - 1]
    else Located(st, n - 1)
  }

  lemma {:induction false} LocatedMember(st: Seats, n: nat, i: nat)
    requires n <= |st.starts|
    ensures i in Located(st, n) <==> i < n && st.starts[i] != ORIGIN
  {
    if n > 0 {
      LocatedMember(st, n - 1, i);
    }
  }

  /** Positions among the located zones stand for the zones there. */
  function Pick(located: seq<nat>, group: seq<nat>): seq<nat>
    requires forall g :: 0 <= g < |group| ==> group[g] < |located|
  {
    seq(|group|, g requires 0 <= g < |group| => located[group[g]])
  }

  function LocatedKeys(r: Run, located: seq<nat>): (keys: seq<Key>)
    requires forall q :: 0 <= q < |located| ==> located[q] < |r.sites|
    ensures |keys| == |located|
  {
    seq(|located|, q requires 0 <= q < |located| => r.sites[located[q]].key)
  }

  /** The zones of one group, sorted. */
  function Group(r: Run, id: nat -> string, located: seq<nat>, key: Key): seq<nat>
    requires forall q :: 0 <= q < |located| ==> located[q] < |r.sites|
  {
    Sort(ById(id), Pick(located, IndicesOf(LocatedKeys(r, located), key, |located|)))
  }

  lemma PickMember(located: seq<nat>, places: seq<nat>, i: nat)
    requires forall g :: 0 <= g < |places| ==> places[g] < |located|
    ensures i in Pick(located, places) <==> exists q :: q in places && q < |located| && located[q] == i
  {
    if q :| q in places && q < |located| && located[q] == i {
      var g :| 0 <= g < |places| && places[g] == q;
      assert Pick(located, places)[g] == i;
    }
  }

  lemma GroupMember(r: Run, id: nat -> string, located: seq<nat>, key: Key, i: nat)
    requires forall q :: 0 <= q < |located| ==> located[q] < |r.sites|
    ensures i in Group(r, id, located, key) <==> i in located && r.sites[i].key == key
  {
    var keys := LocatedKeys(r, located);
    var places := IndicesOf(keys, key, |located|);
    SortMember<nat>(ById(id), Pick(located, places), i);
    PickMember(located, places, i);
    if i in located && r.sites[i].key == key {
      var q :| 0 <= q < |located| && located[q] == i;
      IndicesComplete(keys, key, |located|, q);
      assert q in places;
    }
  }

  predicate Indices(group: seq<nat>, n: nat) {
    forall q :: 0 <= q < |group| ==> group[q] < n
  }

  lemma GroupInBounds(r: Run, id: nat -> string, located: seq<nat>, key: Key)
    requires forall q :: 0 <= q < |located| ==> located[q] < |r.sites|
    ensures Indices(Group(r, id, located, key), |r.sites|)
  {
    var group := Group(r, id, located, key);
    forall q | 0 <= q < |group| ensures group[q] < |r.sites| {
      GroupMember(r, id, located, key, group[q]);
    }
  }

  function Row(a: nat, group: seq<nat>): seq<(nat, nat)> {
    seq(|group|, b requires 0 <= b < |group| => (a, group[b]))
  }

  function RowTo(group: seq<nat>): nat -> seq<(nat, nat)> {
    (a: nat) => Row(a, group)
  }

  /** All ordered pairs with the first among `firsts`. */
  function Rows(firsts: seq<nat>, group: seq<nat>): seq<(nat, nat)> {
    FlatMap(RowTo(group), firsts)
  }

  lemma RowMember(a: nat, group: seq<nat>, p: (nat, nat))
    ensures p in Row(a, group) <==> p.0 == a && p.1 in group
  {
    if p.0 == a && p.1 in group {
      var j :| 0 <= j < |group| && group[j] == p.1;
      assert Row(a, group)[j] == p;
    }
  }

  lemma RowsMember(firsts: seq<nat>, group: seq<nat>, a: nat, b: nat)
    ensures (a, b) in Rows(firsts, group) <==> a in firsts && b in group
  {
    FlatMapMember(RowTo(group), firsts, (a, b));
    forall x ensures (a, b) in RowTo(group)(x) <==> x == a && b in group {
      RowMember(x, group, (a, b));
    }
  }

  function GroupVisits(r: Run, id: nat -> string, located: seq<nat>): Key -> seq<(nat, nat)>
    requires forall q :: 0 <= q < |located| ==> located[q] < |r.sites|
  {
    (key: Key) => var group := Group(r, id, located, key); Rows(group, group)
  }

  /** The visits to the groups of `keys`, one after the other. */
  function Visited(r: Run, id: nat -> string, located: seq<nat>, keys: seq<Key>): seq<(nat, nat)>
    requires forall q :: 0 <= q < |located| ==> located[q] < |r.sites|
  {
    FlatMap(GroupVisits(r, id, located), keys)
  }

  lemma GroupRows(r: Run, id: nat -> string, located: seq<nat>, key: Key, a: nat, b: nat)
    requires forall q :: 0 <= q < |located| ==> located[q] < |r.sites|
    ensures (a, b) in GroupVisits(r, id, located)(key)
            <==> a in located && b in located && r.sites[a].key == r.sites[b].key == key
  {
    var group := Group(r, id, located, key);
    RowsMember(group, group, a, b);
    GroupMember(r, id, located, key, a);
    GroupMember(r, id, located, key, b);
  }

  lemma VisitedMember(r: Run, id: nat -> string, located: seq<nat>, keys: seq<Key>, a: nat, b: nat)
    requires forall q :: 0 <= q < |located| ==> located[q] < |r.sites|
    ensures (a, b) in Visited(r, id, located, keys) <==>
            a in located && b in located && r.sites[a].key == r.sites[b].key && r.sites[a].key in keys
  {
    var visits := GroupVisits(r, id, located);
    FlatMapMember(visits, keys, (a, b));
    forall key ensures (a, b) in visits(key) <==> a in located && b in located && r.sites[a].key == r.sites[b].key == key {
      GroupRows(r, id, located, key, a, b);
    }
  }

  /** All visits of a run, in order. */
  function AllVisits(r: Run, id: nat -> string, st: Seats): seq<(nat, nat)>
    requires |st.starts| == |r.sites|
  {
    var located := Located(st, |r.sites|);
    var keys := LocatedKeys(r, located);
    Visited(r, id, located, FirstKeys(keys, |keys|))
  }

  /** The loops visit exactly the ordered pairs of located zones of one group. */
  lemma AllVisitsAreVisits(r: Run, id: nat -> string, st: Seats)
    requires |st.starts| == |r.sites|
    ensures Visits(r, AllVisits(r, id, st), Elems(Located(st, |r.sites|)))
  {
    var located := Located(st, |r.sites|);
    var keys := LocatedKeys(r, located);
    var pairs := AllVisits(r, id, st);
    FirstKeysAre(keys, |keys|);
    forall a: nat, b: nat
      ensures (a, b) in pairs <==>
        a in Elems(located) && b in Elems(located) && a < |r.sites| && b < |r.sites| && r.sites[a].key == r.sites[b].key
    {
      VisitedMember(r, id, located, FirstKeys(keys, |keys|), a, b);
      if a in located {
        var q :| 0 <= q < |located| && located[q] == a;
        assert keys[q] == r.sites[a].key;
      }
      if b in located {
        var q :| 0 <= q < |located| && located[q] == b;
      }
    }
  }

  // ----- each pair is visited once -----

  lemma {:induction false} LocatedDistinct(st: Seats, n: nat)
    requires n <= |st.starts|
    ensures Distinct(Located(st, n))
  {
    if n > 0 {
      LocatedDistinct(st, n - 1);
    }
  }

  lemma GroupDistinct(r: Run, id: nat -> string, located: seq<nat>, key: Key)
    requires forall q :: 0 <= q < |located| ==> located[q] < |r.sites|
    requires Distinct(located)
    ensures Distinct(Group(r, id, located, key))
  {
    var places := IndicesOf(LocatedKeys(r, located), key, |located|);
    var group := Pick(located, places);
    forall g, h | 0 <= g < h < |group| ensures group[g] != group[h] {
      assert places[g] < places[h];
    }
    SortDistinct<nat>(ById(id), group);
  }

  lemma RowsDistinct(firsts: seq<nat>, group: seq<nat>)
    requires Distinct(firsts) && Distinct(group)
    ensures Distinct(Rows(firsts, group))
  {
    var rows := RowTo(group);
    forall x, x', p | p in rows(x) && p in rows(x') ensures x == x' {
      RowMember(x, group, p);
      RowMember(x', group, p);
    }
    FlatMapDistinct(rows, firsts);
  }

  lemma VisitedDistinct(r: Run, id: nat -> string, located: seq<nat>, keys: seq<Key>)
    requires forall q :: 0 <= q < |located| ==> located[q] < |r.sites|
    requires Distinct(located) && Distinct(keys)
    ensures Distinct(Visited(r, id, located, keys))
  {
    var visits := GroupVisits(r, id, located);
    forall key ensures Distinct(visits(key)) {
      GroupDistinct(r, id, located, key);
      RowsDistinct(Group(r, id, located, key), Group(r, id, located, key));
    }
    forall key, key', p | p in visits(key) && p in visits(key') ensures key == key' {
      GroupRows(r, id, located, key, p.0, p.1);
      GroupRows(r, id, located, key', p.0, p.1);
    }
    FlatMapDistinct(visits, keys);
  }

  lemma AllVisitsOnce(r: Run, id: nat -> string, st: Seats)
    requires |st.starts| == |r.sites|
    ensures Distinct(AllVisits(r, id, st))
  {
    var located := Located(st, |r.sites|);
    var keys := LocatedKeys(r, located);
    LocatedDistinct(st, |r.sites|);
    FirstKeysAre(keys, |keys|);
    VisitedDistinct(r, id, located, FirstKeys(keys, |keys|));
  }

  // ----- a second run -----

  /** Running the loops again, over the zones located then, changes nothing. */
  lemma SecondRunIsIdle(r: Run, id: nat -> string, st: Seats)
    requires Fits(r, st) && IsMetric(r.dist) && InBounds(r, AllVisits(r, id, st))
    requires ClearSeams(r, st, Elems(AllVisits(r, id, st)))
    ensures var once := Snap(r, st, AllVisits(r, id, st));
            InBounds(r, AllVisits(r, id, once)) && Snap(r, once, AllVisits(r, id, once)) == once
  {
    var pairs := AllVisits(r, id, st);
    var once := Snap(r, st, pairs);
    var again := AllVisits(r, id, once);
    AllVisitsAreVisits(r, id, once);
    VisitsInBounds(r, again, Elems(Located(once, |r.sites|)));
    forall i | 0 <= i < |again| && again[i].0 != again[i].1
      ensures var gap := r.dist(once.ends[again[i].0], once.starts[again[i].1]); gap == 0.0 || gap > Reach(r)
    {
      VisitedBefore(r, id, st, again[i].0, again[i].1);
      SnappedGaps(r, st, pairs, again[i].0, again[i].1);
    }
    NothingToSnap(r, once, again);
  }

  /** A zone without a start is not visited and gets none, so only pairs of the first
      run are visited again. */
  lemma VisitedBefore(r: Run, id: nat -> string, st: Seats, a: nat, b: nat)
    requires Fits(r, st) && IsMetric(r.dist) && InBounds(r, AllVisits(r, id, st))
    requires ClearSeams(r, st, Elems(AllVisits(r, id, st)))
    requires (a, b) in AllVisits(r, id, Snap(r, st, AllVisits(r, id, st)))
    ensures (a, b) in AllVisits(r, id, st)
  {
    var once := Snap(r, st, AllVisits(r, id, st));
    AllVisitsAreVisits(r, id, st);
    AllVisitsAreVisits(r, id, once);
    LocatedBefore(r, id, st, a);
    LocatedBefore(r, id, st, b);
  }

  lemma LocatedBefore(r: Run, id: nat -> string, st: Seats, a: nat)
    requires Fits(r, st) && IsMetric(r.dist) && InBounds(r, AllVisits(r, id, st))
    requires ClearSeams(r, st, Elems(AllVisits(r, id, st)))
    ensures a in Located(Snap(r, st, AllVisits(r, id, st)), |r.sites|) ==> a in Located(st, |r.sites|)
  {
    var pairs := AllVisits(r, id, st);
    var once := Snap(r, st, pairs);
    LocatedMember(st, |r.sites|, a);
    LocatedMember(once, |r.sites|, a);
    if a < |r.sites| && a !in Located(st, |r.sites|) {
      AllVisitsAreVisits(r, id, st);
      SnapProgress(r, st, pairs);
      assert forall b: nat :: (b, a) !in pairs;
      assert !StartDone(r, st, Elems(pairs), a);
    }
  }

  // ----- the loops -----

  function IdsOf(zones: seq<LiveZone>): (ids: seq<string>)
    ensures |ids| == |zones|
  {
    seq(|zones|, i requires 0 <= i < |zones| => zones[i].id)
  }

  function IdAt(ids: seq<string>): nat -> string {
    (i: nat) => if i < |ids| then ids[i] else ""
  }

  lemma RowSnoc(a: nat, group: seq<nat>, j: nat)
    requires j < |group|
    ensures Row(a, group[..j + 1]) == Row(a, group[..j]) + [(a, group[j])]
  {
  }

  /** `for b in group:` */
  method SnapRow(env: Env, snapM: real, zones: seq<LiveZone>, a: nat, group: seq<nat>)
    requires Separate(zones) && a < |zones| && Indices(group, |zones|)
    modifies set z | z in zones :: z.start, set z | z in zones :: z.end
    ensures InBounds(RunOf(env, snapM, zones), Row(a, group))
    ensures SeatsNow(zones) == Snap(RunOf(env, snapM, zones), old(SeatsNow(zones)), Row(a, group))
  {
    ghost var r := RunOf(env, snapM, zones);
    ghost var st := SeatsNow(zones);
    for j := 0 to |group|
      invariant InBounds(r, Row(a, group[..j]))
      invariant SeatsNow(zones) == Snap(r, st, Row(a, group[..j]))
    {
      SnapPair(env, snapM, zones, a, group[j]);
      SnapSnoc(r, st, Row(a, group[..j]), a, group[j]);
      RowSnoc(a, group, j);
    }
    assert group[..|group|] == group;
  }

  /** `for a in group:` */
  method SnapGroup(env: Env, snapM: real, zones: seq<LiveZone>, group: seq<nat>)
    requires Separate(zones) && Indices(group, |zones|)
    modifies set z | z in zones :: z.start, set z | z in zones :: z.end
    ensures InBounds(RunOf(env, snapM, zones), Rows(group, group))
    ensures SeatsNow(zones) == Snap(RunOf(env, snapM, zones), old(SeatsNow(zones)), Rows(group, group))
  {
    ghost var r := RunOf(env, snapM, zones);
    ghost var st := SeatsNow(zones);
    for i := 0 to |group|
      invariant InBounds(r, Rows(group[..i], group))
      invariant SeatsNow(zones) == Snap(r, st, Rows(group[..i], group))
    {
      SnapRow(env, snapM, zones, group[i], group);
      SnapAppend(r, st, Rows(group[..i], group), Row(group[i], group));
      FlatMapSnoc(RowTo(group), group, i);
    }
    assert group[..|group|] == group;
  }

  method Locate(zones: seq<LiveZone>) returns (located: seq<nat>)
    ensures located == Located(SeatsNow(zones), |zones|)
  {
    ghost var st := SeatsNow(zones);
    located := [];
    for i := 0 to |zones|
      invariant located == Located(st, i)
    {
      if zones[i].start.lat != 0.0 || zones[i].start.lng != 0.0 {
        located := located + [i];
      }
    }
  }

  /** Every key in order, each with its positions. */
  ghost predicate Groups(keys: seq<Key>, order: seq<Key>, groups: map<Key, seq<nat>>) {
    forall i :: 0 <= i < |order| ==> order[i] in groups && groups[order[i]] == IndicesOf(keys, order[i], |keys|)
  }

  method GroupKeys(keys: seq<Key>) returns (order: seq<Key>, groups: map<Key, seq<nat>>)
    ensures order == FirstKeys(keys, |keys|) && Groups(keys, order, groups)
  {
    order, groups := GroupBy(keys);
  }

  /** `visits` lists the visits to every group. */
  ghost predicate ListsVisits(r: Run, id: nat -> string, located: seq<nat>, visits: Key -> seq<(nat, nat)>)
    requires forall q :: 0 <= q < |located| ==> located[q] < |r.sites|
  {
    forall k {:trigger Group(r, id, located, k)} ::
      visits(k) == Rows(Group(r, id, located, k), Group(r, id, located, k))
  }

  /** `for group in groups.values():` */
  method SnapGroups(env: Env, snapM: real, zones: seq<LiveZone>, located: seq<nat>, order: seq<Key>,
                    groups: map<Key, seq<nat>>, ghost visits: Key -> seq<(nat, nat)>)
    requires Separate(zones) && forall q :: 0 <= q < |located| ==> located[q] < |zones|
    requires Groups(LocatedKeys(RunOf(env, snapM, zones), located), order, groups)
    requires ListsVisits(RunOf(env, snapM, zones), IdAt(IdsOf(zones)), located, visits)
    modifies set z | z in zones :: z.start, set z | z in zones :: z.end
    ensures var r := RunOf(env, snapM, zones);
            && InBounds(r, FlatMap(visits, order))
            && SeatsNow(zones) == Snap(r, old(SeatsNow(zones)), FlatMap(visits, order))
  {
    ghost var r := RunOf(env, snapM, zones);
    ghost var st := SeatsNow(zones);
    ghost var done: seq<(nat, nat)> := [];
    for g := 0 to |order|
      invariant done == FlatMap(visits, order[..g]) && InBounds(r, done)
      invariant SeatsNow(zones) == Snap(r, st, done)
    {
      assert order[g] in order;
      var group := Sort(ById(IdAt(IdsOf(zones))), Pick(located, groups[order[g]]));
      assert group == Group(r, IdAt(IdsOf(zones)), located, order[g]);
      GroupInBounds(r, IdAt(IdsOf(zones)), located, order[g]);
      SnapGroup(env, snapM, zones, group);
      FlatMapSnoc(visits, order, g);
      SnapAppend(r, st, done, Rows(group, group));
      done := done + Rows(group, group);
    }
    assert order[..|order|] == order;
  }

  method SnapByKey(env: Env, snapM: real, zones: seq<LiveZone>, located: seq<nat>, keys: seq<Key>,
                   ghost visits: Key -> seq<(nat, nat)>)
    requires Separate(zones) && forall q :: 0 <= q < |located| ==> located[q] < |zones|
    requires keys == LocatedKeys(RunOf(env, snapM, zones), located)
    requires ListsVisits(RunOf(env, snapM, zones), IdAt(IdsOf(zones)), located, visits)
    modifies set z | z in zones :: z.start, set z | z in zones :: z.end
    ensures var r := RunOf(env, snapM, zones);
            var all := FlatMap(visits, FirstKeys(keys, |keys|));
            InBounds(r, all) && SeatsNow(zones) == Snap(r, old(SeatsNow(zones)), all)
  {
    var order, groups := GroupKeys(keys);
    SnapGroups(env, snapM, zones, located, order, groups, visits);
  }

  lemma VisitsFrom(r: Run, id: nat -> string, st: Seats, located: seq<nat>, keys: seq<Key>)
    requires |st.starts| == |r.sites| && located == Located(st, |r.sites|) && keys == LocatedKeys(r, located)
    ensures AllVisits(r, id, st) == FlatMap(GroupVisits(r, id, located), FirstKeys(keys, |keys|))
    ensures ListsVisits(r, id, located, GroupVisits(r, id, located))
  {
  }

  method SnapJunctionSeams(env: Env, snapM: real, zones: seq<LiveZone>)
    requires Separate(zones)
    modifies set z | z in zones :: z.start, set z | z in zones :: z.end
    ensures var r := RunOf(env, snapM, zones);
            var visits := AllVisits(r, IdAt(IdsOf(zones)), old(SeatsNow(zones)));
            InBounds(r, visits) && SeatsNow(zones) == Snap(r, old(SeatsNow(zones)), visits)
  {
    ghost var st, r, id := SeatsNow(zones), RunOf(env, snapM, zones), IdAt(IdsOf(zones));
    var located := Locate(zones);
    var keys := LocatedKeys(RunOf(env, snapM, zones), located);
    VisitsFrom(r, id, st, located, keys);
    SnapByKey(env, snapM, zones, located, keys, GroupVisits(r, id, located));
  }
}
