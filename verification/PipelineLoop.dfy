/**
 The pipeline as it runs: lists built stage by stage, endpoint objects created for
 every zone, written in place by seam snapping and read back.
 */
module PipelineLoop {
  import opened Prelude
  import opened Zones
  import opened Matching
  import MatchLoop
  import opened Merging
  import opened Ids
  import IdLoop
  import opened Alignment
  import opened Seams
  import opened SeamLoop
  import opened Validation
  import opened Pipeline

  lemma MergedAt(env: Env, s: Sources, q: nat)
    requires q < |Matches(env, s)|
    ensures Mergeable(s, Matches(env, s)[q]) && Merged(env, s)[q] == MergeOne(env, s, Matches(env, s)[q])
  {
    MatchesMergeable(env, s);
  }

  method MergeMatches(env: Env, s: Sources, matches: seq<ZoneMatch>) returns (merged: seq<Zone>)
    requires matches == Matches(env, s)
    ensures merged == Merged(env, s)
  {
    merged := [];
    ghost var all := Merged(env, s);
    for q := 0 to |matches|
      invariant merged == all[..q]
    {
      MergedAt(env, s, q);
      PrefixSnoc(all, q);
      merged := merged + [MergeOne(env, s, matches[q])];
    }
    assert all[..|matches|] == all;
  }

  method DropUnofficial(zones: seq<Zone>) returns (kept: seq<Zone>, dropped: seq<Zone>)
    ensures kept == OfficialOnly(zones)
    ensures |kept| + |dropped| == |zones| && forall i :: 0 <= i < |dropped| ==> !Official(dropped[i])
  {
    kept, dropped := [], [];
    for n := 0 to |zones|
      invariant kept == Selected(zones, OfficialIndices(zones, n)) && |kept| + |dropped| == n
      invariant forall i :: 0 <= i < |dropped| ==> !Official(dropped[i])
    {
      if Official(zones[n]) {
        kept := kept + [zones[n]];
      } else {
        dropped := dropped + [zones[n]];
      }
    }
  }

  /** Fresh endpoint objects hold the coordinates of the zones. */
  ghost predicate Live(live: seq<LiveZone>, zones: seq<Zone>) {
    |live| == |zones| && forall i :: 0 <= i < |live| ==> LiveAs(live[i], zones[i])
  }

  ghost predicate LiveAs(l: LiveZone, z: Zone) {
    && l.id == z.id && l.road == z.road && l.direction == z.direction && l.source == z.source
    && l.start.km == z.start.km && l.end.km == z.end.km
  }

  method Enliven(zones: seq<Zone>) returns (live: seq<LiveZone>)
    ensures Live(live, zones) && Separate(live) && SeatsNow(live) == ZoneSeats(zones)
    ensures forall l :: l in live ==> fresh(l) && fresh(l.start) && fresh(l.end)
  {
    live := [];
    for i := 0 to |zones|
      invariant |live| == i && forall k :: 0 <= k < i ==> LiveAs(live[k], zones[k])
      invariant Separate(live) && forall l :: l in live ==> fresh(l) && fresh(l.start) && fresh(l.end)
      invariant forall k :: 0 <= k < i ==> live[k].start.At() == zones[k].start.at && live[k].end.At() == zones[k].end.at
    {
      var z := zones[i];
      var start := new ZoneEndpoint(z.start.at, z.start.km);
      var end := new ZoneEndpoint(z.end.at, z.end.km);
      var l := new LiveZone(z, start, end);
      live := live + [l];
    }
    assert SeatsNow(live).starts == ZoneSeats(zones).starts;
    assert SeatsNow(live).ends == ZoneSeats(zones).ends;
  }

  /** The zones with the coordinates their endpoint objects hold now. */
  method ReadBack(zones: seq<Zone>, live: seq<LiveZone>) returns (r: seq<Zone>)
    requires |live| == |zones|
    ensures r == Seated(zones, SeatsNow(live))
  {
    r := [];
    for i := 0 to |zones|
      invariant r == Seated(zones, SeatsNow(live))[..i]
    {
      var l := live[i];
      r := r + [SeatedZone(zones[i], l.start.At(), l.end.At())];
    }
  }

  lemma SameRun(env: Env, live: seq<LiveZone>, zones: seq<Zone>)
    requires Live(live, zones)
    ensures RunOf(env, JUNCTION_SNAP_M, live) == ZoneRun(env, zones) && IdsOf(live) == ZoneIds(zones)
  {
    var r, r' := RunOf(env, JUNCTION_SNAP_M, live), ZoneRun(env, zones);
    forall i | 0 <= i < |zones| ensures r.sites[i] == r'.sites[i] && IdsOf(live)[i] == ZoneIds(zones)[i] {
      assert LiveAs(live[i], zones[i]);
    }
    assert r.sites == r'.sites;
  }

  method SnapZones(env: Env, zones: seq<Zone>) returns (r: seq<Zone>)
    ensures r == Snapped(env, zones)
  {
    var live := Enliven(zones);
    SameRun(env, live, zones);
    SnapJunctionSeams(env, JUNCTION_SNAP_M, live);
    r := ReadBack(zones, live);
  }

  method AlignAll(env: Env, zones: seq<Zone>) returns (r: seq<Zone>)
    ensures r == Aligned(env, zones)
  {
    r := [];
    for i := 0 to |zones|
      invariant r == Aligned(env, zones)[..i]
    {
      var z := AlignCenterline(env.dist, zones[i]);
      r := r + [z];
    }
  }

  /** The pipeline: match, merge, drop, number, snap, align, validate. */
  method MergeAll(env: Env, required: seq<string>, s: Sources) returns (valid: seq<Zone>, warnings: seq<Warning>)
    ensures (valid, warnings) == Published(env, required, s)
  {
    var matches := MatchLoop.MatchZones(env, s);
    var merged := MergeMatches(env, s, matches);
    var kept, unofficial := DropUnofficial(merged);
    var withIds := IdLoop.AssignAll(env, kept);
    var snapped := SnapZones(env, withIds);
    var aligned := AlignAll(env, snapped);
    valid, warnings := Validate(env, required, aligned);
  }
}
