/**
 Guards and history over a series of runs: when a run is accepted, and when the
 payload it replaces is kept.
 */
module Series {
  import opened Prelude
  import opened Text
  import opened Feeds
  import opened Publish

  // ----- when a run is accepted -----

  /** Enough zones, no required road missing, no collapse, nothing a client could not read. */
  predicate Clean(job: Job, feed: nat, p: Payload, prev: Option<nat>) {
    && p.count >= MIN_PUBLISH_ZONES
    && job.missingRoads(p) == []
    && (prev.Some? ==> p.count as real >= prev.value as real * MIN_PREV_RATIO)
    && job.violations(feed, p) == []
  }

  lemma NoErrorsIff(job: Job, feed: nat, p: Payload, prev: Option<nat>)
    ensures GuardErrors(job, feed, p, prev) == [] <==> Clean(job, feed, p, prev)
  {
    var missing, violations := Defects(feed, job.missingRoads(p)), Defects(feed, job.violations(feed, p));
    assert |missing| == |job.missingRoads(p)| && |violations| == |job.violations(feed, p)|;
    assert |GuardErrors(job, feed, p, prev)|
        == (if p.count < MIN_PUBLISH_ZONES then 1 else 0) + |missing| + (if Collapsed(prev, p.count) then 1 else 0) + |violations|;
  }

  /** A run is accepted exactly when the feeds are well declared and every served feed
      is clean; one missing road on one feed refuses it for all. */
  lemma AcceptedIff(files: Files, job: Job)
    ensures Accepted(files, job) <==>
      Served(job).Some? && forall e :: e in Served(job).value ==>
        e.feed in job.payloads && Clean(job, e.feed, job.payloads[e.feed], PrevCount(files, e.feed))
  {
    ServedProjected(job);
    if Served(job).Some? {
      var entries := Served(job).value;
      FlattenEmptyIff(Findings(files, job, entries));
      forall i | 0 <= i < |entries|
        ensures Findings(files, job, entries)[i] == [] <==>
                Clean(job, entries[i].feed, job.payloads[entries[i].feed], PrevCount(files, entries[i].feed))
      {
        NoErrorsIff(job, entries[i].feed, job.payloads[entries[i].feed], PrevCount(files, entries[i].feed));
      }
    }
  }

  /** What can be held against the payload of one feed. */
  predicate Objection(job: Job, feed: nat, p: Payload, prev: Option<nat>, x: Refusal) {
    match x
    case TooFew(f, count) => f == feed && count == p.count && p.count < MIN_PUBLISH_ZONES
    case Dropped(f, before, count) =>
      f == feed && prev == Some(before) && count == p.count && (p.count as real) < before as real * MIN_PREV_RATIO
    case Defect(f, text) => f == feed && (text in job.missingRoads(p) || text in job.violations(feed, p))
  }

  lemma DefectIff(feed: nat, texts: seq<string>, x: Refusal)
    ensures x in Defects(feed, texts) <==> x.Defect? && x.feed == feed && x.text in texts
  {
    if x.Defect? && x.feed == feed && x.text in texts {
      var i :| 0 <= i < |texts| && texts[i] == x.text;
      assert Defects(feed, texts)[i] == x;
    }
  }

  lemma ObjectionIff(job: Job, feed: nat, p: Payload, prev: Option<nat>, x: Refusal)
    ensures x in GuardErrors(job, feed, p, prev) <==> Objection(job, feed, p, prev, x)
  {
    var few := if p.count < MIN_PUBLISH_ZONES then [TooFew(feed, p.count)] else [];
    var missing, violations := Defects(feed, job.missingRoads(p)), Defects(feed, job.violations(feed, p));
    var dropped := if Collapsed(prev, p.count) then [Dropped(feed, prev.value, p.count)] else [];
    DefectIff(feed, job.missingRoads(p), x);
    DefectIff(feed, job.violations(feed, p), x);
    InEither(few, missing, x);
    InEither(few + missing, dropped, x);
    InEither(few + missing + dropped, violations, x);
  }

  lemma {:induction false} FlattenMember<T>(ss: seq<seq<T>>, x: T)
    ensures x in Flatten(ss) <==> exists i :: 0 <= i < |ss| && x in ss[i]
  {
    if ss != [] {
      FlattenMember(ss[1..], x);
      InEither(ss[0], Flatten(ss[1..]), x);
      assert forall i :: 0 < i < |ss| ==> ss[i] == ss[1..][i - 1];
      assert forall i :: 0 <= i < |ss[1..]| ==> ss[1..][i] == ss[i + 1];
    }
  }

  /** What a run is refused for: every objection to the payload of any served feed. */
  lemma RefusedForIff(files: Files, job: Job, entries: seq<Entry>, x: Refusal)
    requires Projected(job, entries)
    ensures x in AllGuardErrors(files, job, entries) <==>
      exists i :: 0 <= i < |entries|
                  && Objection(job, entries[i].feed, job.payloads[entries[i].feed], PrevCount(files, entries[i].feed), x)
  {
    FlattenMember(Findings(files, job, entries), x);
    forall i | 0 <= i < |entries|
      ensures x in Findings(files, job, entries)[i] <==>
        Objection(job, entries[i].feed, job.payloads[entries[i].feed], PrevCount(files, entries[i].feed), x)
    {
      ObjectionIff(job, entries[i].feed, job.payloads[entries[i].feed], PrevCount(files, entries[i].feed), x);
    }
  }

  // ----- when the replaced payload is kept -----

  ghost predicate Writes(files: Files, job: Job, feed: nat) {
    Accepted(files, job) && exists e :: Serves(job, e) && e.feed == feed
  }

  ghost function LiveAs(e: Entry, p: Payload): (Files, nat) -> bool {
    (files: Files, i: nat) => Live(files, e, p)
  }

  /** What a run wrote of a feed is there until a run writes the feed again. */
  lemma StaysLive(states: seq<Files>, jobs: seq<Job>, k: nat, n: nat, e: Entry)
    requires History(states, jobs) && k < n <= |jobs| && Accepted(states[k], jobs[k]) && Serves(jobs[k], e)
    requires forall i :: k < i < n ==> !Writes(states[i], jobs[i], e.feed)
    ensures e.feed in jobs[k].payloads && Live(states[n], e, jobs[k].payloads[e.feed])
  {
    RunMakesLive(states[k], jobs[k], e);
    var inv := LiveAs(e, jobs[k].payloads[e.feed]);
    forall i: nat | k + 1 <= i < n && inv(states[i], i) ensures inv(states[i + 1], i + 1) {
      RunKeepsFeed(states[i], jobs[i], e.feed);
      SameForLive(states[i + 1], states[i], e, jobs[k].payloads[e.feed]);
    }
    AlongSeries(inv, states, k + 1, n);
  }

  lemma AddedOrNot(files: Files, job: Job, e: Entry, before: Payload, d: Entry)
    requires IsStamp(job.ts) && Accepted(files, job) && Serves(job, e) && e.feed in job.payloads
    requires Older(files, e.feed, job.ts) && d.feed == e.feed && Live(files, d, before) && before.hash != ""
    ensures Look(Run(files, job), SnapshotName(e.feed, job.ts))
         == if job.payloads[e.feed].hash != before.hash then Some(ZonesFile(before)) else None
  {
    var p, name := job.payloads[e.feed], SnapshotName(e.feed, job.ts);
    RunIsWriteFeed(files, job, e);
    SnapshotNameIsSnapshot(e.feed, job.ts);
    assert SameFile(Run(files, job), WriteFeed(files, e, p, job.ts), name);
    if p.hash != before.hash {
      ReplacedIsNewestSnapshot(files, e, p, job.ts);
    } else {
      WrittenSnapshots(files, e, p, job.ts, name);
      LessIrreflexive(name);
    }
  }

  /** Between two runs that write a feed and none in between, the second keeps what the
      first published, under its own time, exactly when the hashes differ; a body that
      differs under the same hash adds nothing. */
  lemma KeptIffHashChanged(states: seq<Files>, jobs: seq<Job>, k: nat, n: nat, e: Entry, e': Entry)
    requires History(states, jobs) && k < n < |jobs| && e.feed == e'.feed && Older(states[0], e.feed, jobs[0].ts)
    requires Accepted(states[k], jobs[k]) && Serves(jobs[k], e) && Accepted(states[n], jobs[n]) && Serves(jobs[n], e')
    requires forall i :: k < i < n ==> !Writes(states[i], jobs[i], e.feed)
    requires e.feed in jobs[k].payloads && e.feed in jobs[n].payloads && jobs[k].payloads[e.feed].hash != ""
    ensures Look(states[n + 1], SnapshotName(e.feed, jobs[n].ts))
         == if jobs[n].payloads[e.feed].hash != jobs[k].payloads[e.feed].hash
            then Some(ZonesFile(jobs[k].payloads[e.feed])) else None
  {
    StaysLive(states, jobs, k, n, e);
    SeriesIsOlder(states, jobs, n, e.feed);
    AddedOrNot(states[n], jobs[n], e', jobs[k].payloads[e.feed], e);
  }
}
