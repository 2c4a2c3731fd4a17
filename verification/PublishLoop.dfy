/**
 The served directory as it is written: files created, replaced and unlinked one by
 one, feed after feed, behind a guard that looks at all feeds first.
 */
module PublishLoop {
  import opened Prelude
  import opened Text
  import opened Feeds
  import opened Publish
  import opened Sorting

  class TargetDir {
    var files: Files

    /** What each file operation so far left behind, for a reader to find. */
    ghost var moments: seq<Files>

    constructor (files: Files)
      ensures this.files == files && moments == []
    {
      this.files, moments := files, [];
    }

    method AtomicWrite(name: string, file: File)
      modifies this
      ensures files == Put(old(files), name, file)
      ensures moments == old(moments) + [old(files)[TempName(name) := file], files]
    {
      var temp := TempName(name);
      files := files[temp := file];
      moments := moments + [files];
      assert name != temp by {
        assert |temp| == |name| + 4;
      }
      files := (files - {temp})[name := files[temp]];
      moments := moments + [files];
      assert files == Put(old(files), name, file);
    }

    /** The names matching the feed's glob, in no particular order. */
    method Glob(feed: nat) returns (names: seq<string>)
      ensures Distinct(names) && forall n :: n in names <==> n in files && IsSnapshot(feed, n)
    {
      names := [];
      var rest := files.Keys;
      while rest != {}
        invariant rest <= files.Keys && Distinct(names)
        invariant forall n :: n in names <==> n in files && n !in rest && IsSnapshot(feed, n)
        decreases |rest|
      {
        var x :| x in rest;
        rest := rest - {x};
        if IsSnapshot(feed, x) {
          names := names + [x];
        }
      }
    }

    method SortedSnapshots(feed: nat) returns (names: seq<string>)
      ensures Lists(names, files, feed)
    {
      var found := Glob(feed);
      names := Sort(NewestFirst(), found);
      SortedDescends(found);
      forall n ensures n in names <==> n in files && IsSnapshot(feed, n) {
        SortMember(NewestFirst(), found, n);
      }
    }

    /** `for old in snapshots[SNAPSHOT_RETENTION:]: old.unlink()` */
    method Rotate(feed: nat)
      modifies this
      ensures files == Rotated(old(files), feed)
      ensures old(moments) <= moments
      ensures forall k :: |old(moments)| <= k < |moments| ==> OnlySnapshots(moments[k], old(files), feed)
    {
      ghost var before := files;
      var names := SortedSnapshots(feed);
      var past := Past(names);
      for k := 0 to |past|
        invariant files == before - Elems(past[..k])
        invariant old(moments) <= moments
        invariant forall m :: |old(moments)| <= m < |moments| ==> OnlySnapshots(moments[m], before, feed)
      {
        Unlink(before, past, k);
        PastAreSnapshots(names, before, feed, k + 1);
        files := files - {past[k]};
        moments := moments + [files];
      }
      UnlinkedAreRotated(names, before, feed);
      assert past[..|past|] == past;
    }

    /** One feed's files. */
    method WriteFeedFiles(e: Entry, p: Payload, ts: string) returns (prevHash: string)
      modifies this
      ensures files == WriteFeed(old(files), e, p, ts) && prevHash == PrevHash(old(files), e.feed)
      ensures old(moments) <= moments
      ensures forall k :: |old(moments)| <= k < |moments| ==> Moment(old(files), e, p, ts)(moments[k])
    {
      var zonesPath, versionPath := ZonesFilename(e.feed), VersionFilename(e.feed);
      prevHash := PrevHash(files, e.feed);
      if zonesPath in files && prevHash != "" && p.hash != prevHash {
        files := files[SnapshotName(e.feed, ts) := files[zonesPath]];
        moments := moments + [files];
      }
      OperationsAreMoments(old(files), e, p, ts, ZonesFile(p), VersionFile(MetaFor(e, p)));
      AtomicWrite(zonesPath, ZonesFile(p));
      assert files == WithZones(old(files), e, p, ts);
      AtomicWrite(versionPath, VersionFile(MetaFor(e, p)));
      assert files == Written(old(files), e, p, ts);
      assert forall k :: |old(moments)| <= k < |moments| ==> Moment(old(files), e, p, ts)(moments[k]);
      ghost var n := |moments|;
      Rotate(e.feed);
      forall k | n <= k < |moments| ensures Moment(old(files), e, p, ts)(moments[k]) {
        SnapshotsGoLast(old(files), e, p, ts, moments[k]);
      }
    }

    method WriteTargetDir(job: Job, entries: seq<Entry>) returns (prevHashes: map<nat, string>)
      requires Projected(job, entries)
      modifies this
      ensures files == WriteAll(old(files), job, entries)
    {
      prevHashes := map[];
      for i := 0 to |entries|
        invariant files == Each(Writer(job), old(files), entries[..i])
      {
        var e := entries[i];
        var prevHash := WriteFeedFiles(e, job.payloads[e.feed], job.ts);
        prevHashes := prevHashes[e.feed := prevHash];
        assert entries[..i + 1][..i] == entries[..i];
      }
      assert entries[..|entries|] == entries;
    }

    method CollectGuardErrors(job: Job, entries: seq<Entry>) returns (errors: seq<Refusal>)
      requires Projected(job, entries)
      ensures errors == AllGuardErrors(files, job, entries)
    {
      errors := [];
      ghost var all := Findings(files, job, entries);
      for i := 0 to |entries|
        invariant errors == Flatten(all[..i])
      {
        var feed := entries[i].feed;
        var found := GuardErrors(job, feed, job.payloads[feed], PrevCount(files, feed));
        FindingsSnoc(files, job, entries, i);
        FlattenSnoc(all[..i], found);
        errors := errors + found;
      }
      assert all[..|entries|] == all;
    }

    /** A run after scraping: refuse, or guard every feed and then write every feed. */
    method PublishRun(job: Job) returns (accepted: bool)
      modifies this
      ensures accepted == Accepted(old(files), job) && files == Run(old(files), job)
    {
      ServedProjected(job);
      var served := Served(job);
      if served.None? {
        return false;
      }
      var errors := CollectGuardErrors(job, served.value);
      if errors != [] {
        return false;
      }
      var _ := WriteTargetDir(job, served.value);
      accepted := true;
    }
  }

  /** snapshots[SNAPSHOT_RETENTION:] */
  function Past(names: seq<string>): seq<string> {
    if |names| <= SNAPSHOT_RETENTION then [] else names[SNAPSHOT_RETENTION..]
  }

  lemma Unlink(files: Files, past: seq<string>, k: nat)
    requires k < |past|
    ensures files - Elems(past[..k + 1]) == (files - Elems(past[..k])) - {past[k]}
  {
    assert past[..k + 1] == past[..k] + [past[k]];
  }

  lemma PastDoesNotStay(names: seq<string>, files: Files, feed: nat, n: string)
    requires Lists(names, files, feed) && n in Past(names)
    ensures n in files && !Stays(files, feed, n)
  {
    var past := Past(names);
    var j :| 0 <= j < |past| && past[j] == n;
    var k := SNAPSHOT_RETENTION + j;
    assert names[k] == n && n in names;
    assert |Newer(files, feed, n)| == k by {
      RankIsPosition(names, files, feed, k);
    }
  }

  lemma GoneIsPast(names: seq<string>, files: Files, feed: nat, n: string)
    requires Lists(names, files, feed) && n in files && !Stays(files, feed, n)
    ensures n in Past(names)
  {
    var k :| 0 <= k < |names| && names[k] == n;
    RankIsPosition(names, files, feed, k);
    assert Past(names)[k - SNAPSHOT_RETENTION] == n;
  }

  lemma PastAreSnapshots(names: seq<string>, files: Files, feed: nat, k: nat)
    requires Lists(names, files, feed) && k <= |Past(names)|
    ensures OnlySnapshots(files - Elems(Past(names)[..k]), files, feed)
  {
    forall n | n in Past(names)[..k] ensures IsSnapshot(feed, n) {
      assert n in names;
    }
  }

  lemma UnlinkedAreRotated(names: seq<string>, files: Files, feed: nat)
    requires Lists(names, files, feed)
    ensures files - Elems(Past(names)) == Rotated(files, feed)
  {
    forall n | n in files ensures n in Past(names) <==> !Stays(files, feed, n) {
      if n in Past(names) {
        PastDoesNotStay(names, files, feed, n);
      } else if !Stays(files, feed, n) {
        GoneIsPast(names, files, feed, n);
      }
    }
  }
}
