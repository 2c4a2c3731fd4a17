/**
 Publishing into the served directory: every feed is guarded before any is written;
 a written feed gets its zones and version files and keeps a rotated history of
 replaced payloads.
 */
module Publish {
  import opened Prelude
  import opened Text
  import opened Feeds
  import opened Sorting

  const SNAPSHOT_RETENTION: nat := 26
  const MIN_PUBLISH_ZONES: nat := 50
  const MIN_PREV_RATIO := 0.7

  /** A projected database; the hash leaves out part of the body. */
  datatype Payload = Payload(version: string, hash: string, count: nat, body: int)

  datatype Meta = Meta(version: string, hash: string, feed: nat, count: nat, unsupported: bool)

  datatype File = ZonesFile(payload: Payload) | VersionFile(meta: Meta) | Other(bytes: int)

  type Files = map<string, File>

  /** One run: the declared feeds, the projection of the scraped database for each
      feed that has one, what the guards find wrong with it, and the time. */
  datatype Job = Job(declared: seq<Entry>, payloads: map<nat, Payload>, missingRoads: Payload -> seq<string>,
                     violations: (nat, Payload) -> seq<string>, ts: string)

  function Served(job: Job): Option<seq<Entry>> {
    ServedFeeds(job.declared, job.payloads.Keys)
  }

  // ----- what is being served -----

  /** None where the version file is missing or unreadable. */
  function MetaOf(files: Files, feed: nat): Option<Meta> {
    var name := VersionFilename(feed);
    if name in files && files[name].VersionFile? then Some(files[name].meta) else None
  }

  function PrevHash(files: Files, feed: nat): string {
    if MetaOf(files, feed).Some? then MetaOf(files, feed).value.hash else ""
  }

  function PrevCount(files: Files, feed: nat): Option<nat> {
    if MetaOf(files, feed).Some? then Some(MetaOf(files, feed).value.count) else None
  }

  // ----- guards -----

  datatype Refusal = TooFew(feed: nat, count: nat) | Dropped(feed: nat, prev: nat, count: nat) | Defect(feed: nat, text: string)

  function Defects(feed: nat, texts: seq<string>): seq<Refusal> {
    seq(|texts|, i requires 0 <= i < |texts| => Defect(feed, texts[i]))
  }

  predicate Collapsed(prev: Option<nat>, count: nat) {
    prev.Some? && prev.value > 0 && (count as real) < prev.value as real * MIN_PREV_RATIO
  }

  function GuardErrors(job: Job, feed: nat, p: Payload, prev: Option<nat>): seq<Refusal> {
    (if p.count < MIN_PUBLISH_ZONES then [TooFew(feed, p.count)] else [])
    + Defects(feed, job.missingRoads(p))
    + (if Collapsed(prev, p.count) then [Dropped(feed, prev.value, p.count)] else [])
    + Defects(feed, job.violations(feed, p))
  }

  predicate Projected(job: Job, entries: seq<Entry>) {
    forall i :: 0 <= i < |entries| ==> entries[i].feed in job.payloads
  }

  function Findings(files: Files, job: Job, entries: seq<Entry>): (r: seq<seq<Refusal>>)
    requires Projected(job, entries)
    ensures |r| == |entries|
  {
    seq(|entries|, i requires 0 <= i < |entries| =>
      GuardErrors(job, entries[i].feed, job.payloads[entries[i].feed], PrevCount(files, entries[i].feed)))
  }

  lemma FindingsSnoc(files: Files, job: Job, entries: seq<Entry>, i: nat)
    requires Projected(job, entries) && i < |entries|
    ensures var feed := entries[i].feed;
            Findings(files, job, entries)[..i + 1]
            == Findings(files, job, entries)[..i] + [GuardErrors(job, feed, job.payloads[feed], PrevCount(files, feed))]
  {
  }

  function AllGuardErrors(files: Files, job: Job, entries: seq<Entry>): seq<Refusal>
    requires Projected(job, entries)
  {
    Flatten(Findings(files, job, entries))
  }

  // ----- writing -----

  /** Through a temporary in the same directory, then renamed onto the target. */
  function Put(files: Files, name: string, file: File): Files {
    (files - {TempName(name)})[name := file]
  }

  function Snapshotted(files: Files, feed: nat, p: Payload, ts: string): Files {
    if ZonesFilename(feed) in files && PrevHash(files, feed) != "" && p.hash != PrevHash(files, feed)
    then files[SnapshotName(feed, ts) := files[ZonesFilename(feed)]]
    else files
  }

  function MetaFor(e: Entry, p: Payload): Meta {
    Meta(p.version, p.hash, e.feed, p.count, e.status == Unsupported)
  }

  function Newer(files: Files, feed: nat, name: string): set<string> {
    set n | n in files && IsSnapshot(feed, n) && Less(name, n)
  }

  /** A snapshot stays while fewer than the retained number are newer. */
  predicate Stays(files: Files, feed: nat, name: string) {
    IsSnapshot(feed, name) ==> |Newer(files, feed, name)| < SNAPSHOT_RETENTION
  }

  function Rotated(files: Files, feed: nat): Files {
    map n | n in files && Stays(files, feed, n) :: files[n]
  }

  function WithZones(files: Files, e: Entry, p: Payload, ts: string): Files {
    Put(Snapshotted(files, e.feed, p, ts), ZonesFilename(e.feed), ZonesFile(p))
  }

  function Written(files: Files, e: Entry, p: Payload, ts: string): Files {
    Put(WithZones(files, e, p, ts), VersionFilename(e.feed), VersionFile(MetaFor(e, p)))
  }

  function WriteFeed(files: Files, e: Entry, p: Payload, ts: string): Files {
    Rotated(Written(files, e, p, ts), e.feed)
  }

  /** `for entry in entries:` */
  function Each(write: (Files, Entry) -> Files, files: Files, entries: seq<Entry>): Files {
    if entries == [] then files else write(Each(write, files, entries[..|entries| - 1]), entries[|entries| - 1])
  }

  function Writer(job: Job): (Files, Entry) -> Files {
    (files: Files, e: Entry) =>
      if e.feed in job.payloads then WriteFeed(files, e, job.payloads[e.feed], job.ts) else files
  }

  function WriteAll(files: Files, job: Job, entries: seq<Entry>): Files
    requires Projected(job, entries)
  {
    Each(Writer(job), files, entries)
  }

  lemma ServedProjected(job: Job)
    ensures Served(job).Some? ==> Projected(job, Served(job).value)
  {
    if Served(job).Some? {
      forall i | 0 <= i < |Served(job).value| ensures Served(job).value[i].feed in job.payloads {
        ServedIs(job.declared, job.payloads.Keys, Served(job).value[i]);
      }
    }
  }

  predicate Accepted(files: Files, job: Job) {
    ServedProjected(job);
    Served(job).Some? && AllGuardErrors(files, job, Served(job).value) == []
  }

  /** A whole run. */
  function Run(files: Files, job: Job): Files {
    ServedProjected(job);
    if Accepted(files, job) then WriteAll(files, job, Served(job).value) else files
  }

  // ----- one name at a time -----

  function Look(files: Files, name: string): Option<File> {
    if name in files then Some(files[name]) else None
  }

  predicate SameFile(a: Files, b: Files, name: string) {
    Look(a, name) == Look(b, name)
  }

  ghost predicate SameFor(a: Files, b: Files, feed: nat) {
    forall n :: Owned(feed, n) ==> SameFile(a, b, n)
  }

  // ----- what a concurrent reader finds -----

  /** The same directory, but for what is under one name. */
  ghost predicate OnlyAt(now: Files, base: Files, name: string) {
    forall n :: n != name ==> SameFile(now, base, n)
  }

  /** The same directory, but for snapshots of the feed. */
  ghost predicate OnlySnapshots(now: Files, base: Files, feed: nat) {
    forall n :: !IsSnapshot(feed, n) ==> SameFile(now, base, n)
  }

  /** A state of the directory while a feed is written: the snapshot, then either
      temporary, holds whatever has been written of it so far; then snapshots go. */
  ghost predicate DuringWrite(files: Files, e: Entry, p: Payload, ts: string, now: Files) {
    || OnlyAt(now, files, SnapshotName(e.feed, ts))
    || OnlyAt(now, Snapshotted(files, e.feed, p, ts), TempName(ZonesFilename(e.feed)))
    || OnlyAt(now, WithZones(files, e, p, ts), TempName(VersionFilename(e.feed)))
    || OnlySnapshots(now, Written(files, e, p, ts), e.feed)
  }

  ghost function Moment(files: Files, e: Entry, p: Payload, ts: string): Files -> bool {
    (now: Files) => DuringWrite(files, e, p, ts, now)
  }

  /** What the file operations leave between them are such states. */
  lemma OperationsAreMoments(files: Files, e: Entry, p: Payload, ts: string, zones: File, version: File)
    ensures var found, s, z := Moment(files, e, p, ts), Snapshotted(files, e.feed, p, ts), WithZones(files, e, p, ts);
            && found(s) && found(s[TempName(ZonesFilename(e.feed)) := zones])
            && found(z) && found(z[TempName(VersionFilename(e.feed)) := version])
            && found(Written(files, e, p, ts))
  {
  }

  lemma SnapshotsGoLast(files: Files, e: Entry, p: Payload, ts: string, now: Files)
    requires OnlySnapshots(now, Written(files, e, p, ts), e.feed)
    ensures Moment(files, e, p, ts)(now)
  {
  }

  /** What a client reads of a payload before it fetches it: the payload's own hash,
      version and count, and that its feed is no longer supported. */
  predicate Tells(m: Meta, e: Entry, p: Payload) {
    && m.hash == p.hash && m.version == p.version && m.count == p.count && m.feed == e.feed
    && (m.unsupported <==> e.status == Unsupported)
  }

  predicate Shows(now: Files, feed: nat, zones: Option<File>, version: Option<File>) {
    Look(now, ZonesFilename(feed)) == zones && Look(now, VersionFilename(feed)) == version
  }

  lemma ShowsAlike(now: Files, base: Files, name: string, feed: nat)
    requires OnlyAt(now, base, name) && name != ZonesFilename(feed) && name != VersionFilename(feed)
    ensures Shows(now, feed, Look(base, ZonesFilename(feed)), Look(base, VersionFilename(feed)))
  {
    assert SameFile(now, base, ZonesFilename(feed)) && SameFile(now, base, VersionFilename(feed));
  }

  lemma LiveIsNoSnapshot(feed: nat)
    ensures !IsSnapshot(feed, ZonesFilename(feed)) && !IsSnapshot(feed, VersionFilename(feed))
  {
    if IsSnapshot(feed, ZonesFilename(feed)) {
      SnapshotIsNotLive(feed, feed, ZonesFilename(feed));
    }
    if IsSnapshot(feed, VersionFilename(feed)) {
      SnapshotIsNotLive(feed, feed, VersionFilename(feed));
    }
  }

  /** What the directory shows of a feed after each of its two renames. */
  lemma RenamesShow(files: Files, e: Entry, p: Payload, ts: string)
    requires IsStamp(ts)
    ensures Shows(Snapshotted(files, e.feed, p, ts), e.feed,
                  Look(files, ZonesFilename(e.feed)), Look(files, VersionFilename(e.feed)))
    ensures Shows(WithZones(files, e, p, ts), e.feed, Some(ZonesFile(p)), Look(files, VersionFilename(e.feed)))
    ensures Shows(Written(files, e, p, ts), e.feed, Some(ZonesFile(p)), Some(VersionFile(MetaFor(e, p))))
  {
    LiveNamesDiffer(e.feed, e.feed);
    LiveIsNoSnapshot(e.feed);
    SnapshotNameIsSnapshot(e.feed, ts);
  }

  /** Whoever reads while a feed is written finds each file whole, the old one or the
      new one, and never a new version file beside old zones. */
  lemma ReadersFindWholeFiles(files: Files, e: Entry, p: Payload, ts: string, now: Files)
    requires IsStamp(ts) && Moment(files, e, p, ts)(now)
    ensures var zones, version := Look(files, ZonesFilename(e.feed)), Look(files, VersionFilename(e.feed));
            var zones', version' := Some(ZonesFile(p)), Some(VersionFile(MetaFor(e, p)));
            || Shows(now, e.feed, zones, version)
            || Shows(now, e.feed, zones', version)
            || Shows(now, e.feed, zones', version')
    ensures MetaOf(now, e.feed) == MetaOf(files, e.feed)
            || (MetaOf(now, e.feed).Some? && Tells(MetaOf(now, e.feed).value, e, p))
  {
    LiveNamesDiffer(e.feed, e.feed);
    LiveIsNoSnapshot(e.feed);
    SnapshotNameIsSnapshot(e.feed, ts);
    RenamesShow(files, e, p, ts);
    if OnlyAt(now, files, SnapshotName(e.feed, ts)) {
      ShowsAlike(now, files, SnapshotName(e.feed, ts), e.feed);
    } else if OnlyAt(now, Snapshotted(files, e.feed, p, ts), TempName(ZonesFilename(e.feed))) {
      ShowsAlike(now, Snapshotted(files, e.feed, p, ts), TempName(ZonesFilename(e.feed)), e.feed);
    } else if OnlyAt(now, WithZones(files, e, p, ts), TempName(VersionFilename(e.feed))) {
      ShowsAlike(now, WithZones(files, e, p, ts), TempName(VersionFilename(e.feed)), e.feed);
    } else {
      assert SameFile(now, Written(files, e, p, ts), ZonesFilename(e.feed));
      assert SameFile(now, Written(files, e, p, ts), VersionFilename(e.feed));
    }
  }

  /** Writing a feed leaves every other file alone. */
  lemma WriteFeedFrame(files: Files, e: Entry, p: Payload, ts: string, name: string)
    requires IsStamp(ts) && !Owned(e.feed, name)
    ensures SameFile(WriteFeed(files, e, p, ts), files, name)
  {
    SnapshotNameIsSnapshot(e.feed, ts);
  }

  ghost predicate Keeps(write: (Files, Entry) -> Files, entries: seq<Entry>, name: string) {
    forall files, e :: e in entries ==> Look(write(files, e), name) == Look(files, name)
  }

  lemma {:induction false} EachKeeps(write: (Files, Entry) -> Files, files: Files, entries: seq<Entry>, name: string)
    requires Keeps(write, entries, name)
    ensures Look(Each(write, files, entries), name) == Look(files, name)
  {
    if entries != [] {
      EachKeeps(write, files, entries[..|entries| - 1], name);
    }
  }

  lemma {:induction false} EachWritesLast(write: (Files, Entry) -> Files, files: Files, entries: seq<Entry>, i: nat,
                                          name: string)
    requires i < |entries| && Keeps(write, entries[i + 1..], name)
    ensures Look(Each(write, files, entries), name) == Look(write(Each(write, files, entries[..i]), entries[i]), name)
  {
    var n := |entries| - 1;
    if i < n {
      assert entries[i + 1..] == entries[..n][i + 1..] + [entries[n]];
      EachWritesLast(write, files, entries[..n], i, name);
      assert entries[..n][..i] == entries[..i];
    }
  }

  lemma WriterKeeps(job: Job, entries: seq<Entry>, name: string)
    requires IsStamp(job.ts) && forall e :: e in entries ==> !Owned(e.feed, name)
    ensures Keeps(Writer(job), entries, name)
  {
    forall files, e | e in entries ensures Look(Writer(job)(files, e), name) == Look(files, name) {
      if e.feed in job.payloads {
        WriteFeedFrame(files, e, job.payloads[e.feed], job.ts, name);
      }
    }
  }

  lemma WriteAllFrame(files: Files, job: Job, entries: seq<Entry>, name: string)
    requires IsStamp(job.ts) && Projected(job, entries) && forall e :: e in entries ==> !Owned(e.feed, name)
    ensures SameFile(WriteAll(files, job, entries), files, name)
  {
    WriterKeeps(job, entries, name);
    EachKeeps(Writer(job), files, entries, name);
  }

  /** A file no served feed owns is not touched by any run. */
  lemma RunFrame(files: Files, job: Job, name: string)
    requires IsStamp(job.ts)
    requires forall e :: Served(job).Some? && e in Served(job).value ==> !Owned(e.feed, name)
    ensures SameFile(Run(files, job), files, name)
  {
    ServedProjected(job);
    if Accepted(files, job) {
      WriteAllFrame(files, job, Served(job).value, name);
    }
  }

  /** The file names work on a feed reads decide what it writes. */
  lemma WriteFeedAlike(a: Files, b: Files, e: Entry, p: Payload, ts: string, name: string)
    requires SameFor(a, b, e.feed) && IsStamp(ts) && Owned(e.feed, name)
    ensures SameFile(WriteFeed(a, e, p, ts), WriteFeed(b, e, p, ts), name)
  {
    WrittenAlike(a, b, e, p, ts);
    var a', b' := Written(a, e, p, ts), Written(b, e, p, ts);
    assert SameFile(a', b', name);
    NewerAlike(a', b', e.feed, name);
  }

  lemma WrittenAlike(a: Files, b: Files, e: Entry, p: Payload, ts: string)
    requires SameFor(a, b, e.feed) && IsStamp(ts)
    ensures SameFor(Written(a, e, p, ts), Written(b, e, p, ts), e.feed)
  {
    SnapshotNameIsSnapshot(e.feed, ts);
    assert SameFile(a, b, ZonesFilename(e.feed)) && SameFile(a, b, VersionFilename(e.feed));
    var a', b' := Snapshotted(a, e.feed, p, ts), Snapshotted(b, e.feed, p, ts);
    forall n | Owned(e.feed, n) ensures SameFile(a', b', n) {
      assert SameFile(a, b, n);
    }
    forall n | Owned(e.feed, n) ensures SameFile(Written(a, e, p, ts), Written(b, e, p, ts), n) {
      assert SameFile(a', b', n);
    }
  }

  lemma NewerAlike(a: Files, b: Files, feed: nat, name: string)
    requires SameFor(a, b, feed)
    ensures Newer(a, feed, name) == Newer(b, feed, name)
  {
    forall n ensures n in Newer(a, feed, name) <==> n in Newer(b, feed, name) {
      if IsSnapshot(feed, n) {
        assert SameFile(a, b, n);
      }
    }
  }

  lemma OthersDoNotOwn(entries: seq<Entry>, i: nat, name: string)
    requires i < |entries| && Rising(entries) && Owned(entries[i].feed, name)
    ensures forall e :: e in entries[..i] ==> !Owned(e.feed, name)
    ensures forall e :: e in entries[i + 1..] ==> !Owned(e.feed, name)
  {
    forall e | e in entries[..i] || e in entries[i + 1..] ensures !Owned(e.feed, name) {
      FeedsAreDisjoint(entries[i].feed, e.feed, name);
    }
  }

  lemma BeforeIsSame(files: Files, job: Job, entries: seq<Entry>, i: nat)
    requires IsStamp(job.ts) && Projected(job, entries) && Rising(entries) && i < |entries|
    ensures SameFor(Each(Writer(job), files, entries[..i]), files, entries[i].feed)
  {
    forall m | Owned(entries[i].feed, m) ensures SameFile(Each(Writer(job), files, entries[..i]), files, m) {
      OthersDoNotOwn(entries, i, m);
      WriteAllFrame(files, job, entries[..i], m);
    }
  }

  /** To its own files the writing of all feeds is the writing of the one feed. */
  lemma WriteAllIsWriteFeed(files: Files, job: Job, entries: seq<Entry>, i: nat, name: string)
    requires IsStamp(job.ts) && Projected(job, entries) && Rising(entries) && i < |entries|
    requires Owned(entries[i].feed, name)
    ensures SameFile(WriteAll(files, job, entries), WriteFeed(files, entries[i], job.payloads[entries[i].feed], job.ts), name)
  {
    OthersDoNotOwn(entries, i, name);
    WriterKeeps(job, entries[i + 1..], name);
    EachWritesLast(Writer(job), files, entries, i, name);
    BeforeIsSame(files, job, entries, i);
    WriteFeedAlike(Each(Writer(job), files, entries[..i]), files, entries[i], job.payloads[entries[i].feed], job.ts, name);
  }

  predicate Serves(job: Job, e: Entry) {
    Served(job).Some? && e in Served(job).value
  }

  lemma ServesProjected(job: Job, e: Entry)
    requires Serves(job, e)
    ensures e.feed in job.payloads
  {
    ServedIs(job.declared, job.payloads.Keys, e);
  }

  lemma RunIsWriteFeed(files: Files, job: Job, e: Entry)
    requires IsStamp(job.ts) && Accepted(files, job) && Serves(job, e)
    ensures e.feed in job.payloads
    ensures SameFor(Run(files, job), WriteFeed(files, e, job.payloads[e.feed], job.ts), e.feed)
  {
    ServedProjected(job);
    ServedIs(job.declared, job.payloads.Keys, e);
    var entries := Served(job).value;
    var i :| 0 <= i < |entries| && entries[i] == e;
    forall n | Owned(e.feed, n) ensures SameFile(Run(files, job), WriteFeed(files, e, job.payloads[e.feed], job.ts), n) {
      WriteAllIsWriteFeed(files, job, entries, i, n);
    }
  }

  /** A feed a run does not serve, or a refused run, keeps all its files. */
  lemma RunKeepsFeed(files: Files, job: Job, feed: nat)
    requires IsStamp(job.ts)
    requires !Accepted(files, job) || forall e :: Serves(job, e) ==> e.feed != feed
    ensures SameFor(Run(files, job), files, feed)
  {
    if Accepted(files, job) {
      forall n | Owned(feed, n) ensures SameFile(Run(files, job), files, n) {
        forall e | Serves(job, e) ensures !Owned(e.feed, n) {
          FeedsAreDisjoint(feed, e.feed, n);
        }
        RunFrame(files, job, n);
      }
    }
  }

  // ----- guarding -----

  lemma {:induction false} FlattenEmptyIff<T>(ss: seq<seq<T>>)
    ensures Flatten(ss) == [] <==> forall i :: 0 <= i < |ss| ==> ss[i] == []
  {
    if ss != [] {
      FlattenEmptyIff(ss[1..]);
      assert forall i :: 0 < i < |ss| ==> ss[i] == ss[1..][i - 1];
    }
  }

  lemma GuardsClear(files: Files, job: Job, entries: seq<Entry>, i: nat)
    requires Projected(job, entries) && i < |entries| && AllGuardErrors(files, job, entries) == []
    ensures var feed := entries[i].feed; GuardErrors(job, feed, job.payloads[feed], PrevCount(files, feed)) == []
  {
    FlattenEmptyIff(Findings(files, job, entries));
    assert Findings(files, job, entries)[i] == [];
  }

  /** One feed's guard is enough to leave every file of the directory alone. */
  lemma RefusedRunChangesNothing(files: Files, job: Job, e: Entry)
    requires Serves(job, e) && e.feed in job.payloads
    requires GuardErrors(job, e.feed, job.payloads[e.feed], PrevCount(files, e.feed)) != []
    ensures !Accepted(files, job) && Run(files, job) == files
  {
    ServedProjected(job);
    var entries := Served(job).value;
    var i :| 0 <= i < |entries| && entries[i] == e;
    FlattenEmptyIff(Findings(files, job, entries));
    assert Findings(files, job, entries)[i] != [];
  }

  /** An accepted run never publishes a small or collapsed catalog on any feed. */
  lemma AcceptedCounts(files: Files, job: Job, e: Entry)
    requires Accepted(files, job) && Serves(job, e)
    ensures e.feed in job.payloads
    ensures var count := job.payloads[e.feed].count;
            && count >= MIN_PUBLISH_ZONES
            && (PrevCount(files, e.feed).Some? ==> count as real >= PrevCount(files, e.feed).value as real * MIN_PREV_RATIO)
  {
    ServedProjected(job);
    ServesProjected(job, e);
    var entries := Served(job).value;
    var i :| 0 <= i < |entries| && entries[i] == e;
    GuardsClear(files, job, entries, i);
  }

  // ----- one feed written -----

  /** The zones file holds the payload, and the version file tells of it. */
  predicate Live(files: Files, e: Entry, p: Payload) {
    && Look(files, ZonesFilename(e.feed)) == Some(ZonesFile(p))
    && MetaOf(files, e.feed).Some? && Tells(MetaOf(files, e.feed).value, e, p)
  }

  lemma WriteFeedIsLive(files: Files, e: Entry, p: Payload, ts: string)
    ensures Live(WriteFeed(files, e, p, ts), e, p)
    ensures PrevHash(WriteFeed(files, e, p, ts), e.feed) == p.hash
  {
    LiveNamesDiffer(e.feed, e.feed);
    LiveIsNoSnapshot(e.feed);
  }

  /** Every snapshot of the feed is older than the time given. */
  ghost predicate Older(files: Files, feed: nat, ts: string) {
    forall n :: n in files && IsSnapshot(feed, n) ==> Less(n, SnapshotName(feed, ts))
  }

  predicate Replaces(files: Files, feed: nat, p: Payload) {
    ZonesFilename(feed) in files && PrevHash(files, feed) != "" && p.hash != PrevHash(files, feed)
  }

  /** What snapshots there are before rotation. */
  lemma WrittenSnapshots(files: Files, e: Entry, p: Payload, ts: string, n: string)
    requires IsStamp(ts) && IsSnapshot(e.feed, n)
    ensures n in Written(files, e, p, ts) <==> n in files || (Replaces(files, e.feed, p) && n == SnapshotName(e.feed, ts))
    ensures n in Written(files, e, p, ts) ==>
      Written(files, e, p, ts)[n] == if Replaces(files, e.feed, p) && n == SnapshotName(e.feed, ts)
                                     then files[ZonesFilename(e.feed)] else files[n]
  {
    SnapshotIsNotLive(e.feed, e.feed, n);
  }

  /** When the hash changes, the replaced payload is kept as the newest snapshot. */
  lemma ReplacedIsNewestSnapshot(files: Files, e: Entry, p: Payload, ts: string)
    requires IsStamp(ts) && Older(files, e.feed, ts) && Replaces(files, e.feed, p)
    ensures var after, kept := WriteFeed(files, e, p, ts), SnapshotName(e.feed, ts);
            && kept in after && after[kept] == files[ZonesFilename(e.feed)]
            && forall n :: n in after && IsSnapshot(e.feed, n) && n != kept ==> Less(n, kept)
  {
    var written, kept := Written(files, e, p, ts), SnapshotName(e.feed, ts);
    SnapshotNameIsSnapshot(e.feed, ts);
    WrittenSnapshots(files, e, p, ts, kept);
    forall n | n in written && IsSnapshot(e.feed, n) && n != kept ensures Less(n, kept) {
      WrittenSnapshots(files, e, p, ts, n);
    }
    assert Newer(written, e.feed, kept) == {} by {
      forall n | n in written && IsSnapshot(e.feed, n) ensures !Less(kept, n) {
        LessTotal(kept, n);
      }
    }
  }

  /** An unchanged hash adds nothing to the history, however the body differs. */
  lemma SameHashAddsNothing(files: Files, e: Entry, p: Payload, ts: string)
    requires IsStamp(ts) && !Replaces(files, e.feed, p)
    ensures Snapshots(WriteFeed(files, e, p, ts), e.feed) <= Snapshots(files, e.feed)
  {
    forall n | n in Snapshots(WriteFeed(files, e, p, ts), e.feed) ensures n in files {
      WrittenSnapshots(files, e, p, ts, n);
    }
  }

  /** A run is older than the next one. */
  lemma WriteFeedIsOlder(files: Files, e: Entry, p: Payload, ts: string, next: string)
    requires IsStamp(ts) && IsStamp(next) && Less(ts, next) && Older(files, e.feed, ts)
    ensures Older(WriteFeed(files, e, p, ts), e.feed, next)
  {
    SnapshotsSortByTime(e.feed, ts, next);
    forall n | n in Written(files, e, p, ts) && IsSnapshot(e.feed, n) ensures Less(n, SnapshotName(e.feed, next)) {
      WrittenSnapshots(files, e, p, ts, n);
      if n in files {
        LessTransitive(n, SnapshotName(e.feed, ts), SnapshotName(e.feed, next));
      }
    }
  }

  // ----- rotation -----

  ghost predicate Descending(s: seq<string>) {
    forall i, j :: 0 <= i < j < |s| ==> Less(s[j], s[i])
  }

  function Snapshots(files: Files, feed: nat): set<string> {
    set n | n in files && IsSnapshot(feed, n)
  }

  ghost predicate Lists(s: seq<string>, files: Files, feed: nat) {
    Descending(s) && forall n :: n in s <==> n in files && IsSnapshot(feed, n)
  }

  /** In the sorted list a snapshot has as many newer ones as come before it. */
  lemma RankIsPosition(s: seq<string>, files: Files, feed: nat, k: nat)
    requires Lists(s, files, feed) && k < |s|
    ensures |Newer(files, feed, s[k])| == k
  {
    forall n ensures n in Newer(files, feed, s[k]) <==> n in Elems(s[..k]) {
      if n in s {
        var i :| 0 <= i < |s| && s[i] == n;
        LessTotal(s[i], s[k]);
        if i < k {
          assert s[..k][i] == n;
        }
      }
      if n in s[..k] {
        var i :| 0 <= i < k && s[..k][i] == n;
        assert s[i] == n;
      }
    }
    assert Newer(files, feed, s[k]) == Elems(s[..k]);
    DescendingIsDistinct(s[..k]);
    DistinctSize(s[..k]);
  }

  lemma DescendingIsDistinct(s: seq<string>)
    requires Descending(s)
    ensures Distinct(s)
  {
    forall i, j | 0 <= i < j < |s| ensures s[i] != s[j] {
      LessIrreflexive(s[i]);
    }
  }

  function NewestFirst(): (string, string) -> bool {
    (a: string, b: string) => Less(b, a)
  }

  lemma NewestFirstIsOrder(s: seq<string>)
    ensures WeakOrder(NewestFirst(), s)
  {
    forall x, y | x in s && y in s && NewestFirst()(x, y) ensures !NewestFirst()(y, x) {
      LessTotal(x, y);
    }
    forall x, y, z | x in s && y in s && z in s && NewestFirst()(x, z)
      ensures NewestFirst()(x, y) || NewestFirst()(y, z)
    {
      LessTotal(x, y);
      if Less(x, y) {
        LessTransitive(z, x, y);
      }
    }
  }

  lemma SortedDescends(s: seq<string>)
    requires Distinct(s)
    ensures Descending(Sort(NewestFirst(), s))
  {
    var r := Sort(NewestFirst(), s);
    NewestFirstIsOrder(s);
    SortOrders(NewestFirst(), s);
    SortDistinct(NewestFirst(), s);
    forall i, j | 0 <= i < j < |r| ensures Less(r[j], r[i]) {
      assert !NewestFirst()(r[j], r[i]) && r[i] != r[j];
      LessTotal(r[i], r[j]);
    }
  }

  lemma Listing(names: set<string>) returns (s: seq<string>)
    ensures Distinct(s) && forall n :: n in s <==> n in names
    decreases |names|
  {
    if names == {} {
      s := [];
    } else {
      var x :| x in names;
      var rest := Listing(names - {x});
      s := rest + [x];
    }
  }

  /** The names in descending order. */
  lemma SortedList(names: set<string>) returns (s: seq<string>)
    ensures Descending(s) && forall n :: n in s <==> n in names
  {
    var list := Listing(names);
    s := Sort(NewestFirst(), list);
    SortedDescends(list);
    forall n ensures n in s <==> n in names {
      SortMember(NewestFirst(), list, n);
    }
  }

  lemma RotatedPrefix(s: seq<string>, files: Files, feed: nat, n: string)
    requires Lists(s, files, feed) && IsSnapshot(feed, n)
    ensures n in Rotated(files, feed) <==>
            n in (if |s| <= SNAPSHOT_RETENTION then s else s[..SNAPSHOT_RETENTION])
  {
    var kept := if |s| <= SNAPSHOT_RETENTION then s else s[..SNAPSHOT_RETENTION];
    assert kept == s[..|kept|];
    if n in s {
      var k :| 0 <= k < |s| && s[k] == n;
      RankIsPosition(s, files, feed, k);
      DescendingIsDistinct(s);
      InPrefixIff(s, k, |kept|);
    } else if n in kept {
      PrefixMember(s, |kept|, n);
    }
  }

  lemma InPrefixIff(s: seq<string>, k: nat, m: nat)
    requires Distinct(s) && k < |s| && m <= |s|
    ensures s[k] in s[..m] <==> k < m
  {
    if k < m {
      assert s[..m][k] == s[k];
    }
    if s[k] in s[..m] {
      var i :| 0 <= i < m && s[..m][i] == s[k];
      assert s[i] == s[k];
    }
  }

  /** Rotation keeps no more than the retained number, all of them if there are no
      more, and whatever it drops is older than whatever it keeps. */
  lemma RotationKeepsNewest(files: Files, feed: nat)
    ensures var before, after := Snapshots(files, feed), Snapshots(Rotated(files, feed), feed);
            && after <= before
            && |after| == (if |before| <= SNAPSHOT_RETENTION then |before| else SNAPSHOT_RETENTION)
            && forall m, n :: m in before - after && n in after ==> Less(m, n)
  {
    var before, after := Snapshots(files, feed), Snapshots(Rotated(files, feed), feed);
    var s := SortedList(before);
    var kept := if |s| <= SNAPSHOT_RETENTION then s else s[..SNAPSHOT_RETENTION];
    forall n ensures n in after <==> n in Elems(kept) {
      if IsSnapshot(feed, n) {
        RotatedPrefix(s, files, feed, n);
      } else if n in kept {
        PrefixMember(s, |kept|, n);
      }
    }
    assert after == Elems(kept) && before == Elems(s);
    DescendingIsDistinct(s);
    DescendingIsDistinct(kept);
    DistinctSize(s);
    DistinctSize(kept);
    forall m, n | m in before - after && n in after ensures Less(m, n) {
      BeyondIsOlder(s, |kept|, m, n);
    }
  }

  lemma PrefixMember(s: seq<string>, k: nat, n: string)
    requires k <= |s| && n in s[..k]
    ensures n in s
  {
  }

  lemma BeyondIsOlder(s: seq<string>, k: nat, m: string, n: string)
    requires Descending(s) && k <= |s| && m in s && m !in s[..k] && n in s[..k]
    ensures Less(m, n)
  {
    var i :| 0 <= i < |s| && s[i] == m;
    var j :| 0 <= j < k && s[..k][j] == n;
    DescendingIsDistinct(s);
    InPrefixIff(s, i, k);
    assert s[j] == n;
  }

  // ----- any series of runs -----

  ghost predicate InTimeOrder(jobs: seq<Job>) {
    && (forall i :: 0 <= i < |jobs| ==> IsStamp(jobs[i].ts))
    && forall i, j :: 0 <= i < j < |jobs| ==> Less(jobs[i].ts, jobs[j].ts)
  }

  /** The directory before the first run and after each. */
  ghost predicate History(states: seq<Files>, jobs: seq<Job>) {
    && InTimeOrder(jobs) && |states| == |jobs| + 1
    && forall i :: 0 <= i < |jobs| ==> states[i + 1] == Run(states[i], jobs[i])
  }

  lemma SameForLive(a: Files, b: Files, e: Entry, p: Payload)
    requires SameFor(a, b, e.feed)
    ensures Live(a, e, p) <==> Live(b, e, p)
  {
    assert SameFile(a, b, ZonesFilename(e.feed)) && SameFile(a, b, VersionFilename(e.feed));
  }

  /** The feed has been published, and its hash is that of its zones. */
  ghost function Consistent(feed: nat): Files -> bool {
    (files: Files) => exists e: Entry, p: Payload :: e.feed == feed && Live(files, e, p)
  }

  lemma RunMakesLive(files: Files, job: Job, e: Entry)
    requires IsStamp(job.ts) && Accepted(files, job) && Serves(job, e)
    ensures e.feed in job.payloads && Live(Run(files, job), e, job.payloads[e.feed])
  {
    RunIsWriteFeed(files, job, e);
    WriteFeedIsLive(files, e, job.payloads[e.feed], job.ts);
    SameForLive(Run(files, job), WriteFeed(files, e, job.payloads[e.feed], job.ts), e, job.payloads[e.feed]);
  }

  lemma RunMakesConsistent(files: Files, job: Job, e: Entry)
    requires IsStamp(job.ts) && Accepted(files, job) && Serves(job, e)
    ensures Consistent(e.feed)(Run(files, job))
  {
    RunMakesLive(files, job, e);
  }

  lemma RunKeepsConsistent(files: Files, job: Job, feed: nat)
    requires IsStamp(job.ts) && Consistent(feed)(files)
    ensures Consistent(feed)(Run(files, job))
  {
    if Accepted(files, job) && exists e :: Serves(job, e) && e.feed == feed {
      var e :| Serves(job, e) && e.feed == feed;
      RunMakesLive(files, job, e);
    } else {
      RunKeepsFeed(files, job, feed);
      var e: Entry, p: Payload :| e.feed == feed && Live(files, e, p);
      SameForLive(Run(files, job), files, e, p);
    }
  }

  ghost function ConsistentAt(feed: nat): (Files, nat) -> bool {
    (files: Files, i: nat) => Consistent(feed)(files)
  }

  lemma StaysConsistent(states: seq<Files>, jobs: seq<Job>, k: nat, n: nat, feed: nat)
    requires History(states, jobs) && k <= n <= |jobs| && Consistent(feed)(states[k])
    ensures Consistent(feed)(states[n])
  {
    var inv := ConsistentAt(feed);
    forall i: nat | k <= i < n && inv(states[i], i) ensures inv(states[i + 1], i + 1) {
      RunKeepsConsistent(states[i], jobs[i], feed);
    }
    AlongSeries(inv, states, k, n);
  }

  /** Once an accepted run has served a feed, its version file carries the hash of
      its zones file after every later run, refused or not. */
  lemma ServedFeedStaysConsistent(states: seq<Files>, jobs: seq<Job>, k: nat, n: nat, e: Entry)
    requires History(states, jobs) && k < n <= |jobs|
    requires Accepted(states[k], jobs[k]) && Serves(jobs[k], e)
    ensures Consistent(e.feed)(states[n])
  {
    RunMakesConsistent(states[k], jobs[k], e);
    StaysConsistent(states, jobs, k + 1, n, e.feed);
  }

  lemma RunIsOlder(files: Files, job: Job, feed: nat, next: string)
    requires IsStamp(job.ts) && IsStamp(next) && Less(job.ts, next) && Older(files, feed, job.ts)
    ensures Older(Run(files, job), feed, next)
  {
    if Accepted(files, job) && exists e :: Serves(job, e) && e.feed == feed {
      var e :| Serves(job, e) && e.feed == feed;
      RunIsWriteFeed(files, job, e);
      var p := job.payloads[e.feed];
      WriteFeedIsOlder(files, e, p, job.ts, next);
      SameForOlder(Run(files, job), WriteFeed(files, e, p, job.ts), feed, next);
    } else {
      RunKeepsFeed(files, job, feed);
      SnapshotsSortByTime(feed, job.ts, next);
      forall n | n in files && IsSnapshot(feed, n) ensures Less(n, SnapshotName(feed, next)) {
        LessTransitive(n, SnapshotName(feed, job.ts), SnapshotName(feed, next));
      }
      SameForOlder(Run(files, job), files, feed, next);
    }
  }

  lemma SameForOlder(a: Files, b: Files, feed: nat, ts: string)
    requires SameFor(a, b, feed) && Older(b, feed, ts)
    ensures Older(a, feed, ts)
  {
    forall n | n in a && IsSnapshot(feed, n) ensures Less(n, SnapshotName(feed, ts)) {
      assert SameFile(a, b, n);
    }
  }

  ghost function OlderThan(feed: nat, ts: string): Files -> bool {
    (files: Files) => Older(files, feed, ts)
  }

  ghost function OlderAt(feed: nat, jobs: seq<Job>): (Files, nat) -> bool {
    (files: Files, i: nat) => i < |jobs| && OlderThan(feed, jobs[i].ts)(files)
  }

  lemma NextIsOlder(states: seq<Files>, jobs: seq<Job>, i: nat, feed: nat)
    requires History(states, jobs) && i + 1 < |jobs| && OlderThan(feed, jobs[i].ts)(states[i])
    ensures OlderThan(feed, jobs[i + 1].ts)(states[i + 1])
  {
    RunIsOlder(states[i], jobs[i], feed, jobs[i + 1].ts);
  }

  lemma SeriesIsOlder(states: seq<Files>, jobs: seq<Job>, k: nat, feed: nat)
    requires History(states, jobs) && k < |jobs| && OlderThan(feed, jobs[0].ts)(states[0])
    ensures OlderThan(feed, jobs[k].ts)(states[k])
  {
    var inv := OlderAt(feed, jobs);
    assert inv(states[0], 0);
    forall i: nat | i < k && inv(states[i], i) ensures inv(states[i + 1], i + 1) {
      NextIsOlder(states, jobs, i, feed);
    }
    AlongSeries(inv, states, 0, k);
  }

  /** In every accepted run of a series that changes a served feed's hash, the payload
      replaced becomes that feed's newest snapshot. */
  lemma ReplacedPayloadIsKept(states: seq<Files>, jobs: seq<Job>, k: nat, e: Entry)
    requires History(states, jobs) && k < |jobs| && Older(states[0], e.feed, jobs[0].ts)
    requires Accepted(states[k], jobs[k]) && Serves(jobs[k], e) && e.feed in jobs[k].payloads
    requires Replaces(states[k], e.feed, jobs[k].payloads[e.feed])
    ensures var kept := SnapshotName(e.feed, jobs[k].ts);
            && kept in states[k + 1] && states[k + 1][kept] == states[k][ZonesFilename(e.feed)]
            && forall n :: n in states[k + 1] && IsSnapshot(e.feed, n) && n != kept ==> Less(n, kept)
  {
    var p, ts := jobs[k].payloads[e.feed], jobs[k].ts;
    SeriesIsOlder(states, jobs, k, e.feed);
    RunIsWriteFeed(states[k], jobs[k], e);
    ReplacedIsNewestSnapshot(states[k], e, p, ts);
    SnapshotNameIsSnapshot(e.feed, ts);
    var after, alike := states[k + 1], WriteFeed(states[k], e, p, ts);
    assert SameFile(after, alike, SnapshotName(e.feed, ts));
    forall n | n in after && IsSnapshot(e.feed, n) ensures n in alike {
      assert SameFile(after, alike, n);
    }
  }

  lemma SnapshotsAlike(a: Files, b: Files, feed: nat)
    requires SameFor(a, b, feed)
    ensures Snapshots(a, feed) == Snapshots(b, feed)
  {
    forall n ensures n in Snapshots(a, feed) <==> n in Snapshots(b, feed) {
      if IsSnapshot(feed, n) {
        assert SameFile(a, b, n);
      }
    }
  }

  /** After any accepted run a served feed keeps no more than the retained number of
      snapshots. */
  lemma FewSnapshotsRemain(files: Files, job: Job, e: Entry)
    requires IsStamp(job.ts) && Accepted(files, job) && Serves(job, e)
    ensures |Snapshots(Run(files, job), e.feed)| <= SNAPSHOT_RETENTION
  {
    RunIsWriteFeed(files, job, e);
    var p := job.payloads[e.feed];
    RotationKeepsNewest(Written(files, e, p, job.ts), e.feed);
    SnapshotsAlike(Run(files, job), WriteFeed(files, e, p, job.ts), e.feed);
  }

  // ----- how long a replaced payload is kept -----

  /** The run writes the feed and replaces what it serves. */
  ghost predicate RunReplaces(files: Files, job: Job, feed: nat) {
    && Accepted(files, job) && feed in job.payloads && Replaces(files, feed, job.payloads[feed])
    && exists e :: Serves(job, e) && e.feed == feed
  }

  ghost function ReplacedIn(states: seq<Files>, jobs: seq<Job>, feed: nat): nat -> bool {
    (i: nat) => i < |jobs| && i < |states| && RunReplaces(states[i], jobs[i], feed)
  }

  /** The snapshot is there, with these bytes, and has so many newer ones. */
  ghost predicate Ranks(files: Files, feed: nat, name: string, file: File, newer: nat) {
    Look(files, name) == Some(file) && |Newer(files, feed, name)| == newer
  }

  /** Kept at its rank as long as that is within the retained number, gone after. */
  ghost predicate KeptOrGone(files: Files, feed: nat, name: string, file: File, newer: nat) {
    if newer < SNAPSHOT_RETENTION then Ranks(files, feed, name, file, newer) else name !in files
  }

  lemma KeptAlike(a: Files, b: Files, feed: nat, name: string, file: File, newer: nat)
    requires SameFor(a, b, feed) && IsSnapshot(feed, name)
    ensures KeptOrGone(a, feed, name, file, newer) <==> KeptOrGone(b, feed, name, file, newer)
  {
    NewerAlike(a, b, feed, name);
    assert SameFile(a, b, name);
  }

  /** What stays through a rotation takes everything newer with it. */
  lemma RotationKeepsRank(files: Files, feed: nat, name: string)
    requires IsSnapshot(feed, name) && name in files && |Newer(files, feed, name)| < SNAPSHOT_RETENTION
    ensures name in Rotated(files, feed) && Newer(Rotated(files, feed), feed, name) == Newer(files, feed, name)
  {
    forall n | n in Newer(files, feed, name) ensures Stays(files, feed, n) {
      NewerOfNewer(files, feed, name, n);
      SubsetSize(Newer(files, feed, n), Newer(files, feed, name));
    }
  }

  lemma NewerOfNewer(files: Files, feed: nat, name: string, n: string)
    requires Less(name, n)
    ensures Newer(files, feed, n) <= Newer(files, feed, name)
  {
    forall m | m in Newer(files, feed, n) ensures Less(name, m) {
      LessTransitive(name, n, m);
    }
  }

  lemma RotationKeepsOrGone(files: Files, feed: nat, name: string, file: File, newer: nat)
    requires IsSnapshot(feed, name)
    requires if name in files then Ranks(files, feed, name, file, newer) else newer >= SNAPSHOT_RETENTION
    ensures KeptOrGone(Rotated(files, feed), feed, name, file, newer)
  {
    if name in files && newer < SNAPSHOT_RETENTION {
      RotationKeepsRank(files, feed, name);
    }
  }

  /** Before rotation, a replacing write adds one newer snapshot, another write none. */
  lemma WrittenRanks(files: Files, e: Entry, p: Payload, ts: string, name: string, file: File, newer: nat)
    requires IsStamp(ts) && IsSnapshot(e.feed, name) && Less(name, SnapshotName(e.feed, ts)) && Older(files, e.feed, ts)
    requires KeptOrGone(files, e.feed, name, file, newer)
    ensures var newer' := newer + if Replaces(files, e.feed, p) then 1 else 0;
            var written := Written(files, e, p, ts);
            if name in written then Ranks(written, e.feed, name, file, newer') else newer' >= SNAPSHOT_RETENTION
  {
    var added := SnapshotName(e.feed, ts);
    LessIrreflexive(added);
    SnapshotNameIsSnapshot(e.feed, ts);
    WrittenSnapshots(files, e, p, ts, name);
    assert name in Written(files, e, p, ts) <==> name in files;
    if name in files {
      NewerWritten(files, e, p, ts, name);
      assert added !in Newer(files, e.feed, name);
    }
  }

  lemma NewerWritten(files: Files, e: Entry, p: Payload, ts: string, name: string)
    requires IsStamp(ts) && Less(name, SnapshotName(e.feed, ts))
    ensures Newer(Written(files, e, p, ts), e.feed, name)
         == Newer(files, e.feed, name) + if Replaces(files, e.feed, p) then {SnapshotName(e.feed, ts)} else {}
  {
    SnapshotNameIsSnapshot(e.feed, ts);
    var added := if Replaces(files, e.feed, p) then {SnapshotName(e.feed, ts)} else {};
    forall n ensures n in Newer(Written(files, e, p, ts), e.feed, name) <==> n in Newer(files, e.feed, name) + added {
      if IsSnapshot(e.feed, n) {
        WrittenSnapshots(files, e, p, ts, n);
      }
    }
  }

  lemma RunKeepsOrDrops(files: Files, job: Job, feed: nat, name: string, file: File, newer: nat)
    requires IsStamp(job.ts) && IsSnapshot(feed, name) && Less(name, SnapshotName(feed, job.ts)) && Older(files, feed, job.ts)
    requires KeptOrGone(files, feed, name, file, newer)
    ensures KeptOrGone(Run(files, job), feed, name, file, newer + if RunReplaces(files, job, feed) then 1 else 0)
  {
    if Accepted(files, job) && exists e :: Serves(job, e) && e.feed == feed {
      var e :| Serves(job, e) && e.feed == feed;
      RunIsWriteFeed(files, job, e);
      var p := job.payloads[feed];
      var newer' := newer + if Replaces(files, feed, p) then 1 else 0;
      WrittenRanks(files, e, p, job.ts, name, file, newer);
      RotationKeepsOrGone(Written(files, e, p, job.ts), feed, name, file, newer');
      KeptAlike(Run(files, job), WriteFeed(files, e, p, job.ts), feed, name, file, newer');
    } else {
      RunKeepsFeed(files, job, feed);
      KeptAlike(Run(files, job), files, feed, name, file, newer);
    }
  }

  ghost function Kept(feed: nat, name: string, file: File): (Files, nat) -> bool {
    (files: Files, newer: nat) => KeptOrGone(files, feed, name, file, newer)
  }

  lemma SnapshotLessLater(jobs: seq<Job>, feed: nat, k: nat, i: nat)
    requires InTimeOrder(jobs) && k < i < |jobs|
    ensures Less(SnapshotName(feed, jobs[k].ts), SnapshotName(feed, jobs[i].ts))
  {
    SnapshotsSortByTime(feed, jobs[k].ts, jobs[i].ts);
  }

  lemma KeptNext(states: seq<Files>, jobs: seq<Job>, feed: nat, k: nat, i: nat, file: File, newer: nat)
    requires History(states, jobs) && k < i < |jobs| && Older(states[0], feed, jobs[0].ts)
    requires Kept(feed, SnapshotName(feed, jobs[k].ts), file)(states[i], newer)
    ensures Kept(feed, SnapshotName(feed, jobs[k].ts), file)
              (states[i + 1], newer + if ReplacedIn(states, jobs, feed)(i) then 1 else 0)
  {
    SnapshotNameIsSnapshot(feed, jobs[k].ts);
    SeriesIsOlder(states, jobs, i, feed);
    SnapshotLessLater(jobs, feed, k, i);
    RunKeepsOrDrops(states[i], jobs[i], feed, SnapshotName(feed, jobs[k].ts), file, newer);
  }

  lemma KeptThrough(states: seq<Files>, jobs: seq<Job>, k: nat, n: nat, feed: nat, file: File)
    requires History(states, jobs) && k < n <= |jobs| && Older(states[0], feed, jobs[0].ts)
    requires Kept(feed, SnapshotName(feed, jobs[k].ts), file)(states[k + 1], 0)
    ensures Kept(feed, SnapshotName(feed, jobs[k].ts), file)
              (states[n], CountIn(ReplacedIn(states, jobs, feed), k + 1, n))
  {
    var inv, p := Kept(feed, SnapshotName(feed, jobs[k].ts), file), ReplacedIn(states, jobs, feed);
    forall i: nat, c: nat | k + 1 <= i < n ensures CountStep(inv, p, states, i, c) {
      if inv(states[i], c) {
        KeptNext(states, jobs, feed, k, i, file, c);
      }
    }
    CountedSeries(inv, p, states, k + 1, n);
  }

  /** Over any series of runs, a payload replaced in run `k` is still there after run
      `n`, byte for byte, exactly as long as fewer than the retained number of later
      runs have replaced the feed's payload. */
  lemma ReplacedPayloadLasts(states: seq<Files>, jobs: seq<Job>, k: nat, n: nat, feed: nat)
    requires History(states, jobs) && k < n <= |jobs| && Older(states[0], feed, jobs[0].ts)
    requires RunReplaces(states[k], jobs[k], feed)
    ensures Look(states[n], SnapshotName(feed, jobs[k].ts))
         == if CountIn(ReplacedIn(states, jobs, feed), k + 1, n) < SNAPSHOT_RETENTION
            then Look(states[k], ZonesFilename(feed)) else None
  {
    FirstKept(states, jobs, k, feed);
    KeptThrough(states, jobs, k, n, feed, states[k][ZonesFilename(feed)]);
  }

  lemma FirstKept(states: seq<Files>, jobs: seq<Job>, k: nat, feed: nat)
    requires History(states, jobs) && k < |jobs| && Older(states[0], feed, jobs[0].ts)
    requires RunReplaces(states[k], jobs[k], feed)
    ensures Kept(feed, SnapshotName(feed, jobs[k].ts), states[k][ZonesFilename(feed)])(states[k + 1], 0)
  {
    var e :| Serves(jobs[k], e) && e.feed == feed;
    var name := SnapshotName(feed, jobs[k].ts);
    ReplacedPayloadIsKept(states, jobs, k, e);
    forall n | n in states[k + 1] && IsSnapshot(feed, n) ensures !Less(name, n) {
      LessTotal(name, n);
    }
    assert Newer(states[k + 1], feed, name) == {};
  }
}
