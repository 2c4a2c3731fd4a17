/**
 Data feeds: which variants of the payload are served and under what file names.
 Feed 1 has no suffix, every other feed its number.
 */
module Feeds {
  import opened Prelude
  import opened Text
  import opened Sorting

  const DEFAULT_FEED: nat := 1

  // ----- names -----

  function Suffix(feed: nat): string {
    if feed == DEFAULT_FEED then "" else "." + Decimal(feed)
  }

  function ZonesFilename(feed: nat): string {
    "zones" + Suffix(feed) + ".json"
  }

  function VersionFilename(feed: nat): string {
    "version" + Suffix(feed) + ".json"
  }

  function SnapshotHead(feed: nat): string {
    "zones" + Suffix(feed) + "-"
  }

  function SnapshotName(feed: nat, timestamp: string): string {
    SnapshotHead(feed) + timestamp + ".json"
  }

  function TempName(name: string): string {
    name + ".tmp"
  }

  /** The name matches the glob "zones{suffix}-[0-9]*.json". */
  predicate IsSnapshot(feed: nat, name: string) {
    var head := SnapshotHead(feed);
    && |head| + 6 <= |name| && head <= name && '0' <= name[|head|] <= '9' && name[|name| - 5..] == ".json"
  }

  /** The names work on a feed can touch. */
  predicate Owned(feed: nat, name: string) {
    || name == ZonesFilename(feed) || name == VersionFilename(feed)
    || name == TempName(ZonesFilename(feed)) || name == TempName(VersionFilename(feed))
    || IsSnapshot(feed, name)
  }

  predicate Globbed(head: string, name: string, digit: char, rest: string) {
    '0' <= digit <= '9' && name == head + [digit] + rest + ".json"
  }

  ghost predicate GlobbedBy(head: string, name: string) {
    exists digit, rest :: Globbed(head, name, digit, rest)
  }

  lemma GlobbedIff(head: string, name: string)
    ensures GlobbedBy(head, name) <==>
      |head| + 6 <= |name| && head <= name && '0' <= name[|head|] <= '9' && name[|name| - 5..] == ".json"
  {
    if |head| + 6 <= |name| && head <= name && '0' <= name[|head|] <= '9' && name[|name| - 5..] == ".json" {
      var digit, rest := name[|head|], name[|head| + 1..|name| - 5];
      assert name == head + [digit] + rest + ".json";
      assert Globbed(head, name, digit, rest);
    }
    if GlobbedBy(head, name) {
      var digit, rest :| Globbed(head, name, digit, rest);
      assert name[|head|] == digit && name[|name| - 5..] == ".json";
    }
  }

  /** A snapshot is what the glob matches: the feed's own head, a digit, anything. */
  lemma IsSnapshotIff(feed: nat, name: string)
    ensures feed == 1 ==> (IsSnapshot(feed, name) <==> GlobbedBy("zones-", name))
    ensures feed != 1 ==> (IsSnapshot(feed, name) <==> GlobbedBy("zones." + Decimal(feed) + "-", name))
  {
    GlobbedIff(SnapshotHead(feed), name);
    assert "zones" + "" + "-" == "zones-";
    assert "zones" + ("." + Decimal(feed)) + "-" == "zones." + Decimal(feed) + "-";
  }

  /** Feed 1 has the names it always had. */
  lemma NamesLook(ts: string)
    ensures ZonesFilename(1) == "zones.json" && VersionFilename(1) == "version.json"
    ensures SnapshotName(1, ts) == "zones-" + ts + ".json"
    ensures ZonesFilename(2) == "zones.2.json" && VersionFilename(2) == "version.2.json"
    ensures SnapshotName(2, ts) == "zones.2-" + ts + ".json"
  {
    assert Decimal(2) == "2";
  }

  // ----- no two feeds share a name -----

  lemma SuffixInjective(f: nat, g: nat)
    requires Suffix(f) == Suffix(g)
    ensures f == g
  {
    if f != DEFAULT_FEED && g != DEFAULT_FEED {
      assert Suffix(f)[1..] == Decimal(f) && Suffix(g)[1..] == Decimal(g);
      DecimalInjective(f, g);
    }
  }

  lemma SuffixHasNoDash(f: nat)
    ensures '-' !in Suffix(f)
  {
    if f != DEFAULT_FEED {
      assert forall i :: 0 <= i < |Decimal(f)| ==> '0' <= Decimal(f)[i] <= '9';
    }
  }

  /** A name with the suffix between two fixed parts determines the feed. */
  lemma FramedSuffix(pre: string, f: nat, g: nat, post: string)
    requires pre + Suffix(f) + post == pre + Suffix(g) + post
    ensures f == g
  {
    var a, b := pre + Suffix(f) + post, pre + Suffix(g) + post;
    assert |Suffix(f)| == |Suffix(g)|;
    assert a[|pre|..|pre| + |Suffix(f)|] == Suffix(f) && b[|pre|..|pre| + |Suffix(g)|] == Suffix(g);
    SuffixInjective(f, g);
  }

  lemma HeadHasOneDash(f: nat, i: nat)
    requires i < |SnapshotHead(f)|
    ensures SnapshotHead(f)[i] == '-' <==> i == |SnapshotHead(f)| - 1
  {
    SuffixHasNoDash(f);
    assert SnapshotHead(f) == "zones" + Suffix(f) + "-";
  }

  lemma HeadDetermines(f: nat, g: nat, name: string)
    requires SnapshotHead(f) <= name && SnapshotHead(g) <= name
    ensures f == g
  {
    var a, b := |SnapshotHead(f)|, |SnapshotHead(g)|;
    var i := if a < b then a - 1 else b - 1;
    HeadHasOneDash(f, i);
    HeadHasOneDash(g, i);
    assert SnapshotHead(f)[i] == name[i] == SnapshotHead(g)[i];
    assert SnapshotHead(f) == name[..a] && SnapshotHead(g) == name[..b];
    FramedSuffix("zones", f, g, "-");
  }

  lemma PlainNameHasNoDash(f: nat, i: nat)
    ensures i < |ZonesFilename(f)| ==> ZonesFilename(f)[i] != '-'
    ensures i < |VersionFilename(f)| ==> VersionFilename(f)[i] != '-'
  {
    SuffixHasNoDash(f);
    assert ZonesFilename(f) == "zones" + Suffix(f) + ".json";
    assert VersionFilename(f) == "version" + Suffix(f) + ".json";
  }

  /** No snapshot carries a live name, nor a live name's temporary. */
  lemma SnapshotIsNotLive(f: nat, g: nat, name: string)
    requires IsSnapshot(f, name)
    ensures name != ZonesFilename(g) && name != VersionFilename(g)
    ensures name != TempName(ZonesFilename(g)) && name != TempName(VersionFilename(g))
  {
    var i := |SnapshotHead(f)| - 1;
    HeadHasOneDash(f, i);
    assert name[i] == '-';
    PlainNameHasNoDash(g, i);
    assert name[|name| - 1] == name[|name| - 5..][4] == 'n';
    assert TempName(ZonesFilename(g))[|TempName(ZonesFilename(g))| - 1] == 'p';
    assert TempName(VersionFilename(g))[|TempName(VersionFilename(g))| - 1] == 'p';
  }

  lemma LiveNamesDiffer(f: nat, g: nat)
    ensures ZonesFilename(f) != VersionFilename(g) && ZonesFilename(f) != TempName(ZonesFilename(g))
    ensures ZonesFilename(f) != TempName(VersionFilename(g)) && VersionFilename(f) != TempName(ZonesFilename(g))
    ensures VersionFilename(f) != TempName(VersionFilename(g))
    ensures TempName(ZonesFilename(f)) != TempName(VersionFilename(g))
    ensures f != g ==> ZonesFilename(f) != ZonesFilename(g) && VersionFilename(f) != VersionFilename(g)
    ensures f != g ==> TempName(ZonesFilename(f)) != TempName(ZonesFilename(g))
    ensures f != g ==> TempName(VersionFilename(f)) != TempName(VersionFilename(g))
  {
    assert ZonesFilename(f)[0] == 'z' && VersionFilename(f)[0] == 'v';
    assert ZonesFilename(g)[0] == 'z' && VersionFilename(g)[0] == 'v';
    assert TempName(ZonesFilename(g))[0] == 'z' && TempName(VersionFilename(g))[0] == 'v';
    assert TempName(ZonesFilename(f))[0] == 'z';
    assert ZonesFilename(f)[|ZonesFilename(f)| - 1] == 'n' && VersionFilename(f)[|VersionFilename(f)| - 1] == 'n';
    assert TempName(ZonesFilename(g))[|TempName(ZonesFilename(g))| - 1] == 'p';
    assert TempName(VersionFilename(g))[|TempName(VersionFilename(g))| - 1] == 'p';
    if ZonesFilename(f) == ZonesFilename(g) {
      FramedSuffix("zones", f, g, ".json");
    }
    if VersionFilename(f) == VersionFilename(g) {
      FramedSuffix("version", f, g, ".json");
    }
    TempInjective(ZonesFilename(f), ZonesFilename(g));
    TempInjective(VersionFilename(f), VersionFilename(g));
  }

  lemma TempInjective(a: string, b: string)
    ensures TempName(a) == TempName(b) ==> a == b
  {
    if TempName(a) == TempName(b) {
      assert TempName(a)[..|a|] == a && TempName(b)[..|b|] == b;
    }
  }

  /** Whatever their numbers, two feeds never touch the same file. */
  lemma FeedsAreDisjoint(f: nat, g: nat, name: string)
    requires f != g && Owned(f, name)
    ensures !Owned(g, name)
  {
    LiveNamesDiffer(f, g);
    LiveNamesDiffer(g, f);
    if IsSnapshot(f, name) {
      SnapshotIsNotLive(f, g, name);
      if IsSnapshot(g, name) {
        HeadDetermines(f, g, name);
      }
    } else if IsSnapshot(g, name) {
      SnapshotIsNotLive(g, f, name);
    }
  }

  // ----- snapshots in time -----

  /** A UTC stamp as the names carry it. */
  predicate IsStamp(ts: string) {
    |ts| == 16 && '0' <= ts[0] <= '9'
  }

  lemma SnapshotNameIsSnapshot(feed: nat, ts: string)
    requires IsStamp(ts)
    ensures IsSnapshot(feed, SnapshotName(feed, ts))
  {
    var name := SnapshotName(feed, ts);
    assert name[|SnapshotHead(feed)|] == ts[0];
  }

  /** Names sort as their stamps do. */
  lemma SnapshotsSortByTime(feed: nat, a: string, b: string)
    requires IsStamp(a) && IsStamp(b)
    ensures Less(SnapshotName(feed, a), SnapshotName(feed, b)) <==> Less(a, b)
  {
    LessFramed(SnapshotHead(feed), a, b, ".json");
  }

  // ----- declared and served feeds -----

  datatype Status = Active | Unsupported | Retired

  datatype Entry = Entry(feed: nat, status: Status)

  function ByFeed(): (Entry, Entry) -> bool {
    (a: Entry, b: Entry) => a.feed < b.feed
  }

  predicate WellDeclared(declared: seq<Entry>) {
    && declared != []
    && (forall i :: 0 <= i < |declared| ==> declared[i].feed >= 1)
    && forall i, j :: 0 <= i < j < |declared| ==> declared[i].feed != declared[j].feed
  }

  function NotRetired(s: seq<Entry>): seq<Entry> {
    if s == [] then []
    else NotRetired(s[..|s| - 1]) + if s[|s| - 1].status == Retired then [] else [s[|s| - 1]]
  }

  /** The feeds to write, ascending; None where the configuration is unusable. */
  function ServedFeeds(declared: seq<Entry>, projected: set<nat>): Option<seq<Entry>> {
    if !WellDeclared(declared) then None
    else
      var served := NotRetired(Sort(ByFeed(), declared));
      if served == [] || exists e :: e in served && e.feed !in projected then None else Some(served)
  }

  ghost predicate Rising(s: seq<Entry>) {
    forall i, j :: 0 <= i < j < |s| ==> s[i].feed < s[j].feed
  }

  lemma ByFeedIsOrder(s: seq<Entry>)
    ensures WeakOrder(ByFeed(), s)
  {
  }

  ghost predicate DistinctFeeds(s: seq<Entry>) {
    forall i, j :: 0 <= i < j < |s| ==> s[i].feed != s[j].feed
  }

  lemma FeedTells(s: seq<Entry>, x: Entry, y: Entry)
    requires DistinctFeeds(s) && x in s && y in s && x != y
    ensures x.feed != y.feed
  {
    var i :| 0 <= i < |s| && s[i] == x;
    var j :| 0 <= j < |s| && s[j] == y;
    assert i < j || j < i;
  }

  lemma SortedRises(s: seq<Entry>)
    requires DistinctFeeds(s)
    ensures Rising(Sort(ByFeed(), s))
  {
    var r := Sort(ByFeed(), s);
    ByFeedIsOrder(s);
    SortOrders(ByFeed(), s);
    SortDistinct(ByFeed(), s);
    forall i, j | 0 <= i < j < |r| ensures r[i].feed < r[j].feed {
      SortMember(ByFeed(), s, r[i]);
      SortMember(ByFeed(), s, r[j]);
      FeedTells(s, r[i], r[j]);
      assert !ByFeed()(r[j], r[i]);
    }
  }

  lemma {:induction false} NotRetiredMember(s: seq<Entry>, x: Entry)
    ensures x in NotRetired(s) <==> x in s && x.status != Retired
  {
    if s != [] {
      var n := |s| - 1;
      NotRetiredMember(s[..n], x);
      assert s == s[..n] + [s[n]];
    }
  }

  lemma {:induction false} NotRetiredRises(s: seq<Entry>)
    requires Rising(s)
    ensures Rising(NotRetired(s))
  {
    if s != [] {
      var n := |s| - 1;
      NotRetiredRises(s[..n]);
      var rest := NotRetired(s[..n]);
      forall i | 0 <= i < |rest| ensures rest[i].feed < s[n].feed {
        NotRetiredMember(s[..n], rest[i]);
      }
    }
  }

  /** Served are exactly the declared feeds that are not retired, each once, in
      ascending order, and all of them can be projected. */
  lemma ServedIs(declared: seq<Entry>, projected: set<nat>, x: Entry)
    requires ServedFeeds(declared, projected).Some?
    ensures var served := ServedFeeds(declared, projected).value;
            && served != [] && Rising(served)
            && (x in served <==> x in declared && x.status != Retired)
            && (x in served ==> x.feed >= 1 && x.feed in projected)
  {
    SortedRises(declared);
    SortMember(ByFeed(), declared, x);
    NotRetiredMember(Sort(ByFeed(), declared), x);
    NotRetiredRises(Sort(ByFeed(), declared));
  }

  /** There are feeds to serve exactly when every declared feed has a number of its own,
      from 1 on, not all are retired, and each that is not can be projected. */
  lemma ServedIff(declared: seq<Entry>, projected: set<nat>)
    ensures ServedFeeds(declared, projected).Some? <==>
      && (forall e :: e in declared ==> e.feed >= 1)
      && DistinctFeeds(declared)
      && (exists e :: e in declared && e.status != Retired)
      && (forall e :: e in declared && e.status != Retired ==> e.feed in projected)
  {
    var served := NotRetired(Sort(ByFeed(), declared));
    forall e ensures e in served <==> e in declared && e.status != Retired {
      NotRetiredMember(Sort(ByFeed(), declared), e);
      SortMember(ByFeed(), declared, e);
    }
    if served != [] {
      assert served[0] in served;
    }
  }
}
