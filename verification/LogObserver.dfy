/**
 The log tail's per-line behaviour: the last lines kept for reports, and an automaton
 that ties a crash marker to the line naming the crashing package.
 */
module LogObserver {
  import opened Prelude
  import opened Text

  const CRASH_SCAN_LINES: nat := 6

  datatype Event = Crash(raw: string, head: string) | Anr(raw: string) | Parsed(kind: string, raw: string) | Unparsed(raw: string)

  datatype Config = Config(package: string, maxRecent: nat, maxSamples: nat, parse: string -> Option<Event>)

  datatype State = State(recent: seq<string>, queue: seq<Event>, counts: map<string, nat>, samples: seq<string>,
                         left: nat, head: string)

  const EMPTY := State([], [], map[], [], 0, "")

  predicate IsMarker(line: string) {
    Contains(line, "FATAL EXCEPTION")
  }

  predicate Names(c: Config, line: string) {
    Contains(line, c.package)
  }

  function Last(s: seq<string>, n: nat): seq<string> {
    if |s| > n then s[|s| - n..] else s
  }

  function KindOf(e: Event): string {
    match e
    case Crash(_, _) => "Crash"
    case Anr(_) => "Anr"
    case Parsed(kind, _) => kind
    case Unparsed(_) => "UnparsedLog"
  }

  function AnrIn(c: Config, raw: string): seq<Event> {
    if Contains(raw, "ANR in ") && Names(c, raw) then [Anr(raw)] else []
  }

  // ----- one line -----

  function CountOf(counts: map<string, nat>, kind: string): nat {
    if kind in counts then counts[kind] else 0
  }

  /** How many lines the scan still covers after a line. */
  function LeftAfter(c: Config, left: nat, raw: string): nat {
    if IsMarker(raw) then (if Names(c, raw) then left else CRASH_SCAN_LINES)
    else if left == 0 || Names(c, raw) then 0
    else left - 1
  }

  function HeadAfter(c: Config, head: string, raw: string): string {
    if IsMarker(raw) && !Names(c, raw) then raw else head
  }

  function CrashEvents(c: Config, left: nat, head: string, raw: string): seq<Event> {
    if IsMarker(raw) then (if Names(c, raw) then [Crash(raw, raw)] else [])
    else if left > 0 && Names(c, raw) then [Crash(head + "\n" + raw, head)]
    else AnrIn(c, raw)
  }

  function ParseEvents(c: Config, raw: string): seq<Event> {
    if c.parse(raw).Some? then [c.parse(raw).value] else []
  }

  function Counted(c: Config, counts: map<string, nat>, raw: string): map<string, nat> {
    match c.parse(raw)
    case None => counts
    case Some(e) => counts[KindOf(e) := CountOf(counts, KindOf(e)) + 1]
  }

  function Sampled(c: Config, samples: seq<string>, raw: string): seq<string> {
    if c.parse(raw).Some? && c.parse(raw).value.Unparsed? && |samples| < c.maxSamples then samples + [raw] else samples
  }

  function Handle(c: Config, st: State, raw: string): State {
    State(Last(st.recent + [raw], c.maxRecent),
          st.queue + (CrashEvents(c, st.left, st.head, raw) + ParseEvents(c, raw)),
          Counted(c, st.counts, raw), Sampled(c, st.samples, raw),
          LeftAfter(c, st.left, raw), HeadAfter(c, st.head, raw))
  }

  /** Counts, samples and the scan go on. */
  function Cleared(st: State): State {
    st.(recent := [], queue := [])
  }

  // ----- the observer -----

  class Observer {
    const c: Config
    var recentLines: seq<string>
    var queue: seq<Event>
    var typeCounts: map<string, nat>
    var unparsedSamples: seq<string>
    var crashScanLeft: nat
    var crashHead: string

    ghost function Now(): State
      reads this
    {
      State(recentLines, queue, typeCounts, unparsedSamples, crashScanLeft, crashHead)
    }

    constructor (c: Config)
      ensures Now() == EMPTY && this.c == c
    {
      this.c := c;
      recentLines, queue, typeCounts, unparsedSamples := [], [], map[], [];
      crashScanLeft, crashHead := 0, "";
    }

    method RecordRecent(raw: string)
      modifies this
      ensures Now() == old(Now()).(recent := Last(old(recentLines) + [raw], c.maxRecent))
    {
      recentLines := recentLines + [raw];
      if |recentLines| > c.maxRecent {
        recentLines := recentLines[|recentLines| - c.maxRecent..];
      }
    }

    method MaybeEmitCrash(raw: string)
      modifies this
      ensures Now() == old(Now()).(queue := old(queue) + CrashEvents(c, old(crashScanLeft), old(crashHead), raw),
                                   left := LeftAfter(c, old(crashScanLeft), raw),
                                   head := HeadAfter(c, old(crashHead), raw))
    {
      if Contains(raw, "FATAL EXCEPTION") {
        if Contains(raw, c.package) {
          queue := queue + [Crash(raw, raw)];
        } else {
          crashHead := raw;
          crashScanLeft := 6;
        }
        return;
      }
      if crashScanLeft > 0 {
        crashScanLeft := crashScanLeft - 1;
        if Contains(raw, c.package) {
          crashScanLeft := 0;
          queue := queue + [Crash(crashHead + "\n" + raw, crashHead)];
          return;
        }
      }
      if Contains(raw, "ANR in ") && Contains(raw, c.package) {
        queue := queue + [Anr(raw)];
      }
    }

    method HandleLine(raw: string)
      modifies this
      ensures Now() == Handle(c, old(Now()), raw)
    {
      RecordRecent(raw);
      MaybeEmitCrash(raw);
      var ev := c.parse(raw);
      if ev.Some? {
        var kind := KindOf(ev.value);
        typeCounts := typeCounts[kind := CountOf(typeCounts, kind) + 1];
        if ev.value.Unparsed? && |unparsedSamples| < c.maxSamples {
          unparsedSamples := unparsedSamples + [raw];
        }
        queue := queue + [ev.value];
      }
      Assoc(old(queue), CrashEvents(c, old(crashScanLeft), old(crashHead), raw), ParseEvents(c, raw));
    }

    method Clear()
      modifies this
      ensures Now() == Cleared(old(Now()))
    {
      queue := [];
      recentLines := [];
    }
  }

  // ----- any stream of lines and clears -----

  datatype Input = Line(raw: string) | Clear

  function Stepper(c: Config): (State, Input) -> State {
    (st: State, x: Input) => match x case Line(raw) => Handle(c, st, raw) case Clear => Cleared(st)
  }

  function After(c: Config, inputs: seq<Input>): State {
    Fold(Stepper(c), EMPTY, inputs)
  }

  /** All lines handled, clears or not. */
  function Lines(inputs: seq<Input>): seq<string> {
    if inputs == [] then []
    else
      match inputs[|inputs| - 1]
      case Line(raw) => Lines(inputs[..|inputs| - 1]) + [raw]
      case Clear => Lines(inputs[..|inputs| - 1])
  }

  /** How many of them came before the last clear. */
  function ClearedAt(inputs: seq<Input>): (n: nat)
    ensures n <= |Lines(inputs)|
  {
    if inputs == [] then 0
    else
      match inputs[|inputs| - 1]
      case Line(_) => ClearedAt(inputs[..|inputs| - 1])
      case Clear => |Lines(inputs)|
  }

  lemma NoLinesYet()
    ensures Lines([]) == [] && ClearedAt([]) == 0 && Lines([])[0..] == []
  {
  }

  lemma LinesNext(before: seq<Input>, x: Input)
    ensures Lines(before + [x]) == (match x case Line(raw) => Lines(before) + [raw] case Clear => Lines(before))
    ensures ClearedAt(before + [x]) == (match x case Line(_) => ClearedAt(before) case Clear => |Lines(before)|)
  {
    assert (before + [x])[..|before|] == before;
  }

  lemma LastOfLast(s: seq<string>, x: string, n: nat)
    ensures Last(Last(s, n) + [x], n) == Last(s + [x], n)
  {
  }

  function RecentRight(c: Config): (State, seq<Input>) -> bool {
    (st: State, inputs: seq<Input>) => st.recent == Last(Lines(inputs)[ClearedAt(inputs)..], c.maxRecent)
  }

  lemma RecentStep(c: Config, st: State, before: seq<Input>, x: Input)
    requires RecentRight(c)(st, before)
    ensures RecentRight(c)(Stepper(c)(st, x), before + [x])
  {
    var lines, at := Lines(before), ClearedAt(before);
    LinesNext(before, x);
    match x
    case Line(raw) =>
      assert (lines + [raw])[at..] == lines[at..] + [raw];
      LastOfLast(lines[at..], raw, c.maxRecent);
      assert Stepper(c)(st, x) == Handle(c, st, raw);
    case Clear =>
      assert lines[|lines|..] == [];
      assert Stepper(c)(st, x) == Cleared(st);
  }

  /** The lines kept are always the last ones since the last clear. */
  lemma RecentIsLastSinceClear(c: Config, inputs: seq<Input>)
    ensures After(c, inputs).recent == Last(Lines(inputs)[ClearedAt(inputs)..], c.maxRecent)
  {
    var inv := RecentRight(c);
    NoLinesYet();
    assert EMPTY.recent == Last(Lines([])[ClearedAt([])..], c.maxRecent);
    assert inv(EMPTY, []);
    forall st, before, x | inv(st, before) ensures inv(Stepper(c)(st, x), before + [x]) {
      RecentStep(c, st, before, x);
    }
    FoldKeeps(inv, Stepper(c), EMPTY, inputs);
  }

  // ----- what a crash is -----

  predicate OpensScan(c: Config, line: string) {
    IsMarker(line) && !Names(c, line)
  }

  /** The latest marker without the package among the first `n` lines. */
  function LatestMarker(c: Config, lines: seq<string>, n: nat): (m: Option<nat>)
    requires n <= |lines|
    ensures m.Some? ==> m.value < n && OpensScan(c, lines[m.value])
    ensures m.Some? ==> forall j :: m.value < j < n ==> !OpensScan(c, lines[j])
    ensures m.None? ==> forall j :: 0 <= j < n ==> !OpensScan(c, lines[j])
  {
    if n == 0 then None
    else if OpensScan(c, lines[n - 1]) then Some(n - 1) else LatestMarker(c, lines, n - 1)
  }

  /** Lines that are no markers strictly between `m` and `n`. */
  function Between(lines: seq<string>, m: nat, n: nat): nat
    requires n <= |lines|
  {
    if n <= m + 1 then 0 else Between(lines, m, n - 1) + if IsMarker(lines[n - 1]) then 0 else 1
  }

  /** No line since the marker that is no marker itself named the package. */
  predicate Unnamed(c: Config, lines: seq<string>, m: nat, n: nat)
    requires n <= |lines|
  {
    forall j :: m < j < n && !IsMarker(lines[j]) ==> !Names(c, lines[j])
  }

  /** Line `i` names the package first, within six lines of the latest marker. */
  predicate CompletesCrash(c: Config, lines: seq<string>, i: nat)
    requires i < |lines|
  {
    var m := LatestMarker(c, lines, i);
    !IsMarker(lines[i]) && Names(c, lines[i]) && m.Some?
    && Unnamed(c, lines, m.value, i) && Between(lines, m.value, i) < CRASH_SCAN_LINES
  }

  /** What a line of the stream is worth. */
  function Meaning(c: Config, lines: seq<string>, i: nat): seq<Event>
    requires i < |lines|
  {
    (if IsMarker(lines[i]) && Names(c, lines[i]) then [Crash(lines[i], lines[i])]
     else if CompletesCrash(c, lines, i) then
       var marker := lines[LatestMarker(c, lines, i).value];
       [Crash(marker + "\n" + lines[i], marker)]
     else if IsMarker(lines[i]) then []
     else AnrIn(c, lines[i]))
    + ParseEvents(c, lines[i])
  }

  /** A marker is a crash where it names the package and otherwise opens the scan; another
      line counts only where it names the package, as the crash's line or as an ANR. */
  lemma LineCounts(c: Config, lines: seq<string>, i: nat)
    requires i < |lines|
    ensures var line := lines[i];
            var marker, named := Contains(line, "FATAL EXCEPTION"), Contains(line, c.package);
            var events := Meaning(c, lines, i);
            && (marker && named ==> events == [Crash(line, line)] + ParseEvents(c, line))
            && (marker && !named ==> events == ParseEvents(c, line) && LatestMarker(c, lines, i + 1) == Some(i))
            && (!marker && !named ==> events == ParseEvents(c, line))
            && (!marker && named && LatestMarker(c, lines, i).None? && Contains(line, "ANR in ") ==>
                  events == [Anr(line)] + ParseEvents(c, line))
            && (!marker && named && LatestMarker(c, lines, i).None? && !Contains(line, "ANR in ") ==>
                  events == ParseEvents(c, line))
  {
  }

  function Scanner(c: Config): ((nat, string), string) -> (nat, string) {
    (scan: (nat, string), raw: string) => (LeftAfter(c, scan.0, raw), HeadAfter(c, scan.1, raw))
  }

  function Scan(c: Config, lines: seq<string>, n: nat): (nat, string)
    requires n <= |lines|
  {
    Fold(Scanner(c), (0, ""), lines[..n])
  }

  /** What the counter of lines still covered should be. */
  function LinesLeft(c: Config, lines: seq<string>, m: Option<nat>, n: nat): nat
    requires n <= |lines|
  {
    if m.Some? && Unnamed(c, lines, m.value, n) && Between(lines, m.value, n) < CRASH_SCAN_LINES
    then CRASH_SCAN_LINES - Between(lines, m.value, n) else 0
  }

  ghost function ScanTells(c: Config, lines: seq<string>, n: nat): ((nat, string)) -> bool
    requires n <= |lines|
  {
    var m := LatestMarker(c, lines, n);
    (scan: (nat, string)) => scan.0 == LinesLeft(c, lines, m, n) && (m.Some? ==> scan.1 == lines[m.value])
  }

  lemma LeftNext(c: Config, lines: seq<string>, n: nat)
    requires n < |lines|
    ensures LinesLeft(c, lines, LatestMarker(c, lines, n + 1), n + 1)
         == LeftAfter(c, LinesLeft(c, lines, LatestMarker(c, lines, n), n), lines[n])
  {
    var m := LatestMarker(c, lines, n);
    if m.Some? && !OpensScan(c, lines[n]) {
      assert Unnamed(c, lines, m.value, n + 1)
             <==> Unnamed(c, lines, m.value, n) && (IsMarker(lines[n]) || !Names(c, lines[n]));
    }
  }

  lemma ScanStep(c: Config, lines: seq<string>, n: nat, scan: (nat, string))
    requires n < |lines| && ScanTells(c, lines, n)(scan)
    ensures ScanTells(c, lines, n + 1)(Scanner(c)(scan, lines[n]))
  {
    LeftNext(c, lines, n);
  }

  lemma {:induction false} ScanHolds(c: Config, lines: seq<string>, n: nat)
    requires n <= |lines|
    ensures ScanTells(c, lines, n)(Scan(c, lines, n))
  {
    if n > 0 {
      ScanHolds(c, lines, n - 1);
      ScanStep(c, lines, n - 1, Scan(c, lines, n - 1));
      PrefixSnoc(lines, n - 1);
      FoldSnoc(Scanner(c), (0, ""), lines[..n - 1], lines[n - 1]);
    }
  }

  /** What the scan counter and the remembered marker mean. */
  lemma ScanIs(c: Config, lines: seq<string>, n: nat)
    requires n <= |lines|
    ensures var m := LatestMarker(c, lines, n);
            && (m.None? ==> Scan(c, lines, n).0 == 0)
            && (m.Some? ==> Scan(c, lines, n).1 == lines[m.value])
            && (m.Some? ==> Scan(c, lines, n).0
                            == if Unnamed(c, lines, m.value, n) && Between(lines, m.value, n) < CRASH_SCAN_LINES
                               then CRASH_SCAN_LINES - Between(lines, m.value, n) else 0)
  {
    ScanHolds(c, lines, n);
  }

  /** The automaton emits exactly what the line means. */
  lemma StepIsMeaning(c: Config, lines: seq<string>, i: nat)
    requires i < |lines|
    ensures var (left, head) := Scan(c, lines, i);
            CrashEvents(c, left, head, lines[i]) + ParseEvents(c, lines[i]) == Meaning(c, lines, i)
  {
    ScanIs(c, lines, i);
  }

  lemma ScanOfPrefix(c: Config, lines: seq<string>, more: seq<string>, n: nat)
    requires n <= |lines|
    ensures Scan(c, lines + more, n) == Scan(c, lines, n)
  {
    assert (lines + more)[..n] == lines[..n];
  }

  /** What lines `from` to `n` mean, one after the other. */
  function Meanings(c: Config, lines: seq<string>, from: nat, n: nat): seq<Event>
    requires n <= |lines|
  {
    Gather(MeaningAt(c, lines), from, n)
  }

  function MeaningAt(c: Config, lines: seq<string>): nat -> seq<Event> {
    (i: nat) => if i < |lines| then Meaning(c, lines, i) else []
  }

  lemma MeaningOfPrefix(c: Config, lines: seq<string>, more: seq<string>, i: nat)
    requires i < |lines|
    ensures Meaning(c, lines + more, i) == Meaning(c, lines, i)
  {
    StepIsMeaning(c, lines, i);
    StepIsMeaning(c, lines + more, i);
    ScanOfPrefix(c, lines, more, i);
  }

  lemma MeaningsOfPrefix(c: Config, lines: seq<string>, more: seq<string>, from: nat, n: nat)
    requires n <= |lines|
    ensures Meanings(c, lines + more, from, n) == Meanings(c, lines, from, n)
  {
    forall i: nat | i < n ensures MeaningAt(c, lines + more)(i) == MeaningAt(c, lines)(i) {
      MeaningOfPrefix(c, lines, more, i);
    }
    GatherAlike(MeaningAt(c, lines + more), MeaningAt(c, lines), from, n);
  }

  /** The state carries the scan of all lines, and the queue what those since the
      last clear mean. */
  function QueueRight(c: Config): (State, seq<Input>) -> bool {
    (st: State, inputs: seq<Input>) =>
      var lines := Lines(inputs);
      && (st.left, st.head) == Scan(c, lines, |lines|)
      && st.queue == Meanings(c, lines, ClearedAt(inputs), |lines|)
  }

  lemma LineMeans(c: Config, st: State, lines: seq<string>, raw: string, from: nat)
    requires (st.left, st.head) == Scan(c, lines, |lines|) && st.queue == Meanings(c, lines, from, |lines|)
    requires from <= |lines|
    ensures var st', lines' := Handle(c, st, raw), lines + [raw];
            (st'.left, st'.head) == Scan(c, lines', |lines'|) && st'.queue == Meanings(c, lines', from, |lines'|)
  {
    var lines' := lines + [raw];
    assert lines'[..|lines'|] == lines' && lines[..|lines|] == lines;
    FoldSnoc(Scanner(c), (0, ""), lines, raw);
    ScanOfPrefix(c, lines, [raw], |lines|);
    StepIsMeaning(c, lines', |lines|);
    MeaningsOfPrefix(c, lines, [raw], from, |lines|);
  }

  lemma QueueStep(c: Config, st: State, before: seq<Input>, x: Input)
    requires QueueRight(c)(st, before)
    ensures QueueRight(c)(Stepper(c)(st, x), before + [x])
  {
    LinesNext(before, x);
    match x
    case Line(raw) =>
      LineMeans(c, st, Lines(before), raw, ClearedAt(before));
      assert Stepper(c)(st, x) == Handle(c, st, raw);
    case Clear =>
      assert Stepper(c)(st, x) == Cleared(st);
  }

  /** For every stream of lines and clears: the queue holds what the lines since the
      last clear mean, each judged by all lines before it, cleared ones included. */
  lemma QueueIsMeaning(c: Config, inputs: seq<Input>)
    ensures After(c, inputs).queue == Meanings(c, Lines(inputs), ClearedAt(inputs), |Lines(inputs)|)
  {
    var inv := QueueRight(c);
    NoLinesYet();
    assert inv(EMPTY, []);
    forall st, before, x | inv(st, before) ensures inv(Stepper(c)(st, x), before + [x]) {
      QueueStep(c, st, before, x);
    }
    FoldKeeps(inv, Stepper(c), EMPTY, inputs);
  }

  // ----- what survives a clear -----

  function Tally(c: Config, lines: seq<string>, kind: string): nat {
    if lines == [] then 0
    else
      var n := |lines| - 1;
      var e := c.parse(lines[n]);
      Tally(c, lines[..n], kind) + if e.Some? && KindOf(e.value) == kind then 1 else 0
  }

  function CountsRight(c: Config, kind: string): (State, seq<Input>) -> bool {
    (st: State, inputs: seq<Input>) => CountOf(st.counts, kind) == Tally(c, Lines(inputs), kind)
  }

  lemma CountsStep(c: Config, kind: string, st: State, before: seq<Input>, x: Input)
    requires CountsRight(c, kind)(st, before)
    ensures CountsRight(c, kind)(Stepper(c)(st, x), before + [x])
  {
    LinesNext(before, x);
    match x
    case Line(raw) =>
      assert (Lines(before) + [raw])[..|Lines(before)|] == Lines(before);
      assert Stepper(c)(st, x) == Handle(c, st, raw);
    case Clear =>
      assert Stepper(c)(st, x) == Cleared(st);
  }

  /** Counts are over all lines ever handled. */
  lemma CountsSurviveClear(c: Config, inputs: seq<Input>, kind: string)
    ensures CountOf(After(c, inputs).counts, kind) == Tally(c, Lines(inputs), kind)
  {
    var inv := CountsRight(c, kind);
    NoLinesYet();
    assert CountOf(EMPTY.counts, kind) == Tally(c, Lines([]), kind);
    assert inv(EMPTY, []);
    forall st, before, x | inv(st, before) ensures inv(Stepper(c)(st, x), before + [x]) {
      CountsStep(c, kind, st, before, x);
    }
    FoldKeeps(inv, Stepper(c), EMPTY, inputs);
  }

  function UnparsedLines(c: Config, lines: seq<string>): seq<string> {
    if lines == [] then []
    else
      var n := |lines| - 1;
      var e := c.parse(lines[n]);
      UnparsedLines(c, lines[..n]) + if e.Some? && e.value.Unparsed? then [lines[n]] else []
  }

  function SamplesRight(c: Config): (State, seq<Input>) -> bool {
    (st: State, inputs: seq<Input>) =>
      var all := UnparsedLines(c, Lines(inputs));
      st.samples == if |all| <= c.maxSamples then all else all[..c.maxSamples]
  }

  lemma SamplesStep(c: Config, st: State, before: seq<Input>, x: Input)
    requires SamplesRight(c)(st, before)
    ensures SamplesRight(c)(Stepper(c)(st, x), before + [x])
  {
    LinesNext(before, x);
    match x
    case Line(raw) =>
      assert (Lines(before) + [raw])[..|Lines(before)|] == Lines(before);
      assert Stepper(c)(st, x) == Handle(c, st, raw);
    case Clear =>
      assert Stepper(c)(st, x) == Cleared(st);
  }

  /** Samples are the first unparsed lines ever handled, up to the maximum. */
  lemma SamplesAreFirst(c: Config, inputs: seq<Input>)
    ensures var all := UnparsedLines(c, Lines(inputs));
            After(c, inputs).samples == if |all| <= c.maxSamples then all else all[..c.maxSamples]
  {
    var inv := SamplesRight(c);
    NoLinesYet();
    assert UnparsedLines(c, Lines([])) == [];
    assert inv(EMPTY, []);
    forall st, before, x | inv(st, before) ensures inv(Stepper(c)(st, x), before + [x]) {
      SamplesStep(c, st, before, x);
    }
    FoldKeeps(inv, Stepper(c), EMPTY, inputs);
  }
}
