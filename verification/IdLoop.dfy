/**
 ID assignment as it runs: dictionaries of seen sections and of occurrences, and a
 counter, fresh for each road.
 */
module IdLoop {
  import opened Prelude
  import opened Text
  import opened Zones
  import opened Grouping
  import opened Sorting
  import opened Ids

  lemma {:induction false} PositionInPrefix<T>(s: seq<T>, longer: seq<T>, x: T)
    requires s <= longer && x in s
    ensures PositionOf(longer, x) == PositionOf(s, x)
  {
    if s[0] != x {
      PositionInPrefix(s[1..], longer[1..], x);
    }
  }

  lemma PositionOfLast<T>(s: seq<T>, x: T)
    requires x !in s
    ensures PositionOf(s + [x], x) == |s|
  {
    var i := PositionOf(s + [x], x);
    assert (s + [x])[i] == x;
  }

  /** The number a section has once it has been seen is its final number. */
  lemma NumberWhenSeen(bs: seq<Base>, p: nat)
    requires p < |bs|
    ensures Section(bs, p) in FirstKeys(Sections(bs), p + 1)
    ensures Number(bs, p) == PositionOf(FirstKeys(Sections(bs), p + 1), Section(bs, p)) + 1
  {
    assert Sections(bs)[p] == Section(bs, p);
    PlaceWhenSeen(Sections(bs), p);
  }

  /** A key keeps the place among the distinct keys it has when it is met. */
  lemma PlaceWhenSeen(keys: seq<string>, p: nat)
    requires p < |keys|
    ensures keys[p] in FirstKeys(keys, p + 1) && keys[p] in FirstKeys(keys, |keys|)
    ensures PositionOf(FirstKeys(keys, |keys|), keys[p]) == PositionOf(FirstKeys(keys, p + 1), keys[p])
  {
    FirstKeysAre(keys, p + 1);
    FirstKeysAre(keys, |keys|);
    FirstKeysGrow(keys, p + 1, |keys|);
    PositionInPrefix(FirstKeys(keys, p + 1), FirstKeys(keys, |keys|), keys[p]);
  }

  ghost predicate SeenIs(seen: map<string, nat>, firsts: seq<string>) {
    && (forall s :: s in seen <==> s in firsts)
    && forall s :: s in seen ==> seen[s] == PositionOf(firsts, s) + 1
  }

  lemma SeenSnoc(seen: map<string, nat>, firsts: seq<string>, s: string)
    requires SeenIs(seen, firsts) && s !in firsts
    ensures SeenIs(seen[s := |firsts| + 1], firsts + [s])
  {
    PositionOfLast(firsts, s);
    forall t | t in firsts ensures PositionOf(firsts + [s], t) == PositionOf(firsts, t) {
      PositionInPrefix(firsts, firsts + [s], t);
    }
  }

  /** The dictionaries and the counter of one road. */
  datatype Ledger = Ledger(occurrences: map<Base, nat>, seen: map<string, nat>, counter: nat)

  function Occurrence(l: Ledger, b: Base): nat {
    if b in l.occurrences then l.occurrences[b] else 0
  }

  /** One zone entered: its section and the dictionaries after it. */
  function Enter(l: Ledger, b: Base): (string, Ledger) {
    var o := Occurrence(l, b);
    var section := SectionName(b.0, o);
    (section,
     Ledger(l.occurrences[b := o + 1],
            if section in l.seen then l.seen else l.seen[section := l.counter + 1],
            if section in l.seen then l.counter else l.counter + 1))
  }

  /** The dictionaries once the first `p` zones are entered. */
  function After(bs: seq<Base>, p: nat): Ledger
    requires p <= |bs|
  {
    if p == 0 then Ledger(map[], map[], 0) else Enter(After(bs, p - 1), bs[p - 1]).1
  }

  lemma {:induction false} AfterCounts(bs: seq<Base>, p: nat, b: Base)
    requires p <= |bs|
    ensures Occurrence(After(bs, p), b) == Count(bs, b, p)
  {
    if p > 0 {
      AfterCounts(bs, p - 1, b);
    }
  }

  /** The ledger numbers the sections met so far in order. */
  ghost function Told(firsts: seq<string>): Ledger -> bool {
    (l: Ledger) => SeenIs(l.seen, firsts) && l.counter == |firsts|
  }

  lemma EnterTells(l: Ledger, b: Base, firsts: seq<string>, section: string)
    requires Told(firsts)(l) && section == SectionName(b.0, Occurrence(l, b))
    ensures Told(if section in firsts then firsts else firsts + [section])(Enter(l, b).1)
  {
    if section !in firsts {
      SeenSnoc(l.seen, firsts, section);
    }
  }

  lemma SectionMet(bs: seq<Base>, p: nat)
    requires p < |bs|
    ensures Sections(bs)[p] == SectionName(bs[p].0, Occurrence(After(bs, p), bs[p]))
  {
    AfterCounts(bs, p, bs[p]);
  }

  lemma NextSection(sections: seq<string>, p: nat, l: Ledger, b: Base)
    requires p < |sections| && sections[p] == SectionName(b.0, Occurrence(l, b))
    requires Told(FirstKeys(sections, p))(l)
    ensures Told(FirstKeys(sections, p + 1))(Enter(l, b).1)
  {
    EnterTells(l, b, FirstKeys(sections, p), sections[p]);
  }

  lemma {:induction false} AfterNumbers(bs: seq<Base>, p: nat)
    requires p <= |bs|
    ensures Told(FirstKeys(Sections(bs), p))(After(bs, p))
  {
    if p > 0 {
      var l := After(bs, p - 1);
      AfterNumbers(bs, p - 1);
      SectionMet(bs, p - 1);
      NextSection(Sections(bs), p - 1, l, bs[p - 1]);
      assert After(bs, p) == Enter(l, bs[p - 1]).1;
    }
  }

  /** What the dictionaries say when a zone has been entered is its number. */
  lemma EnteredNumber(bs: seq<Base>, p: nat)
    requires p < |bs|
    ensures var (section, l) := Enter(After(bs, p), bs[p]);
            l == After(bs, p + 1) && section in l.seen && l.seen[section] == Number(bs, p)
  {
    AfterCounts(bs, p, bs[p]);
    AfterNumbers(bs, p + 1);
    NumberWhenSeen(bs, p);
  }

  /** The numbers of one road's zones, in km order. */
  function Numbers(bs: seq<Base>, p: nat): (r: seq<nat>)
    requires p <= |bs|
    ensures |r| == p
  {
    seq(p, q requires 0 <= q < p => Number(bs, q))
  }

  lemma NumbersNext(bs: seq<Base>, p: nat)
    requires p < |bs|
    ensures Numbers(bs, p + 1) == Numbers(bs, p) + [Number(bs, p)]
  {
  }

  method NumberRoad(bs: seq<Base>) returns (numbers: seq<nat>)
    ensures |numbers| == |bs| && forall p :: 0 <= p < |bs| ==> numbers[p] == Number(bs, p)
  {
    var seen: map<string, nat>, occurrences: map<Base, nat>, counter := map[], map[], 0;
    numbers := [];
    for p := 0 to |bs|
      invariant numbers == Numbers(bs, p)
      invariant Ledger(occurrences, seen, counter) == After(bs, p)
    {
      EnteredNumber(bs, p);
      NumbersNext(bs, p);
      var b := bs[p];
      ghost var before := Ledger(occurrences, seen, counter);
      var occurrence := if b in occurrences then occurrences[b] else 0;
      occurrences := occurrences[b := occurrence + 1];
      var section := SectionName(b.0, occurrence);
      if section !in seen {
        counter := counter + 1;
        seen := seen[section := counter];
      }
      assert (section, Ledger(occurrences, seen, counter)) == Enter(before, b);
      numbers := numbers + [seen[section]];
    }
  }

  lemma SlotsSnoc(env: Env, zones: seq<Zone>, roads: seq<string>, g: nat)
    requires g < |roads|
    ensures SlotsOf(env, zones, roads[..g + 1]) == SlotsOf(env, zones, roads[..g]) + RoadSlots(env, zones, roads[g])
  {
    assert roads[..g + 1][..g] == roads[..g];
  }

  ghost function Holds(env: Env, zones: seq<Zone>): (Slot, Zone) -> bool {
    (s: Slot, z: Zone) => IsSlot(env, zones, s) && z == WithId(env, zones, s)
  }

  /** What the roads done so far contribute. */
  ghost predicate Filled(env: Env, zones: seq<Zone>, slots: seq<Slot>, result: seq<Zone>) {
    AllPairs(Holds(env, zones), slots, result)
  }

  lemma NumberedHolds(env: Env, zones: seq<Zone>, road: string, p: nat)
    requires p < |RoadList(env, zones, road)|
    ensures var i := RoadList(env, zones, road)[p];
            && i < |zones|
            && Holds(env, zones)(Slot(road, p), Numbered(env, zones[i], road, Number(Bases(env, zones, road), p)))
  {
    RoadListIs(env, zones, road);
    var s := Slot(road, p);
    assert Source(env, zones, s) == RoadList(env, zones, road)[p];
    assert WithId(env, zones, s) == Numbered(env, zones[Source(env, zones, s)], road, Number(Bases(env, zones, road), p));
  }

  lemma FilledSnoc<S, T>(holds: (S, T) -> bool, slots: seq<S>, p: nat, part: seq<T>, z: T)
    requires p < |slots| && holds(slots[p], z) && AllPairs(holds, slots[..p], part)
    ensures AllPairs(holds, slots[..p + 1], part + [z])
  {
    assert slots[..p + 1] == slots[..p] + [slots[p]];
    AllPairsAppend(holds, slots[..p], part, [slots[p]], [z]);
  }

  method AssignRoad(env: Env, zones: seq<Zone>, road: string, members: seq<nat>) returns (part: seq<Zone>)
    requires members == IndicesOf(RoadKeys(env, zones), road, |zones|)
    ensures Filled(env, zones, RoadSlots(env, zones, road), part)
  {
    var list := Sort(ByKey(KeyAt(env, zones)), members);
    var numbers := NumberRoad(Bases(env, zones, road));
    ghost var slots := RoadSlots(env, zones, road);
    part := [];
    for p := 0 to |list|
      invariant Filled(env, zones, slots[..p], part)
    {
      NumberedHolds(env, zones, road, p);
      var numbered := Numbered(env, zones[list[p]], road, numbers[p]);
      FilledSnoc(Holds(env, zones), slots, p, part, numbered);
      part := part + [numbered];
    }
    assert slots[..|list|] == slots;
  }

  lemma FilledIsAll(env: Env, zones: seq<Zone>, result: seq<Zone>)
    requires Filled(env, zones, Slots(env, zones), result)
    ensures result == AssignIds(env, zones)
  {
    forall j | 0 <= j < |result| ensures result[j] == AssignIds(env, zones)[j] {
      assert Holds(env, zones)(Slots(env, zones)[j], result[j]);
    }
  }

  method AssignAll(env: Env, zones: seq<Zone>) returns (result: seq<Zone>)
    ensures result == AssignIds(env, zones)
  {
    var order, byRoad := GroupBy(RoadKeys(env, zones));
    var roads := Sort(Less, order);
    result := [];
    for g := 0 to |roads|
      invariant Filled(env, zones, SlotsOf(env, zones, roads[..g]), result)
    {
      SortMember(Less, order, roads[g]);
      assert roads[g] in roads;
      var part := AssignRoad(env, zones, roads[g], byRoad[roads[g]]);
      SlotsSnoc(env, zones, roads, g);
      AllPairsAppend(Holds(env, zones), SlotsOf(env, zones, roads[..g]), result, RoadSlots(env, zones, roads[g]), part);
      result := result + part;
    }
    assert roads[..|roads|] == roads;
    FilledIsAll(env, zones, result);
  }
}
