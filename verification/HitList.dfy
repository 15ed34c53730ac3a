/** The list of raw hits: one per detector element that has data, sorted by plane and counter. */
module HitList {
  import opened DetectorMap
  import opened Sorting

  /** Planes from this number on are reference times, not detector elements. */
  const FIRST_REFERENCE := 1000

  datatype Datum = Datum(signal: int, value: int)

  datatype RawHit = RawHit(plane: int, counter: int, data: seq<Datum>)

  datatype Key = Key(plane: int, counter: int)

  /** A block of the map; reversed blocks count down. */
  datatype MapModule = MapModule(block: Block, reverse: bool)

  /** The data of one channel. */
  datatype Reading = Reading(chan: int, values: seq<int>)

  /** The channels that have data, by crate and slot, in the order they are read. */
  type Event = map<(int, int), seq<Reading>>

  /** One channel's data, for the element that the map gives. */
  datatype Arrival = Arrival(key: Key, data: seq<Datum>)

  function ReadingsOf(event: Event, b: Block): seq<Reading> {
    if (b.roc, b.slot) in event then event[(b.roc, b.slot)] else []
  }

  function ElementOf(m: MapModule, chan: int): Key {
    Key(m.block.plane, if m.reverse then m.block.first + m.block.hi - chan else CounterOf(m.block, chan))
  }

  function Data(signal: int, values: seq<int>): seq<Datum> {
    seq(|values|, i requires 0 <= i < |values| => Datum(signal, values[i]))
  }

  /** The first n readings of the module that are for this block. */
  function ArrivalsIn(m: MapModule, readings: seq<Reading>, n: nat): seq<Arrival>
    requires n <= |readings|
  {
    if n == 0 then []
    else
      var before, r := ArrivalsIn(m, readings, n - 1), readings[n - 1];
      if r.chan < m.block.lo || r.chan > m.block.hi then before
      else before + [Arrival(ElementOf(m, r.chan), Data(m.block.signal, r.values))]
  }

  /** All data of the event for the first n blocks. */
  function Arrivals(modules: seq<MapModule>, event: Event, n: nat): seq<Arrival>
    requires n <= |modules|
  {
    if n == 0 then []
    else
      var before, m := Arrivals(modules, event, n - 1), modules[n - 1];
      if m.block.plane >= FIRST_REFERENCE then before
      else
        var readings := ReadingsOf(event, m.block);
        before + ArrivalsIn(m, readings, |readings|)
  }

  // ---- which data arrive, and where they go -----------------------------------------------------------

  /** How many of the first n readings have a channel of the block. */
  function InBlock(b: Block, readings: seq<Reading>, n: nat): nat
    requires n <= |readings|
  {
    if n == 0 then 0
    else InBlock(b, readings, n - 1) + if b.lo <= readings[n - 1].chan <= b.hi then 1 else 0
  }

  /**
   The arrival is this reading's: the counter goes up from the first one with the channel or, in a
   reversed block, with its distance from the last channel, and all values are there with the signal.
   */
  predicate IsDataOf(a: Arrival, m: MapModule, r: Reading) {
    && a.key.plane == m.block.plane
    && a.key.counter - m.block.first == (if m.reverse then m.block.hi - r.chan else r.chan - m.block.lo)
    && |a.data| == |r.values|
    && forall k :: 0 <= k < |r.values| ==> a.data[k].value == r.values[k] && a.data[k].signal == m.block.signal
  }

  /** The data of reading j are among the arrivals of the first n readings, in their place. */
  ghost predicate InPlace(m: MapModule, readings: seq<Reading>, n: nat, j: nat)
    requires j < n <= |readings|
  {
    var arrivals, at := ArrivalsIn(m, readings, n), InBlock(m.block, readings, j);
    at < |arrivals| && IsDataOf(arrivals[at], m, readings[j])
  }

  /** Of one block: the arrivals are those of exactly the readings with its channels, in their order. */
  lemma {:induction false} ArrivalsInAre(m: MapModule, readings: seq<Reading>, n: nat)
    requires n <= |readings|
    ensures |ArrivalsIn(m, readings, n)| == InBlock(m.block, readings, n)
    ensures forall j: nat :: j < n && m.block.lo <= readings[j].chan <= m.block.hi ==> InPlace(m, readings, n, j)
  {
    hide InPlace, IsDataOf;
    if n > 0 {
      ArrivalsInAre(m, readings, n - 1);
      hide ArrivalsIn, InBlock;
      NextReading(m, readings, n);
      forall j: nat | j < n && m.block.lo <= readings[j].chan <= m.block.hi ensures InPlace(m, readings, n, j) {
        InPlaceLater(m, readings, n, j);
      }
    }
  }

  lemma NextReading(m: MapModule, readings: seq<Reading>, n: nat)
    requires 0 < n <= |readings| && |ArrivalsIn(m, readings, n - 1)| == InBlock(m.block, readings, n - 1)
    ensures |ArrivalsIn(m, readings, n)| == InBlock(m.block, readings, n)
  {
  }

  lemma InPlaceLater(m: MapModule, readings: seq<Reading>, n: nat, j: nat)
    requires j < n <= |readings| && m.block.lo <= readings[j].chan <= m.block.hi
    requires j < n - 1 ==> InPlace(m, readings, n - 1, j)
    requires |ArrivalsIn(m, readings, n - 1)| == InBlock(m.block, readings, n - 1)
    ensures InPlace(m, readings, n, j)
  {
    hide IsDataOf, ElementOf, Data;
    ArrivalOf(m, readings[j]);
  }

  lemma ArrivalOf(m: MapModule, r: Reading)
    ensures IsDataOf(Arrival(ElementOf(m, r.chan), Data(m.block.signal, r.values)), m, r)
  {
  }

  /** How many readings have a channel of one of the first n blocks; blocks of reference times have none. */
  function InBlocks(modules: seq<MapModule>, event: Event, n: nat): nat
    requires n <= |modules|
  {
    if n == 0 then 0
    else
      var m, readings := modules[n - 1], ReadingsOf(event, modules[n - 1].block);
      InBlocks(modules, event, n - 1) + if m.block.plane < 1000 then InBlock(m.block, readings, |readings|) else 0
  }

  /** Of all blocks: those of one block after those of the blocks before it. */
  lemma {:induction false} ArrivalsAre(modules: seq<MapModule>, event: Event, n: nat)
    requires n <= |modules|
    ensures |Arrivals(modules, event, n)| == InBlocks(modules, event, n)
    ensures forall i, j ::
              0 <= i < n && modules[i].block.plane < 1000 && 0 <= j < |ReadingsOf(event, modules[i].block)|
              && modules[i].block.lo <= ReadingsOf(event, modules[i].block)[j].chan <= modules[i].block.hi ==>
                ArrivesAt(modules, event, n, i, j)
  {
    hide ArrivalsIn, ReadingsOf, ArrivesAt;
    if n > 0 {
      var m, readings := modules[n - 1], ReadingsOf(event, modules[n - 1].block);
      ArrivalsAre(modules, event, n - 1);
      ArrivalsInAre(m, readings, |readings|);
      forall i, j | 0 <= i < n && modules[i].block.plane < 1000 && 0 <= j < |ReadingsOf(event, modules[i].block)|
                    && modules[i].block.lo <= ReadingsOf(event, modules[i].block)[j].chan <= modules[i].block.hi
        ensures ArrivesAt(modules, event, n, i, j)
      {
        ArrivesLater(modules, event, n, i, j);
      }
    }
  }

  /** The data of reading j of block i are among the first n blocks' arrivals, in their place. */
  ghost predicate ArrivesAt(modules: seq<MapModule>, event: Event, n: nat, i: nat, j: nat)
    requires i < n <= |modules| && j < |ReadingsOf(event, modules[i].block)|
  {
    var readings := ReadingsOf(event, modules[i].block);
    var at := InBlocks(modules, event, i) + InBlock(modules[i].block, readings, j);
    at < |Arrivals(modules, event, n)| && IsDataOf(Arrivals(modules, event, n)[at], modules[i], readings[j])
  }

  lemma ArrivesLater(modules: seq<MapModule>, event: Event, n: nat, i: nat, j: nat)
    requires i < n <= |modules| && modules[i].block.plane < 1000 && j < |ReadingsOf(event, modules[i].block)|
    requires modules[i].block.lo <= ReadingsOf(event, modules[i].block)[j].chan <= modules[i].block.hi
    requires i < n - 1 ==> ArrivesAt(modules, event, n - 1, i, j)
    requires |Arrivals(modules, event, n - 1)| == InBlocks(modules, event, n - 1)
    ensures ArrivesAt(modules, event, n, i, j)
  {
    hide ReadingsOf, ArrivalsIn, InBlock, IsDataOf;
    if i == n - 1 {
      var readings := ReadingsOf(event, modules[i].block);
      ArrivalsInAre(modules[i], readings, |readings|);
      assert InPlace(modules[i], readings, |readings|, j);
    }
  }

  // ---- collecting the data per element ---------------------------------------------------------------

  function KeyOf(h: RawHit): Key {
    Key(h.plane, h.counter)
  }

  /** The place of the element in the list, or the length of the list. */
  function Find(hits: seq<RawHit>, key: Key): (k: nat)
    ensures k <= |hits|
    ensures k < |hits| ==> KeyOf(hits[k]) == key
    ensures forall j :: 0 <= j < k ==> KeyOf(hits[j]) != key
  {
    if hits == [] || KeyOf(hits[0]) == key then 0 else 1 + Find(hits[1..], key)
  }

  function Add(hits: seq<RawHit>, a: Arrival): seq<RawHit> {
    var k := Find(hits, a.key);
    if k < |hits| then hits[k := hits[k].(data := hits[k].data + a.data)]
    else hits + [RawHit(a.key.plane, a.key.counter, a.data)]
  }

  function Collected(arrivals: seq<Arrival>): seq<RawHit> {
    if arrivals == [] then [] else Add(Collected(arrivals[..|arrivals| - 1]), arrivals[|arrivals| - 1])
  }

  /** All data that arrived for an element, in order. */
  function DataFor(arrivals: seq<Arrival>, key: Key): seq<Datum> {
    if arrivals == [] then []
    else
      var before, last := DataFor(arrivals[..|arrivals| - 1], key), arrivals[|arrivals| - 1];
      if last.key == key then before + last.data else before
  }

  predicate KeysDiffer(hits: seq<RawHit>) {
    forall i, j :: 0 <= i < j < |hits| ==> KeyOf(hits[i]) != KeyOf(hits[j])
  }

  ghost predicate Arrived(arrivals: seq<Arrival>, key: Key) {
    exists k :: 0 <= k < |arrivals| && arrivals[k].key == key
  }

  ghost predicate Present(hits: seq<RawHit>, key: Key) {
    exists i :: 0 <= i < |hits| && KeyOf(hits[i]) == key
  }

  /** The hit holds all the data of its element. */
  ghost predicate Complete(h: RawHit, arrivals: seq<Arrival>) {
    h.data == DataFor(arrivals, KeyOf(h)) && Arrived(arrivals, KeyOf(h))
  }

  /** Every hit is complete, no element has two, and every element with data has one. */
  ghost predicate OneHitEach(hits: seq<RawHit>, arrivals: seq<Arrival>) {
    && KeysDiffer(hits)
    && (forall i :: 0 <= i < |hits| ==> Complete(hits[i], arrivals))
    && forall k :: 0 <= k < |arrivals| ==> Present(hits, arrivals[k].key)
  }

  lemma {:induction false} NoDataFor(arrivals: seq<Arrival>, key: Key)
    requires !Arrived(arrivals, key)
    ensures DataFor(arrivals, key) == []
  {
    if arrivals != [] {
      NoDataFor(arrivals[..|arrivals| - 1], key);
    }
  }

  lemma OneMoreArrival(before: seq<Arrival>, a: Arrival, key: Key)
    ensures DataFor(before + [a], key) == if a.key == key then DataFor(before, key) + a.data else DataFor(before, key)
    ensures Arrived(before + [a], key) <==> (Arrived(before, key) || a.key == key)
  {
    assert (before + [a])[..|before|] == before;
    if Arrived(before, key) {
      var k :| 0 <= k < |before| && before[k].key == key;
      assert (before + [a])[k].key == key;
    } else if a.key == key {
      assert (before + [a])[|before|].key == key;
    }
  }

  /** What arrives for an element comes right after all that arrived for it before. */
  lemma {:induction false} ArrivesInOrder(arrivals: seq<Arrival>, k: nat)
    requires k < |arrivals|
    ensures var key := arrivals[k].key;
            DataFor(arrivals[..k], key) + arrivals[k].data <= DataFor(arrivals, key)
  {
    var front := arrivals[..|arrivals| - 1];
    if k == |front| {
      assert arrivals[..k] == front;
    } else {
      ArrivesInOrder(front, k);
      assert front[..k] == arrivals[..k];
    }
  }

  lemma ArrivedIsPresent(hits: seq<RawHit>, arrivals: seq<Arrival>, key: Key)
    requires OneHitEach(hits, arrivals)
    ensures Arrived(arrivals, key) ==> Present(hits, key)
  {
  }

  /** The list after a hit was completed, or a new one added, at place k. */
  lemma AddedHit(hits: seq<RawHit>, before: seq<Arrival>, a: Arrival, k: nat)
    requires OneHitEach(hits, before) && k == Find(hits, a.key)
    ensures k < |Add(hits, a)| && KeyOf(Add(hits, a)[k]) == a.key && Complete(Add(hits, a)[k], before + [a])
  {
    OneMoreArrival(before, a, a.key);
    if k == |hits| {
      ArrivedIsPresent(hits, before, a.key);
      NoDataFor(before, a.key);
    } else {
      assert Complete(hits[k], before);
    }
  }

  lemma AddedOne(hits: seq<RawHit>, before: seq<Arrival>, a: Arrival)
    requires OneHitEach(hits, before)
    ensures OneHitEach(Add(hits, a), before + [a])
  {
    var after, all, k := Add(hits, a), before + [a], Find(hits, a.key);
    AddedHit(hits, before, a, k);
    hide Complete, Find, DataFor;
    forall i | 0 <= i < |after| && i != k ensures Complete(after[i], all) {
      assert Complete(hits[i], before) && after[i] == hits[i];
      StillComplete(hits[i], before, a);
    }
    hide Add;
    forall j | 0 <= j < |all| ensures Present(after, all[j].key) {
      if j < |before| {
        assert Present(hits, before[j].key);
        var i :| 0 <= i < |hits| && KeyOf(hits[i]) == before[j].key;
        assert KeyOf(after[i]) == all[j].key;
      } else {
        assert KeyOf(after[k]) == all[j].key;
      }
    }
  }

  lemma StillComplete(h: RawHit, before: seq<Arrival>, a: Arrival)
    requires Complete(h, before) && KeyOf(h) != a.key
    ensures Complete(h, before + [a])
  {
    OneMoreArrival(before, a, KeyOf(h));
  }

  lemma {:induction false} CollectedOneEach(arrivals: seq<Arrival>)
    ensures OneHitEach(Collected(arrivals), arrivals)
  {
    if arrivals != [] {
      var front, last := arrivals[..|arrivals| - 1], arrivals[|arrivals| - 1];
      CollectedOneEach(front);
      AddedOne(Collected(front), front, last);
      assert front + [last] == arrivals;
    }
  }

  // ---- order --------------------------------------------------------------------------------------------

  function Compare(a: RawHit, b: RawHit): int {
    var dp := a.plane - b.plane;
    if dp == 0 then
      var dc := a.counter - b.counter;
      if dc < 0 then -1 else if dc > 0 then 1 else 0
    else if dp < 0 then -1
    else 1
  }

  predicate Increasing(hits: seq<RawHit>) {
    forall i, j :: 0 <= i < j < |hits| ==> Compare(hits[i], hits[j]) < 0
  }

  /** Lower planes first, and in a plane lower counters. */
  predicate ComesBefore(a: RawHit, b: RawHit) {
    a.plane < b.plane || (a.plane == b.plane && a.counter < b.counter)
  }

  lemma IncreasingIs(hits: seq<RawHit>)
    ensures Increasing(hits) <==> forall i, j :: 0 <= i < j < |hits| ==> ComesBefore(hits[i], hits[j])
  {
  }

  predicate NotAfter(a: RawHit, b: RawHit) {
    Compare(a, b) <= 0
  }

  predicate OtherKey(a: RawHit, b: RawHit) {
    KeyOf(a) != KeyOf(b)
  }

  lemma SortIncreasing(hits: seq<RawHit>)
    requires KeysDiffer(hits)
    ensures Increasing(Sort(hits, NotAfter))
  {
    SortOrders(hits, NotAfter);
    SortPairwise(hits, NotAfter, OtherKey);
    hide Sort;
    var sorted := Sort(hits, NotAfter);
    forall i, j | 0 <= i < j < |sorted| ensures Compare(sorted[i], sorted[j]) < 0 {
      assert NotAfter(sorted[i], sorted[j]) && OtherKey(sorted[i], sorted[j]);
    }
  }

  // ---- the decoder ----------------------------------------------------------------------------------------

  /** What the lookup table holds for a list of hits. */
  ghost predicate Indexed(lookup: map<Key, nat>, hits: seq<RawHit>) {
    && (forall i :: 0 <= i < |hits| ==> KeyOf(hits[i]) in lookup && lookup[KeyOf(hits[i])] == i)
    && forall key <- lookup :: lookup[key] < |hits| && KeyOf(hits[lookup[key]]) == key
  }

  /** The flag that is kept while hits are added: the last hit in order, and whether all are. */
  ghost predicate FlagRight(hits: seq<RawHit>, sorted: bool, prev: int) {
    && (sorted <==> Increasing(hits))
    && (sorted ==> prev == |hits| - 1)
  }

  lemma CompareTransitive(a: RawHit, b: RawHit, c: RawHit)
    requires Compare(a, b) < 0 && Compare(b, c) < 0
    ensures Compare(a, c) < 0
  {
  }

  lemma FlagAdded(hits: seq<RawHit>, sorted: bool, prev: int, h: RawHit)
    requires FlagRight(hits, sorted, prev)
    ensures sorted && (prev >= 0 ==> Compare(hits[prev], h) < 0) ==> FlagRight(hits + [h], true, |hits|)
    ensures !(sorted && (prev >= 0 ==> Compare(hits[prev], h) < 0)) ==> FlagRight(hits + [h], false, prev)
  {
    var after := hits + [h];
    if sorted && (prev >= 0 ==> Compare(hits[prev], h) < 0) {
      forall i, j | 0 <= i < j < |after| ensures Compare(after[i], after[j]) < 0 {
        if j == |hits| && i < prev {
          CompareTransitive(hits[i], hits[prev], h);
        }
      }
    } else if sorted {
      assert !(Compare(after[prev], after[|hits|]) < 0);
    } else {
      var i, j :| 0 <= i < j < |hits| && !(Compare(hits[i], hits[j]) < 0);
      assert !(Compare(after[i], after[j]) < 0);
    }
  }

  class Decoder {
    const fdMap: seq<MapModule>
    var rawHits: seq<RawHit>
    var hitLookup: map<Key, nat>
    var prevRawHit: int
    var sorted: bool

    constructor (fdMap: seq<MapModule>)
      ensures this.fdMap == fdMap
    {
      this.fdMap := fdMap;
      rawHits, hitLookup, prevRawHit, sorted := [], map[], -1, true;
    }

    /** While hits are added the lookup table and the flag agree with the list. */
    ghost predicate Valid()
      reads this
    {
      Indexed(hitLookup, rawHits) && FlagRight(rawHits, sorted, prevRawHit)
    }

    /** The data of one channel. */
    method AddChannel(key: Key, data: seq<Datum>)
      requires Valid()
      modifies this
      ensures Valid() && rawHits == Add(old(rawHits), Arrival(key, data))
    {
      LookupIsFind(hitLookup, rawHits, key);
      if key in hitLookup {
        var k := hitLookup[key];
        SameKeys(rawHits, k, rawHits[k].data + data, sorted, prevRawHit, hitLookup);
        rawHits := rawHits[k := rawHits[k].(data := rawHits[k].data + data)];
      } else {
        var rawhit := RawHit(key.plane, key.counter, data);
        FlagAdded(rawHits, sorted, prevRawHit, rawhit);
        hitLookup := hitLookup[key := |rawHits|];
        if sorted {
          if prevRawHit >= 0 && Compare(rawHits[prevRawHit], rawhit) >= 0 {
            sorted := false;
          } else {
            prevRawHit := |rawHits|;
          }
        }
        rawHits := rawHits + [rawhit];
      }
    }

    /** All channels of one block that have data. */
    method AddModule(m: MapModule, event: Event, ghost arrivals: seq<Arrival>)
      requires Valid() && rawHits == Collected(arrivals)
      modifies this
      ensures Valid()
      ensures var readings := ReadingsOf(event, m.block);
              rawHits == Collected(arrivals + if m.block.plane >= FIRST_REFERENCE then []
                                              else ArrivalsIn(m, readings, |readings|))
    {
      var d := m.block;
      if d.plane >= FIRST_REFERENCE {
        assert arrivals + [] == arrivals;
        return;
      }
      var readings := ReadingsOf(event, d);
      assert arrivals + ArrivalsIn(m, readings, 0) == arrivals;
      for j := 0 to |readings|
        invariant Valid() && rawHits == Collected(arrivals + ArrivalsIn(m, readings, j))
      {
        hide Collected, ReadingsOf, Valid;
        ReadingAdds(arrivals, m, readings, j);
        AddReading(m, readings[j]);
      }
    }

    /** The data of one channel, if it is one of the block's. */
    method AddReading(m: MapModule, r: Reading)
      requires Valid()
      modifies this
      ensures Valid() && rawHits == AfterReading(old(rawHits), m, r)
    {
      var d := m.block;
      if r.chan < d.lo || r.chan > d.hi {
        return;
      }
      var counter := if m.reverse then d.first + d.hi - r.chan else CounterOf(d, r.chan);
      AddChannel(Key(d.plane, counter), Data(d.signal, r.values));
    }

    /** All blocks of the map. */
    method CollectHits(event: Event)
      modifies this
      ensures Valid() && rawHits == Collected(Arrivals(fdMap, event, |fdMap|))
    {
      hide Collected, Arrivals;
      rawHits, hitLookup, prevRawHit, sorted := [], map[], -1, true;
      NothingYet(fdMap, event);
      for i := 0 to |fdMap|
        invariant Valid() && rawHits == Collected(Arrivals(fdMap, event, i))
      {
        AddBlock(i, event);
      }
    }

    method AddBlock(i: nat, event: Event)
      requires Valid() && i < |fdMap| && rawHits == Collected(Arrivals(fdMap, event, i))
      modifies this
      ensures Valid() && rawHits == Collected(Arrivals(fdMap, event, i + 1))
    {
      hide Valid, Collected, Arrivals, ReadingsOf, ArrivalsIn;
      AddModule(fdMap[i], event, Arrivals(fdMap, event, i));
      NoMore(fdMap, event, i);
    }

    /** The raw hits of an event. */
    method DecodeToHitList(event: Event) returns (nRawHits: nat)
      modifies this
      ensures nRawHits == |rawHits| && Increasing(rawHits)
      ensures forall i, j :: 0 <= i < j < |rawHits| ==> ComesBefore(rawHits[i], rawHits[j])
      ensures OneHitEach(rawHits, Arrivals(fdMap, event, |fdMap|))
    {
      CollectHits(event);
      CollectedOneEach(Arrivals(fdMap, event, |fdMap|));
      SortIncreasing(rawHits);
      SortedOneEach(rawHits, Arrivals(fdMap, event, |fdMap|));
      hide Collected, Arrivals, OneHitEach, Increasing, Sort;
      if !sorted {
        rawHits := Sort(rawHits, NotAfter);
      }
      IncreasingIs(rawHits);
      nRawHits := |rawHits|;
    }
  }

  lemma NothingYet(modules: seq<MapModule>, event: Event)
    ensures Collected(Arrivals(modules, event, 0)) == []
  {
  }

  lemma LookupIsFind(lookup: map<Key, nat>, hits: seq<RawHit>, key: Key)
    requires Indexed(lookup, hits)
    ensures if key in lookup then lookup[key] == Find(hits, key) < |hits| else Find(hits, key) == |hits|
  {
    var k := Find(hits, key);
    if k < |hits| {
      assert KeyOf(hits[k]) in lookup;
    }
  }

  /** Adding data to a hit changes nothing in the order or the lookup. */
  lemma SameKeys(hits: seq<RawHit>, k: nat, data: seq<Datum>, sorted: bool, prev: int, lookup: map<Key, nat>)
    requires k < |hits| && Indexed(lookup, hits) && FlagRight(hits, sorted, prev)
    ensures var after := hits[k := hits[k].(data := data)]; Indexed(lookup, after) && FlagRight(after, sorted, prev)
  {
    var after := hits[k := hits[k].(data := data)];
    forall i | 0 <= i < |hits| ensures KeyOf(after[i]) == KeyOf(hits[i]) {
    }
    assert Increasing(after) <==> Increasing(hits);
  }

  lemma CollectedNext(arrivals: seq<Arrival>, a: Arrival)
    ensures Collected(arrivals + [a]) == Add(Collected(arrivals), a)
  {
    assert (arrivals + [a])[..|arrivals|] == arrivals;
  }

  function AfterReading(hits: seq<RawHit>, m: MapModule, r: Reading): seq<RawHit> {
    if r.chan < m.block.lo || r.chan > m.block.hi then hits
    else Add(hits, Arrival(ElementOf(m, r.chan), Data(m.block.signal, r.values)))
  }

  lemma ReadingAdds(arrivals: seq<Arrival>, m: MapModule, readings: seq<Reading>, j: nat)
    requires j < |readings|
    ensures Collected(arrivals + ArrivalsIn(m, readings, j + 1))
            == AfterReading(Collected(arrivals + ArrivalsIn(m, readings, j)), m, readings[j])
  {
    var before, r := arrivals + ArrivalsIn(m, readings, j), readings[j];
    if !(r.chan < m.block.lo || r.chan > m.block.hi) {
      var a := Arrival(ElementOf(m, r.chan), Data(m.block.signal, r.values));
      assert arrivals + ArrivalsIn(m, readings, j + 1) == before + [a];
      CollectedNext(before, a);
    }
  }

  lemma NoMore(modules: seq<MapModule>, event: Event, i: nat)
    requires i < |modules|
    ensures var m := modules[i];
            Arrivals(modules, event, i + 1)
            == Arrivals(modules, event, i)
               + if m.block.plane >= FIRST_REFERENCE then []
                 else ArrivalsIn(m, ReadingsOf(event, m.block), |ReadingsOf(event, m.block)|)
  {
  }

  lemma SortedOneEach(hits: seq<RawHit>, arrivals: seq<Arrival>)
    requires OneHitEach(hits, arrivals)
    ensures OneHitEach(Sort(hits, NotAfter), arrivals)
  {
    var after := Sort(hits, NotAfter);
    SortKeeps(hits, NotAfter);
    SortIncreasing(hits);
    hide Sort, Complete, Find, Increasing, KeysDiffer;
    forall i | 0 <= i < |after| ensures Complete(after[i], arrivals) {
      assert after[i] in multiset(hits);
    }
    forall k | 0 <= k < |arrivals| ensures Present(after, arrivals[k].key) {
      assert Present(hits, arrivals[k].key);
      var i :| 0 <= i < |hits| && KeyOf(hits[i]) == arrivals[k].key;
      assert hits[i] in multiset(after);
    }
    IncreasingDiffer(after);
  }

  lemma IncreasingDiffer(hits: seq<RawHit>)
    requires Increasing(hits)
    ensures KeysDiffer(hits)
  {
    forall i, j | 0 <= i < j < |hits| ensures KeyOf(hits[i]) != KeyOf(hits[j]) {
      assert Compare(hits[i], hits[j]) < 0;
    }
  }

  // ---- the map and the decoder ------------------------------------------------------------------------------

  /** The block's channel is this wire, and the decoder gives it the wire's element and signal. */
  predicate DecodesTo(b: Block, w: Wire) {
    && b.roc == w.roc && b.slot == w.slot && b.lo <= w.chan.channel <= b.hi
    && ElementOf(MapModule(b, false), w.chan.channel) == Key(w.chan.plane, w.chan.counter)
    && b.signal == w.chan.signal && b.refchan == w.chan.refchan && b.refindex == w.chan.refindex
  }

  ghost predicate Decoded(bs: seq<Block>, w: Wire) {
    exists i :: 0 <= i < |bs| && DecodesTo(bs[i], w)
  }

  lemma {:induction false} ExpandedIsDecoded(bs: seq<Block>, w: Wire)
    ensures w in ExpandAll(bs) <==> Decoded(bs, w)
  {
    if bs != [] {
      var front, last := bs[..|bs| - 1], bs[|bs| - 1];
      ExpandedIsDecoded(front, w);
      BlockDecodes(last, w);
      hide Expand, DecodesTo;
      assert bs == front + [last];
      if Decoded(front, w) {
        var i :| 0 <= i < |front| && DecodesTo(front[i], w);
        assert DecodesTo(bs[i], w);
      } else if DecodesTo(last, w) {
        assert DecodesTo(bs[|front|], w);
      }
    }
  }

  lemma BlockDecodes(b: Block, w: Wire)
    ensures w in Expand(b) <==> DecodesTo(b, w)
  {
    if DecodesTo(b, w) {
      assert Expand(b)[w.chan.channel - b.lo] == w;
    }
  }

  /** Decoding with the blocks undoes their making: a channel goes to an element exactly when the table says so. */
  lemma DecodingUndoesFilling(table: seq<Entry>, did: int, bs: seq<Block>, w: Wire)
    requires Faithful(table, did, bs)
    ensures Decoded(bs, w) <==> exists e :: e in table && e.did == did && WireOf(e) == w
  {
    ExpandedIsDecoded(bs, w);
    assert w in multiset(ExpandAll(bs)) <==> w in multiset(Selected(table, did));
    SelectedAre(table, did, w);
  }

  lemma {:induction false} SelectedAre(table: seq<Entry>, did: int, w: Wire)
    ensures w in Selected(table, did) <==> exists e :: e in table && e.did == did && WireOf(e) == w
  {
    if table != [] {
      var front, last := table[..|table| - 1], table[|table| - 1];
      SelectedAre(front, did, w);
      assert table == front + [last];
    }
  }
}
