/** Which blocks of a detector's map could be joined: none when no channel of a module is entered twice. */
module MapJoins {
  import opened Sorting
  import opened DetectorMap

  // ---- distinct channels -------------------------------------------------------------------------------

  predicate SameChannel(w: Wire, v: Wire) {
    w.roc == v.roc && w.slot == v.slot && w.chan.channel == v.chan.channel
  }

  predicate DistinctChannels(wires: seq<Wire>) {
    forall p, q :: 0 <= p < q < |wires| ==> !SameChannel(wires[p], wires[q])
  }

  lemma {:induction false} OnceOnly(wires: seq<Wire>, w: Wire)
    requires DistinctChannels(wires)
    ensures multiset(wires)[w] <= 1
  {
    if wires != [] {
      var front, last := wires[..|wires| - 1], wires[|wires| - 1];
      OnceOnly(front, w);
      assert wires == front + [last];
      forall p | 0 <= p < |front| ensures front[p] != last {
        assert !SameChannel(wires[p], wires[|front|]);
      }
      assert last !in front;
    }
  }

  lemma TwiceIn(wires: seq<Wire>, p: nat, q: nat)
    requires p < q < |wires| && wires[p] == wires[q]
    ensures multiset(wires)[wires[p]] >= 2
  {
    assert wires == wires[..q] + wires[q..];
    assert wires[..q][p] in multiset(wires[..q]) && wires[q..][0] in multiset(wires[q..]);
  }

  lemma PlaceIn(wires: seq<Wire>, w: Wire) returns (p: nat)
    requires w in wires
    ensures p < |wires| && wires[p] == w
  {
    p :| 0 <= p < |wires| && wires[p] == w;
  }

  /** Distinct channels stay distinct in any order. */
  lemma StillDistinct(before: seq<Wire>, after: seq<Wire>)
    requires multiset(before) == multiset(after) && DistinctChannels(before)
    ensures DistinctChannels(after)
  {
    forall p: nat, q: nat | p < q < |after| ensures !SameChannel(after[p], after[q]) {
      if after[p] == after[q] {
        TwiceIn(after, p, q);
        OnceOnly(before, after[p]);
        assert false;
      } else {
        assert after[p] in multiset(before) && after[q] in multiset(before);
        var i := PlaceIn(before, after[p]);
        var j := PlaceIn(before, after[q]);
        assert !SameChannel(before[i], before[j]) by {
          assert i < j ==> !SameChannel(before[i], before[j]);
          assert j < i ==> !SameChannel(before[j], before[i]);
        }
      }
    }
  }

  lemma {:induction false} InExpansion(bs: seq<Block>, a: nat, channel: int)
    requires a < |bs| && bs[a].lo <= channel <= bs[a].hi
    ensures Wire(bs[a].roc, bs[a].slot, ChanOf(bs[a], channel)) in ExpandAll(bs)
  {
    hide ChanOf;
    var last := |bs| - 1;
    if a < last {
      InExpansion(bs[..last], a, channel);
    } else {
      assert Expand(bs[a])[channel - bs[a].lo] == Wire(bs[a].roc, bs[a].slot, ChanOf(bs[a], channel));
    }
  }

  /** With distinct channels no block ends where a later one of its module starts. */
  lemma EndsBefore(bs: seq<Block>, a: nat, b: nat)
    requires a < b < |bs| && bs[a].lo <= bs[a].hi && bs[b].lo <= bs[b].hi && SameModule(bs[a], bs[b])
    requires DistinctChannels(ExpandAll(bs))
    ensures bs[a].hi != bs[b].lo
  {
    hide ExpandAll, DistinctChannels;
    var front, back := bs[..b], bs[b..];
    assert front + back == bs && front[a] == bs[a] && back[0] == bs[b];
    ExpandAllConcat(front, back);
    InExpansion(front, a, bs[a].hi);
    InExpansion(back, 0, bs[b].lo);
    var p := PlaceIn(ExpandAll(front), Wire(bs[a].roc, bs[a].slot, LastChan(bs[a])));
    var q := PlaceIn(ExpandAll(back), Wire(bs[b].roc, bs[b].slot, FirstChan(bs[b])));
    DistinctAcross(ExpandAll(front), ExpandAll(back), p, q);
  }

  lemma DistinctAcross(front: seq<Wire>, back: seq<Wire>, p: nat, q: nat)
    requires DistinctChannels(front + back) && p < |front| && q < |back|
    ensures !SameChannel(front[p], back[q])
  {
    assert !SameChannel((front + back)[p], (front + back)[|front| + q]);
  }

  /**
   When no channel of a module is entered twice for the detector, no two blocks at all can be joined:
   there are as few as possible.
   */
  lemma NothingJoins(table: seq<Entry>, did: int, bs: seq<Block>, i: nat, j: nat)
    requires Faithful(table, did, bs) && Ascending(bs) && Together(bs) && DistinctChannels(Selected(table, did))
    requires i < |bs| && j < |bs| && i != j && SameModule(bs[i], bs[j])
    ensures !Continues(LastChan(bs[i]), FirstChan(bs[j]))
  {
    hide ExpandAll, Selected, DistinctChannels;
    StillDistinct(Selected(table, did), ExpandAll(bs));
    if i < j && j != i + 1 {
      assert SameModule(bs[i], bs[i + 1]);
      EndsBefore(bs, i, i + 1);
      EndsBefore(bs, i + 1, j);
    }
  }

  // ---- in a module's list ---------------------------------------------------------------------------------

  /** The channel after it, if there is one, does not carry on. */
  predicate EndsRun(clist: seq<Chan>, p: int)
    requires 0 <= p < |clist|
  {
    p == |clist| - 1 || !Continues(clist[p], clist[p + 1])
  }

  /** It does not carry on the channel before it. */
  predicate StartsRun(clist: seq<Chan>, q: int)
    requires 0 <= q < |clist|
  {
    q == 0 || !Continues(clist[q - 1], clist[q])
  }

  /** The end of one run of channels and the start of another that carries it on. */
  predicate RunsMeet(clist: seq<Chan>, p: int, q: int) {
    && 0 <= p < |clist| && 0 <= q < |clist|
    && Continues(clist[p], clist[q]) && EndsRun(clist, p) && StartsRun(clist, q)
  }

  /** The block ends where the other one starts. */
  predicate CanJoin(a: Block, b: Block) {
    SameModule(a, b) && Continues(LastChan(a), FirstChan(b))
  }

  ghost predicate SomeJoin(bs: seq<Block>) {
    exists i, j :: 0 <= i < |bs| && 0 <= j < |bs| && CanJoin(bs[i], bs[j])
  }

  ghost predicate SomeMeet(lists: seq<ModuleList>) {
    exists k, p, q :: 0 <= k < |lists| && RunsMeet(lists[k].clist, p, q)
  }

  /** The number of channels before block i. */
  function Before(bs: seq<Block>, i: nat): nat
    requires i <= |bs|
  {
    |ExpandAll(bs[..i])|
  }

  /** The blocks stand for the channels in their order, and none can be joined with the next. */
  ghost predicate Compressed(m: ModuleList, bs: seq<Block>) {
    ExpandAll(bs) == WiresOf(m) && AllOf(bs, m.roc, m.slot) && Maximal(bs)
  }

  lemma DoneCompressed(m: ModuleList, bs: seq<Block>)
    requires ModuleDone(m, bs)
    ensures Compressed(m, bs)
  {
  }

  /** The channels of a block have their places in the list. */
  lemma BlockAt(m: ModuleList, bs: seq<Block>, i: nat)
    requires Compressed(m, bs) && i < |bs|
    ensures var a, b := Before(bs, i), bs[i];
            && b.lo <= b.hi && Before(bs, i + 1) == a + b.hi - b.lo + 1 <= |m.clist|
            && forall p :: a <= p <= a + b.hi - b.lo ==> m.clist[p] == ChanOf(b, b.lo + (p - a))
  {
    hide Maximal, ChanOf;
    var front, a, b := bs[..i + 1], Before(bs, i), bs[i];
    assert front + bs[i + 1..] == bs && front[..i] == bs[..i];
    ExpandAllConcat(front, bs[i + 1..]);
    assert ExpandAll(front) == ExpandAll(bs[..i]) + Expand(b);
    hide ExpandAll;
    forall p | a <= p <= a + b.hi - b.lo ensures m.clist[p] == ChanOf(b, b.lo + (p - a)) {
      assert WiresOf(m)[p] == Expand(b)[p - a];
    }
  }

  lemma AllChannels(m: ModuleList, bs: seq<Block>)
    requires Compressed(m, bs)
    ensures Before(bs, 0) == 0 && Before(bs, |bs|) == |m.clist|
  {
    hide Maximal;
    assert bs[..|bs|] == bs;
  }

  /** The block that has a place of the list. */
  lemma {:induction false} BlockOfPlace(m: ModuleList, bs: seq<Block>, p: nat, n: nat) returns (i: nat)
    requires Compressed(m, bs) && n <= |bs| && p < Before(bs, n)
    ensures i < n && Before(bs, i) <= p < Before(bs, i + 1)
  {
    hide Compressed, Before;
    if n == 0 {
      AllChannels(m, bs);
      assert false;
    } else if p >= Before(bs, n - 1) {
      i := n - 1;
    } else {
      i := BlockOfPlace(m, bs, p, n - 1);
    }
  }

  /** A block begins and ends with a run. */
  lemma BlockIsRun(m: ModuleList, bs: seq<Block>, i: nat)
    requires Compressed(m, bs) && i < |bs|
    ensures var first, last := Before(bs, i), Before(bs, i + 1) - 1;
            && 0 <= first <= last < |m.clist|
            && m.clist[first] == FirstChan(bs[i]) && StartsRun(m.clist, first)
            && m.clist[last] == LastChan(bs[i]) && EndsRun(m.clist, last)
  {
    hide Before, Continues, ExpandAll;
    AllChannels(m, bs);
    BlockAt(m, bs, i);
    if i > 0 {
      BlockAt(m, bs, i - 1);
      assert !Continues(LastChan(bs[i - 1]), FirstChan(bs[i]));
    }
    if i + 1 < |bs| {
      BlockAt(m, bs, i + 1);
      assert !Continues(LastChan(bs[i]), FirstChan(bs[i + 1]));
    }
  }

  lemma NextInBlock(m: ModuleList, bs: seq<Block>, i: nat, p: nat)
    requires Compressed(m, bs) && i < |bs| && Before(bs, i) <= p < Before(bs, i + 1) - 1
    ensures p + 1 < |m.clist| && Continues(m.clist[p], m.clist[p + 1])
  {
    hide Compressed, Before;
    BlockAt(m, bs, i);
  }

  /** Where a run ends a block ends ... */
  lemma RunEndsBlock(m: ModuleList, bs: seq<Block>, p: nat) returns (i: nat)
    requires Compressed(m, bs) && p < |m.clist| && EndsRun(m.clist, p)
    ensures i < |bs| && m.clist[p] == LastChan(bs[i])
  {
    hide Before, Continues, Compressed, ChanOf;
    AllChannels(m, bs);
    i := BlockOfPlace(m, bs, p, |bs|);
    BlockIsRun(m, bs, i);
    if p < Before(bs, i + 1) - 1 {
      NextInBlock(m, bs, i, p);
    }
  }

  /** ... and where one starts a block starts. */
  lemma RunStartsBlock(m: ModuleList, bs: seq<Block>, q: nat) returns (i: nat)
    requires Compressed(m, bs) && q < |m.clist| && StartsRun(m.clist, q)
    ensures i < |bs| && m.clist[q] == FirstChan(bs[i])
  {
    hide Before, Continues, Compressed, ChanOf;
    AllChannels(m, bs);
    i := BlockOfPlace(m, bs, q, |bs|);
    BlockIsRun(m, bs, i);
    if q > Before(bs, i) {
      NextInBlock(m, bs, i, q - 1);
    }
  }

  /** Two blocks of a module can be joined exactly when the end and the start of two of its runs meet. */
  lemma JoinableIff(m: ModuleList, bs: seq<Block>)
    requires Compressed(m, bs)
    ensures SomeJoin(bs) <==> exists p, q :: RunsMeet(m.clist, p, q)
  {
    hide Continues, Compressed, LastChan, FirstChan, Before;
    AllSame(m, bs);
    if i: nat, j: nat :| i < |bs| && j < |bs| && CanJoin(bs[i], bs[j]) {
      BlockIsRun(m, bs, i);
      BlockIsRun(m, bs, j);
      assert RunsMeet(m.clist, Before(bs, i + 1) - 1, Before(bs, j));
    }
    if p: nat, q: nat :| RunsMeet(m.clist, p, q) {
      var i := RunEndsBlock(m, bs, p);
      var j := RunStartsBlock(m, bs, q);
      assert CanJoin(bs[i], bs[j]);
    }
  }

  lemma AllSame(m: ModuleList, bs: seq<Block>)
    requires Compressed(m, bs)
    ensures forall i, j :: 0 <= i < |bs| && 0 <= j < |bs| ==> SameModule(bs[i], bs[j])
    ensures forall i :: 0 <= i < |bs| ==> bs[i].roc == m.roc && bs[i].slot == m.slot
  {
    hide ExpandAll, Maximal;
  }

  // ---- the only blocks there are --------------------------------------------------------------------------

  /** Blocks of the same channels agree up to the first, and then in the one after it. */
  lemma {:induction false} SameBlocks(m: ModuleList, bs: seq<Block>, cs: seq<Block>, n: nat)
    requires Compressed(m, bs) && Compressed(m, cs) && n <= |bs|
    ensures n <= |cs| && Before(bs, n) == Before(cs, n)
    ensures forall i :: 0 <= i < n ==> bs[i] == cs[i].(model := bs[i].model)
  {
    hide Compressed, Before;
    AllChannels(m, bs);
    AllChannels(m, cs);
    if n > 0 {
      SameBlocks(m, bs, cs, n - 1);
      BlockIsRun(m, bs, n - 1);
      RoomForMore(m, cs, n - 1);
      BlockIsRun(m, cs, n - 1);
      var i, last, other := n - 1, Before(bs, n) - 1, Before(cs, n) - 1;
      if last < other {
        NextInBlock(m, cs, i, last);
      } else if other < last {
        NextInBlock(m, bs, i, other);
      }
      AllSame(m, bs);
      AllSame(m, cs);
      SameEnds(bs[i], cs[i]);
    }
  }

  lemma RoomForMore(m: ModuleList, cs: seq<Block>, n: nat)
    requires Compressed(m, cs) && n <= |cs| && Before(cs, n) < |m.clist|
    ensures n < |cs|
  {
    AllChannels(m, cs);
    hide Compressed, Before;
  }

  lemma SameEnds(a: Block, b: Block)
    requires SameModule(a, b) && FirstChan(a) == FirstChan(b) && LastChan(a) == LastChan(b)
    ensures a == b.(model := a.model)
  {
  }

  /** Maximal blocks for the channels in their order, with the module's model, are the ones that are made. */
  lemma OnlyBlocks(m: ModuleList, bs: seq<Block>)
    requires |m.clist| > 0 && Compressed(m, bs) && forall i :: 0 <= i < |bs| ==> bs[i].model == m.model
    ensures bs == BlocksOf(m)
  {
    hide Compressed, BlocksOf;
    BlocksDone(m);
    DoneCompressed(m, BlocksOf(m));
    SameBlocks(m, bs, BlocksOf(m), |bs|);
    SameBlocks(m, BlocksOf(m), bs, |BlocksOf(m)|);
    ModelKept(m, |m.clist|);
    BlocksAre(m);
  }

  lemma BlocksAre(m: ModuleList)
    ensures BlocksOf(m) == BlocksUpTo(m, |m.clist|)
  {
  }

  lemma {:induction false} ModelKept(m: ModuleList, n: nat)
    requires n <= |m.clist|
    ensures forall i :: 0 <= i < |BlocksUpTo(m, n)| ==> BlocksUpTo(m, n)[i].model == m.model
  {
    hide Continues;
    if n > 0 {
      ModelKept(m, n - 1);
    }
  }

  // ---- in the whole map -----------------------------------------------------------------------------------

  lemma {:induction false} ScanReaches(m: ModuleList, n: nat) returns (done: seq<Block>, b: Block)
    requires 0 < n <= |m.clist|
    ensures Scanned(m, n, done, b)
  {
    hide Scanned, Continues, NewBlock;
    if n == 1 {
      ScanStarts(m);
      done, b := [], NewBlock(m, m.clist[0]);
    } else {
      done, b := ScanReaches(m, n - 1);
      if Continues(LastChan(b), m.clist[n - 1]) {
        ScanContinues(m, n - 1, done, b);
        b := b.(hi := b.hi + 1);
      } else {
        ScanBreaks(m, n - 1, done, b);
        done, b := done + [b], NewBlock(m, m.clist[n - 1]);
      }
    }
  }

  lemma BlocksDone(m: ModuleList)
    requires |m.clist| > 0
    ensures ModuleDone(m, BlocksOf(m))
  {
    var done, b := ScanReaches(m, |m.clist|);
    ScanEnds(m, done, b);
    hide ExpandAll, Maximal, Ascending;
  }

  /** A block of the map belongs to one of the lists ... */
  lemma {:induction false} ListOfBlock(lists: seq<ModuleList>, i: nat) returns (k: nat, a: nat)
    requires i < |AllBlocks(lists)|
    ensures k < |lists| && a < |BlocksOf(lists[k])| && AllBlocks(lists)[i] == BlocksOf(lists[k])[a]
  {
    hide BlocksOf;
    var front := lists[..|lists| - 1];
    if i < |AllBlocks(front)| {
      k, a := ListOfBlock(front, i);
    } else {
      k, a := |lists| - 1, i - |AllBlocks(front)|;
    }
  }

  /** ... and every block of a list is in the map. */
  lemma {:induction false} BlockInMap(lists: seq<ModuleList>, k: nat, a: nat) returns (i: nat)
    requires k < |lists| && a < |BlocksOf(lists[k])|
    ensures i < |AllBlocks(lists)| && AllBlocks(lists)[i] == BlocksOf(lists[k])[a]
  {
    hide BlocksOf;
    var front := lists[..|lists| - 1];
    if k < |lists| - 1 {
      i := BlockInMap(front, k, a);
    } else {
      i := |AllBlocks(front)| + a;
    }
  }

  lemma ListCompressed(lists: seq<ModuleList>, k: nat)
    requires Grouped(lists) && k < |lists|
    ensures Compressed(lists[k], BlocksOf(lists[k]))
  {
    BlocksDone(lists[k]);
    DoneCompressed(lists[k], BlocksOf(lists[k]));
  }

  /** Two blocks of the lists' map can be joined exactly when runs of one of the lists meet. */
  lemma AllJoinableIff(lists: seq<ModuleList>)
    requires Grouped(lists)
    ensures SomeJoin(AllBlocks(lists)) <==> SomeMeet(lists)
  {
    hide AllBlocks, BlocksOf, Continues, Compressed, LastChan, FirstChan, RunsMeet;
    var bs := AllBlocks(lists);
    if i: nat, j: nat :| i < |bs| && j < |bs| && CanJoin(bs[i], bs[j]) {
      var k, a := ListOfBlock(lists, i);
      var l, b := ListOfBlock(lists, j);
      ListCompressed(lists, k);
      ListCompressed(lists, l);
      AllSame(lists[k], BlocksOf(lists[k]));
      AllSame(lists[l], BlocksOf(lists[l]));
      assert k == l;
      JoinableIff(lists[k], BlocksOf(lists[k]));
      var p, q :| RunsMeet(lists[k].clist, p, q);
      assert RunsMeet(lists[k].clist, p, q);
    }
    if k: nat, p, q :| k < |lists| && RunsMeet(lists[k].clist, p, q) {
      ListCompressed(lists, k);
      JoinableIff(lists[k], BlocksOf(lists[k]));
      var own := BlocksOf(lists[k]);
      var a: nat, b: nat :| a < |own| && b < |own| && CanJoin(own[a], own[b]);
      var i := BlockInMap(lists, k, a);
      var j := BlockInMap(lists, k, b);
      assert CanJoin(bs[i], bs[j]);
    }
  }

  lemma {:induction false} ListsGrouped(table: seq<Entry>, did: int)
    ensures Grouped(ListsOf(table, did))
  {
    if table != [] {
      var before, last := ListsOf(table[..|table| - 1], did), table[|table| - 1];
      ListsGrouped(table[..|table| - 1], did);
      var k := ModuleAt(before, last.roc, last.slot);
      if k < |before| {
        PushKeeps(before, k, last.chan);
      } else {
        NewModule(before, last);
      }
    }
  }

  /**
   Two blocks that FillMap makes can be joined exactly when, among the channels of a module in the order
   of their numbers, a run ends where another one that carries it on starts.
   */
  lemma MapJoinableIff(table: seq<Entry>, did: int)
    ensures SomeJoin(MapOf(table, did)) <==> SomeMeet(SortAll(ListsOf(table, did)))
  {
    hide SomeJoin, SomeMeet, AllBlocks, ListsOf, SortByChannel;
    ListsGrouped(table, did);
    AllJoinableIff(SortAll(ListsOf(table, did)));
  }

  // ---- a channel entered twice ----------------------------------------------------------------------------

  function SingleEntry(did: int, roc: int, slot: int, channel: int, counter: int): Entry {
    Entry(did, roc, slot, 0, Chan(channel, 1, counter, 0, -1, 0))
  }

  function SingleBlock(roc: int, slot: int, channel: int, counter: int): Block {
    Block(roc, slot, channel, channel, counter, 0, 0, -1, 1, 0)
  }

  /** The list that three entries of a module make. */
  lemma ThreeListed(did: int, e: Entry, f: Entry, g: Entry)
    requires e.did == f.did == g.did == did
    requires f.roc == e.roc && f.slot == e.slot && g.roc == e.roc && g.slot == e.slot
    ensures ListsOf([e, f, g], did) == [ModuleList(e.roc, e.slot, e.model, [e.chan, f.chan, g.chan])]
  {
    hide Joined;
    assert [e][..0] == [] && [e, f][..1] == [e] && [e, f, g][..2] == [e, f];
    assert ListsOf([], did) == [];
    FirstJoined(e);
    assert ListsOf([e], did) == [ModuleFor(e)];
    JoinedSame(ModuleFor(e), f);
    assert [e.chan] + [f.chan] == [e.chan, f.chan];
    assert ListsOf([e, f], did) == [ModuleList(e.roc, e.slot, e.model, [e.chan, f.chan])];
    JoinedSame(ModuleList(e.roc, e.slot, e.model, [e.chan, f.chan]), g);
    assert [e.chan, f.chan] + [g.chan] == [e.chan, f.chan, g.chan];
  }

  lemma FirstJoined(e: Entry)
    ensures Joined([], e) == [ModuleFor(e)]
  {
  }

  lemma JoinedSame(m: ModuleList, e: Entry)
    requires e.roc == m.roc && e.slot == m.slot
    ensures Joined([m], e) == [m.(clist := m.clist + [e.chan])]
  {
    assert ModuleAt([m], e.roc, e.slot) == 0;
  }

  /** Three channels in order, none of which carries on the one before, make three blocks. */
  lemma ThreeBlocks(m: ModuleList, c: Chan, d: Chan, e: Chan)
    requires m.clist == [c, d, e] && c.channel <= d.channel <= e.channel && !Continues(c, d) && !Continues(d, e)
    ensures AllBlocks(SortAll([m])) == [NewBlock(m, c), NewBlock(m, d), NewBlock(m, e)]
  {
    OrderedStays(m.clist, NotLater);
    assert SortAll([m]) == [m];
    ExpandNew(m, c);
    ExpandNew(m, d);
    hide Sort, Continues, LastChan, NewBlock;
    FirstBlock(m);
    assert BlocksUpTo(m, 1) == [NewBlock(m, c)];
    BlocksNext(m, 1, [], NewBlock(m, c));
    BlocksNext(m, 2, [NewBlock(m, c)], NewBlock(m, d));
    assert [m][..0] == [];
    assert AllBlocks([]) == [];
  }

  /**
   Channel 5 entered for counters 1 and 9, and channel 6 for counter 2: FillMap makes three blocks, of which
   the first and the third can be joined, and two blocks would do.
   */
  lemma FirstAndThird(did: int, roc: int, slot: int)
    ensures var table := [SingleEntry(did, roc, slot, 5, 1), SingleEntry(did, roc, slot, 5, 9),
                          SingleEntry(did, roc, slot, 6, 2)];
            var bs := MapOf(table, did);
            && bs == [SingleBlock(roc, slot, 5, 1), SingleBlock(roc, slot, 5, 9), SingleBlock(roc, slot, 6, 2)]
            && CanJoin(bs[0], bs[2])
            && Faithful(table, did, [SingleBlock(roc, slot, 5, 9), SingleBlock(roc, slot, 5, 1).(hi := 6)])
  {
    var e, f, g := SingleEntry(did, roc, slot, 5, 1), SingleEntry(did, roc, slot, 5, 9),
                   SingleEntry(did, roc, slot, 6, 2);
    ThreeListed(did, e, f, g);
    ThreeBlocks(ModuleList(roc, slot, 0, [e.chan, f.chan, g.chan]), e.chan, f.chan, g.chan);
    TwoWouldDo(did, roc, slot);
    hide ListsOf, AllBlocks, SortAll, Faithful;
  }

  lemma TwoWouldDo(did: int, roc: int, slot: int)
    ensures Faithful([SingleEntry(did, roc, slot, 5, 1), SingleEntry(did, roc, slot, 5, 9),
                      SingleEntry(did, roc, slot, 6, 2)], did,
                     [SingleBlock(roc, slot, 5, 9), SingleBlock(roc, slot, 5, 1).(hi := 6)])
  {
    var e, f, g := SingleEntry(did, roc, slot, 5, 1), SingleEntry(did, roc, slot, 5, 9),
                   SingleEntry(did, roc, slot, 6, 2);
    var a, b := SingleBlock(roc, slot, 5, 9), SingleBlock(roc, slot, 5, 1).(hi := 6);
    hide Expand, Continues, LastChan, FirstChan, WireOf, ExpandAll, Selected, SingleBlock, SingleEntry;
    TwoBlocks(did, roc, slot);
    TwoExpanded(a, b);
    ThreeSelected(did, e, f, g);
    Exchanged(WireOf(e), WireOf(f), WireOf(g));
    assert [WireOf(f)] + [WireOf(e), WireOf(g)] == [WireOf(f), WireOf(e), WireOf(g)];
  }

  lemma TwoBlocks(did: int, roc: int, slot: int)
    ensures var e, f, g := SingleEntry(did, roc, slot, 5, 1), SingleEntry(did, roc, slot, 5, 9),
                           SingleEntry(did, roc, slot, 6, 2);
            var a, b := SingleBlock(roc, slot, 5, 9), SingleBlock(roc, slot, 5, 1).(hi := 6);
            && e.did == f.did == g.did == did && a.lo <= a.hi && b.lo <= b.hi
            && Expand(a) == [WireOf(f)] && Expand(b) == [WireOf(e), WireOf(g)]
            && !Continues(LastChan(a), FirstChan(b))
  {
  }

  lemma TwoExpanded(a: Block, b: Block)
    ensures ExpandAll([a, b]) == Expand(a) + Expand(b)
  {
    hide Expand;
    assert [a][..0] == [] && [a, b][..1] == [a];
    assert ExpandAll([]) == [];
    assert ExpandAll([a]) == Expand(a);
  }

  lemma ThreeSelected(did: int, e: Entry, f: Entry, g: Entry)
    requires e.did == f.did == g.did == did
    ensures Selected([e, f, g], did) == [WireOf(e), WireOf(f), WireOf(g)]
  {
    hide WireOf;
    assert [e][..0] == [] && [e, f][..1] == [e] && [e, f, g][..2] == [e, f];
    assert Selected([], did) == [];
    assert Selected([e], did) == [WireOf(e)];
    assert Selected([e, f], did) == [WireOf(e), WireOf(f)];
  }

  lemma Exchanged(u: Wire, v: Wire, w: Wire)
    ensures multiset([v, u, w]) == multiset([u, v, w])
  {
  }
}
