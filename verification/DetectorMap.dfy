/**
 The map from electronics channels to detector elements: kept as a table with one entry per channel,
 handed to the decoder as blocks of consecutive channels.
 */
module DetectorMap {
  import opened Sorting

  /** One line of the table. */
  datatype Entry = Entry(did: int, roc: int, slot: int, model: int, chan: Chan)

  /** A channel of a module and the element it reads. */
  datatype Chan = Chan(channel: int, plane: int, counter: int, signal: int, refchan: int, refindex: int)

  datatype ModuleList = ModuleList(roc: int, slot: int, model: int, clist: seq<Chan>)

  /** Consecutive channels of a module that read consecutive counters of a plane. */
  datatype Block = Block(roc: int, slot: int, lo: int, hi: int, first: int, model: int, refindex: int, refchan: int,
                         plane: int, signal: int)

  /** A channel with its module: all that must survive. */
  datatype Wire = Wire(roc: int, slot: int, chan: Chan)

  /** Module and channel numbers are kept in 16 bits without sign. */
  function UShort(x: int): int {
    x % 0x1_0000
  }

  predicate Hardware(e: Entry) {
    0 <= e.roc < 0x1_0000 && 0 <= e.slot < 0x1_0000 && 0 <= e.chan.channel < 0x1_0000 && e.chan.plane >= 0
  }

  // ---- what the decoder makes of the blocks ---------------------------------------------------------

  /** The counter read by a channel of a block. */
  function CounterOf(b: Block, channel: int): int {
    b.first + channel - b.lo
  }

  function ChanOf(b: Block, channel: int): Chan {
    Chan(channel, b.plane, CounterOf(b, channel), b.signal, b.refchan, b.refindex)
  }

  /** The channels of a block, one by one. */
  function Expand(b: Block): (wires: seq<Wire>)
    ensures |wires| == Channels(b)
    ensures forall k :: 0 <= k < Channels(b) ==> wires[k] == Wire(b.roc, b.slot, ChanOf(b, b.lo + k))
  {
    seq(Channels(b), k requires 0 <= k < Channels(b) => Wire(b.roc, b.slot, ChanOf(b, b.lo + k)))
  }

  function Channels(b: Block): nat {
    if b.lo <= b.hi then b.hi - b.lo + 1 else 0
  }

  function ExpandAll(bs: seq<Block>): seq<Wire> {
    if bs == [] then [] else ExpandAll(bs[..|bs| - 1]) + Expand(bs[|bs| - 1])
  }

  // ---- the selected entries ---------------------------------------------------------------------------

  function WireOf(e: Entry): Wire {
    Wire(e.roc, e.slot, e.chan)
  }

  /** The channels of a detector, as the table has them. */
  function Selected(table: seq<Entry>, did: int): seq<Wire> {
    if table == [] then []
    else
      var before, last := Selected(table[..|table| - 1], did), table[|table| - 1];
      if last.did == did then before + [WireOf(last)] else before
  }

  function WiresOf(m: ModuleList): (wires: seq<Wire>)
    ensures |wires| == |m.clist|
    ensures forall k :: 0 <= k < |wires| ==> wires[k] == Wire(m.roc, m.slot, m.clist[k])
  {
    seq(|m.clist|, k requires 0 <= k < |m.clist| => Wire(m.roc, m.slot, m.clist[k]))
  }

  function AllWires(mlist: seq<ModuleList>): seq<Wire> {
    if mlist == [] then [] else AllWires(mlist[..|mlist| - 1]) + WiresOf(mlist[|mlist| - 1])
  }

  /** One list per module, and none empty. */
  predicate Grouped(mlist: seq<ModuleList>) {
    && (forall i :: 0 <= i < |mlist| ==> |mlist[i].clist| > 0)
    && forall i, j :: 0 <= i < j < |mlist| ==> !(mlist[i].roc == mlist[j].roc && mlist[i].slot == mlist[j].slot)
  }

  predicate FromHardware(mlist: seq<ModuleList>) {
    forall i :: 0 <= i < |mlist| ==>
      && 0 <= mlist[i].roc < 0x1_0000 && 0 <= mlist[i].slot < 0x1_0000 && HardwareChannels(mlist[i].clist)
  }

  predicate HardwareChannels(clist: seq<Chan>) {
    forall k :: 0 <= k < |clist| ==> 0 <= clist[k].channel < 0x1_0000 && clist[k].plane >= 0
  }

  /** The first list of this module, or the number of lists. */
  function ModuleAt(mlist: seq<ModuleList>, roc: int, slot: int): (k: nat)
    ensures k <= |mlist| && (k < |mlist| ==> mlist[k].roc == roc && mlist[k].slot == slot)
    ensures forall i :: 0 <= i < k ==> !(mlist[i].roc == roc && mlist[i].slot == slot)
  {
    if mlist == [] then 0
    else
      var k := ModuleAt(mlist[..|mlist| - 1], roc, slot);
      if k < |mlist| - 1 then k
      else if mlist[|mlist| - 1].roc == roc && mlist[|mlist| - 1].slot == slot then |mlist| - 1
      else |mlist|
  }

  /** An entry joins the list of its module, or begins one. */
  function Joined(mlist: seq<ModuleList>, e: Entry): seq<ModuleList> {
    var k := ModuleAt(mlist, e.roc, e.slot);
    if k < |mlist| then mlist[k := mlist[k].(clist := mlist[k].clist + [e.chan])] else mlist + [ModuleFor(e)]
  }

  /** The lists of a detector's entries, module by module. */
  function ListsOf(table: seq<Entry>, did: int): seq<ModuleList> {
    if table == [] then []
    else
      var before, last := ListsOf(table[..|table| - 1], did), table[|table| - 1];
      if last.did == did then Joined(before, last) else before
  }

  lemma {:induction false} PushConserves(mlist: seq<ModuleList>, k: nat, c: Chan)
    requires k < |mlist|
    ensures var pushed := mlist[k].(clist := mlist[k].clist + [c]);
            multiset(AllWires(mlist[k := pushed]))
            == multiset(AllWires(mlist)) + multiset{Wire(mlist[k].roc, mlist[k].slot, c)}
  {
    var pushed, last := mlist[k].(clist := mlist[k].clist + [c]), |mlist| - 1;
    if k == last {
      assert mlist[k := pushed][..last] == mlist[..last];
      assert WiresOf(pushed) == WiresOf(mlist[k]) + [Wire(mlist[k].roc, mlist[k].slot, c)];
    } else {
      PushConserves(mlist[..last], k, c);
      assert mlist[k := pushed][..last] == mlist[..last][k := pushed];
    }
  }

  lemma PushKeeps(mlist: seq<ModuleList>, k: nat, c: Chan)
    requires k < |mlist| && Grouped(mlist)
    ensures var after := mlist[k := mlist[k].(clist := mlist[k].clist + [c])];
            && Grouped(after)
            && (FromHardware(mlist) && 0 <= c.channel < 0x1_0000 && c.plane >= 0 ==> FromHardware(after))
  {
  }

  lemma AllWiresAppend(mlist: seq<ModuleList>, m: ModuleList)
    ensures AllWires(mlist + [m]) == AllWires(mlist) + WiresOf(m)
  {
    assert (mlist + [m])[..|mlist|] == mlist;
  }

  function ModuleFor(e: Entry): ModuleList {
    ModuleList(e.roc, e.slot, e.model, [e.chan])
  }

  lemma NewModule(mlist: seq<ModuleList>, e: Entry)
    requires Grouped(mlist)
    requires forall k :: 0 <= k < |mlist| ==> !(mlist[k].roc == e.roc && mlist[k].slot == e.slot)
    ensures Grouped(mlist + [ModuleFor(e)])
    ensures Hardware(e) && FromHardware(mlist) ==> FromHardware(mlist + [ModuleFor(e)])
  {
  }

  lemma NewWire(mlist: seq<ModuleList>, e: Entry)
    ensures multiset(AllWires(mlist + [ModuleFor(e)])) == multiset(AllWires(mlist)) + multiset{WireOf(e)}
  {
    hide AllWires;
    AllWiresAppend(mlist, ModuleFor(e));
    assert WiresOf(ModuleFor(e)) == [WireOf(e)];
  }

  // ---- sorting a module by channel ----------------------------------------------------------------------

  predicate InOrder(s: seq<Chan>) {
    forall i, j :: 0 <= i < j < |s| ==> s[i].channel <= s[j].channel
  }

  predicate NotLater(a: Chan, b: Chan) {
    a.channel <= b.channel
  }

  function SortByChannel(s: seq<Chan>): (r: seq<Chan>)
    ensures |r| == |s|
  {
    Sort(s, NotLater)
  }

  lemma SortedInOrder(s: seq<Chan>)
    ensures InOrder(SortByChannel(s))
  {
    SortOrders(s, NotLater);
    hide Sort;
    assert forall i, j :: 0 <= i < j < |s| ==> NotLater(SortByChannel(s)[i], SortByChannel(s)[j]);
  }

  function SortAll(mlist: seq<ModuleList>): (sorted: seq<ModuleList>)
    ensures |sorted| == |mlist|
    ensures forall i :: 0 <= i < |mlist| ==> sorted[i] == mlist[i].(clist := SortByChannel(mlist[i].clist))
  {
    seq(|mlist|, i requires 0 <= i < |mlist| => mlist[i].(clist := SortByChannel(mlist[i].clist)))
  }

  lemma WiresMultiset(m: ModuleList, clist: seq<Chan>)
    requires multiset(m.clist) == multiset(clist)
    ensures multiset(WiresOf(m)) == multiset(WiresOf(m.(clist := clist)))
  {
    forall w: Wire ensures multiset(WiresOf(m))[w] == multiset(WiresOf(m.(clist := clist)))[w] {
      CountWires(m, m.clist, w);
      CountWires(m, clist, w);
    }
  }

  lemma {:induction false} CountWires(m: ModuleList, clist: seq<Chan>, w: Wire)
    ensures multiset(WiresOf(m.(clist := clist)))[w]
            == if w.roc == m.roc && w.slot == m.slot then multiset(clist)[w.chan] else 0
  {
    if clist != [] {
      var front, last := clist[..|clist| - 1], clist[|clist| - 1];
      CountWires(m, front, w);
      assert clist == front + [last];
      assert WiresOf(m.(clist := clist)) == WiresOf(m.(clist := front)) + [Wire(m.roc, m.slot, last)];
    }
  }

  lemma {:induction false} SortConserves(mlist: seq<ModuleList>)
    ensures multiset(AllWires(SortAll(mlist))) == multiset(AllWires(mlist))
  {
    if mlist != [] {
      var last := mlist[|mlist| - 1];
      SortConserves(mlist[..|mlist| - 1]);
      assert SortAll(mlist)[..|mlist| - 1] == SortAll(mlist[..|mlist| - 1]);
      SortKeeps(last.clist, NotLater);
      WiresMultiset(last, SortByChannel(last.clist));
    }
  }

  // ---- runs of consecutive channels -----------------------------------------------------------------------

  /** The next channel carries on where the last one ended. */
  predicate Continues(last: Chan, next: Chan) {
    && next.channel == last.channel + 1 && next.counter == last.counter + 1
    && next.plane == last.plane && next.signal == last.signal
    && next.refchan == last.refchan && next.refindex == last.refindex
  }

  function FirstChan(b: Block): Chan {
    ChanOf(b, b.lo)
  }

  function LastChan(b: Block): Chan {
    ChanOf(b, b.hi)
  }

  /** No block of a module can be joined with the one after it. */
  predicate Maximal(bs: seq<Block>) {
    forall i :: 0 <= i < |bs| - 1 && bs[i].roc == bs[i + 1].roc && bs[i].slot == bs[i + 1].slot ==>
      !Continues(LastChan(bs[i]), FirstChan(bs[i + 1]))
  }

  predicate SameModule(a: Block, b: Block) {
    a.roc == b.roc && a.slot == b.slot
  }

  /** The blocks of a module have increasing channels. */
  predicate Ascending(bs: seq<Block>) {
    forall i, j :: 0 <= i < j < |bs| && SameModule(bs[i], bs[j]) ==> bs[i].hi <= bs[j].lo
  }

  /** The blocks of a module are not interrupted by others. */
  predicate Together(bs: seq<Block>) {
    forall i, k, j :: 0 <= i < k < j < |bs| && SameModule(bs[i], bs[j]) ==> SameModule(bs[i], bs[k])
  }

  predicate AllOf(bs: seq<Block>, roc: int, slot: int) {
    forall i :: 0 <= i < |bs| ==> bs[i].roc == roc && bs[i].slot == slot && bs[i].lo <= bs[i].hi
  }

  lemma ExpandAllAppend(bs: seq<Block>, b: Block)
    ensures ExpandAll(bs + [b]) == ExpandAll(bs) + Expand(b)
  {
    assert (bs + [b])[..|bs|] == bs;
  }

  /** One more channel at the end of a block. */
  lemma ExpandLonger(b: Block, c: Chan)
    requires b.lo <= b.hi && Continues(LastChan(b), c)
    ensures Expand(b.(hi := b.hi + 1)) == Expand(b) + [Wire(b.roc, b.slot, c)]
    ensures LastChan(b.(hi := b.hi + 1)) == c && FirstChan(b.(hi := b.hi + 1)) == FirstChan(b)
  {
    assert ChanOf(b.(hi := b.hi + 1), b.hi + 1) == c;
  }

  function NewBlock(m: ModuleList, c: Chan): Block {
    Block(m.roc, m.slot, c.channel, c.channel, c.counter, m.model, c.refindex, c.refchan, c.plane, c.signal)
  }

  lemma ExpandNew(m: ModuleList, c: Chan)
    ensures Expand(NewBlock(m, c)) == [Wire(m.roc, m.slot, c)]
    ensures LastChan(NewBlock(m, c)) == c && FirstChan(NewBlock(m, c)) == c
  {
  }

  /** The blocks of a module's first n channels: a channel lengthens the last block or begins one. */
  function BlocksUpTo(m: ModuleList, n: nat): seq<Block>
    requires n <= |m.clist|
  {
    if n == 0 then []
    else
      var bs, c := BlocksUpTo(m, n - 1), m.clist[n - 1];
      if bs != [] && Continues(LastChan(bs[|bs| - 1]), c) then bs[|bs| - 1 := bs[|bs| - 1].(hi := bs[|bs| - 1].hi + 1)]
      else bs + [NewBlock(m, c)]
  }

  function BlocksOf(m: ModuleList): seq<Block> {
    BlocksUpTo(m, |m.clist|)
  }

  lemma BlocksNext(m: ModuleList, n: nat, done: seq<Block>, b: Block)
    requires n < |m.clist| && BlocksUpTo(m, n) == done + [b]
    ensures Continues(LastChan(b), m.clist[n]) ==> BlocksUpTo(m, n + 1) == done + [b.(hi := b.hi + 1)]
    ensures !Continues(LastChan(b), m.clist[n]) ==> BlocksUpTo(m, n + 1) == (done + [b]) + [NewBlock(m, m.clist[n])]
  {
    hide Continues, LastChan, NewBlock;
    assert (done + [b])[|done|] == b;
  }

  lemma FirstBlock(m: ModuleList)
    requires |m.clist| > 0
    ensures BlocksUpTo(m, 1) == [] + [NewBlock(m, m.clist[0])]
  {
    assert BlocksUpTo(m, 0) == [];
  }

  /** The scan of a module's sorted list before channel n: finished blocks and the one under way. */
  ghost predicate Scanned(m: ModuleList, n: nat, done: seq<Block>, b: Block) {
    && n <= |m.clist| && BlocksUpTo(m, n) == done + [b]
    && 0 < n <= |m.clist| && b.roc == m.roc && b.slot == m.slot && b.lo <= b.hi
    && AllOf(done, m.roc, m.slot) && Maximal(done + [b])
    && ExpandAll(done + [b]) == WiresOf(m)[..n]
    && LastChan(b) == m.clist[n - 1] && (InOrder(m.clist) ==> Ascending(done + [b]))
  }

  lemma ScanStarts(m: ModuleList)
    requires |m.clist| > 0
    ensures Scanned(m, 1, [], NewBlock(m, m.clist[0]))
  {
    var b := NewBlock(m, m.clist[0]);
    ExpandNew(m, m.clist[0]);
    FirstBlock(m);
    ExpandAllAppend([], b);
    assert [] + [b] == [b];
    assert WiresOf(m)[..1] == [Wire(m.roc, m.slot, m.clist[0])];
  }

  lemma OneMoreWire(m: ModuleList, n: nat)
    requires n < |m.clist|
    ensures WiresOf(m)[..n + 1] == WiresOf(m)[..n] + [Wire(m.roc, m.slot, m.clist[n])]
  {
  }

  lemma ScanContinues(m: ModuleList, n: nat, done: seq<Block>, b: Block)
    requires Scanned(m, n, done, b) && n < |m.clist| && Continues(LastChan(b), m.clist[n])
    ensures Scanned(m, n + 1, done, b.(hi := b.hi + 1))
  {
    var c, longer := m.clist[n], b.(hi := b.hi + 1);
    BlocksNext(m, n, done, b);
    ExpandLonger(b, c);
    ExpandAllAppend(done, b);
    ExpandAllAppend(done, longer);
    OneMoreWire(m, n);
    hide Continues, LastChan, FirstChan, Expand, ExpandAll, WiresOf;
    MaximalEnd(done, b, longer);
    AscendingEnd(done, b, longer);
    hide Ascending, InOrder, Maximal;
  }

  lemma MaximalEnd(done: seq<Block>, b: Block, longer: Block)
    requires Maximal(done + [b]) && FirstChan(longer) == FirstChan(b) && longer.roc == b.roc && longer.slot == b.slot
    ensures Maximal(done + [longer])
  {
    hide Continues, LastChan, FirstChan;
    var was, now := done + [b], done + [longer];
    forall k | 0 <= k < |now|
      ensures FirstChan(now[k]) == FirstChan(was[k]) && now[k].roc == was[k].roc && now[k].slot == was[k].slot
      ensures k < |done| ==> now[k] == was[k]
    {
    }
    forall i | 0 <= i < |now| - 1 && now[i].roc == now[i + 1].roc && now[i].slot == now[i + 1].slot
      ensures !Continues(LastChan(now[i]), FirstChan(now[i + 1]))
    {
      assert now[i] == was[i];
      assert FirstChan(now[i + 1]) == FirstChan(was[i + 1]);
    }
  }

  lemma AscendingEnd(done: seq<Block>, b: Block, longer: Block)
    requires longer.lo == b.lo && SameModule(longer, b)
    ensures Ascending(done + [b]) ==> Ascending(done + [longer])
  {
    var was, now := done + [b], done + [longer];
    forall k | 0 <= k < |now| ensures now[k].lo == was[k].lo && SameModule(now[k], was[k]) {
    }
    forall k | 0 <= k < |done| ensures now[k] == was[k] {
    }
  }

  /** A block is followed by one that starts at its last channel or later. */
  lemma AscendingMore(done: seq<Block>, b: Block, next: Block)
    requires Ascending(done + [b]) && AllOf(done, b.roc, b.slot) && b.lo <= b.hi <= next.lo
    ensures Ascending(done + [b] + [next])
  {
    var was := done + [b];
    assert was[|done|] == b;
    forall k | 0 <= k < |done| ensures was[k] == done[k] && was[k].hi <= b.lo {
      assert SameModule(was[k], was[|done|]);
    }
  }

  lemma MaximalMore(bs: seq<Block>, b: Block)
    requires Maximal(bs)
    requires |bs| > 0 && bs[|bs| - 1].roc == b.roc && bs[|bs| - 1].slot == b.slot ==>
               !Continues(LastChan(bs[|bs| - 1]), FirstChan(b))
    ensures Maximal(bs + [b])
  {
    hide Continues, LastChan, FirstChan;
  }

  lemma ScanBreaks(m: ModuleList, n: nat, done: seq<Block>, b: Block)
    requires Scanned(m, n, done, b) && n < |m.clist| && !Continues(LastChan(b), m.clist[n])
    ensures Scanned(m, n + 1, done + [b], NewBlock(m, m.clist[n]))
  {
    var c, next := m.clist[n], NewBlock(m, m.clist[n]);
    BlocksNext(m, n, done, b);
    ExpandNew(m, c);
    ExpandAllAppend(done + [b], next);
    OneMoreWire(m, n);
    MaximalMore(done + [b], next);
    if InOrder(m.clist) {
      assert LastChan(b).channel == b.hi;
      assert m.clist[n - 1].channel <= c.channel;
      AscendingMore(done, b, next);
    }
    hide InOrder, Ascending, Maximal, Continues;
  }

  // ---- the whole map ----------------------------------------------------------------------------------------

  lemma ScanEnds(m: ModuleList, done: seq<Block>, b: Block)
    requires Scanned(m, |m.clist|, done, b)
    ensures ModuleDone(m, done + [b])
  {
    assert WiresOf(m)[..|m.clist|] == WiresOf(m);
  }

  /** The blocks of one module: its channels in order, in as few pieces as possible. */
  ghost predicate ModuleDone(m: ModuleList, bs: seq<Block>) {
    && ExpandAll(bs) == WiresOf(m) && AllOf(bs, m.roc, m.slot) && Maximal(bs)
    && (InOrder(m.clist) ==> Ascending(bs)) && bs == BlocksOf(m)
  }

  lemma Associative(a: seq<Wire>, b: seq<Wire>, c: seq<Wire>)
    ensures (a + b) + c == a + (b + c)
  {
  }

  lemma {:induction false} ExpandAllConcat(bs: seq<Block>, cs: seq<Block>)
    ensures ExpandAll(bs + cs) == ExpandAll(bs) + ExpandAll(cs)
  {
    if cs == [] {
      assert bs + cs == bs;
    } else {
      var front, last := cs[..|cs| - 1], cs[|cs| - 1];
      hide Expand;
      ExpandAllConcat(bs, front);
      assert (bs + cs)[..|bs + cs| - 1] == bs + front;
      Associative(ExpandAll(bs), ExpandAll(front), Expand(last));
    }
  }

  predicate AllInOrder(mlist: seq<ModuleList>) {
    forall k :: 0 <= k < |mlist| ==> InOrder(mlist[k].clist)
  }

  /** The blocks of all modules in turn. */
  function AllBlocks(mlist: seq<ModuleList>): seq<Block> {
    if mlist == [] then [] else AllBlocks(mlist[..|mlist| - 1]) + BlocksOf(mlist[|mlist| - 1])
  }

  /** The map of a detector: its entries in module lists, each sorted and then compressed. */
  function MapOf(table: seq<Entry>, did: int): seq<Block> {
    AllBlocks(SortAll(ListsOf(table, did)))
  }

  /** The blocks of the modules before n. */
  ghost predicate MapDone(mlist: seq<ModuleList>, n: nat, bs: seq<Block>) {
    && n <= |mlist|
    && bs == AllBlocks(mlist[..n]) && ExpandAll(bs) == AllWires(mlist[..n])
    && Maximal(bs) && Together(bs) && (AllInOrder(mlist[..n]) ==> Ascending(bs))
    && forall i :: 0 <= i < |bs| ==> bs[i].lo <= bs[i].hi && FromModule(mlist, n, bs[i])
  }

  predicate FromModule(mlist: seq<ModuleList>, n: nat, b: Block)
    requires n <= |mlist|
  {
    exists k :: 0 <= k < n && b.roc == mlist[k].roc && b.slot == mlist[k].slot
  }

  lemma MapGrows(mlist: seq<ModuleList>, n: nat, bs: seq<Block>, more: seq<Block>)
    requires n < |mlist| && Grouped(mlist) && MapDone(mlist, n, bs) && ModuleDone(mlist[n], more)
    ensures MapDone(mlist, n + 1, bs + more)
  {
    hide ExpandAll, WiresOf, Continues, LastChan, FirstChan, Maximal, Together, Ascending, AllInOrder, InOrder;
    hide FromModule;
    ExpandAllConcat(bs, more);
    assert mlist[..n + 1][..n] == mlist[..n];
    hide AllWires;
    FromMore(mlist, n, bs, more);
    Apart(mlist, n, bs, more);
    SequenceGoesOn(mlist, n, bs, more);
  }

  lemma FromMore(mlist: seq<ModuleList>, n: nat, bs: seq<Block>, more: seq<Block>)
    requires n < |mlist| && AllOf(more, mlist[n].roc, mlist[n].slot)
    requires forall i :: 0 <= i < |bs| ==> bs[i].lo <= bs[i].hi && FromModule(mlist, n, bs[i])
    ensures forall i :: 0 <= i < |bs + more| ==> (bs + more)[i].lo <= (bs + more)[i].hi
    ensures forall i :: 0 <= i < |bs + more| ==> FromModule(mlist, n + 1, (bs + more)[i])
  {
    forall i | 0 <= i < |bs + more| ensures FromModule(mlist, n + 1, (bs + more)[i]) {
      if i < |bs| {
        var k :| 0 <= k < n && bs[i].roc == mlist[k].roc && bs[i].slot == mlist[k].slot;
      } else {
        assert more[i - |bs|].roc == mlist[n].roc;
      }
    }
  }

  lemma SequenceGoesOn(mlist: seq<ModuleList>, n: nat, bs: seq<Block>, more: seq<Block>)
    requires n < |mlist| && Grouped(mlist) && AllOf(more, mlist[n].roc, mlist[n].slot)
    requires forall i :: 0 <= i < |bs| ==> FromModule(mlist, n, bs[i])
    ensures Together(bs) ==> Together(bs + more)
    ensures Ascending(bs) && Ascending(more) ==> Ascending(bs + more)
    ensures AllInOrder(mlist[..n + 1]) ==> AllInOrder(mlist[..n]) && InOrder(mlist[n].clist)
  {
    hide InOrder;
    var all := bs + more;
    forall i, j | 0 <= i < |bs| <= j < |all| ensures !SameModule(all[i], all[j]) {
      assert all[i] == bs[i] && all[j] == more[j - |bs|];
    }
    forall k | 0 <= k < |all| ensures all[k] == if k < |bs| then bs[k] else more[k - |bs|] {
    }
    if AllInOrder(mlist[..n + 1]) {
      forall k | 0 <= k < n ensures InOrder(mlist[..n][k].clist) {
        assert mlist[..n + 1][k] == mlist[k];
      }
      assert mlist[..n + 1][n] == mlist[n];
    }
  }

  lemma Apart(mlist: seq<ModuleList>, n: nat, bs: seq<Block>, more: seq<Block>)
    requires n < |mlist| && Grouped(mlist) && Maximal(bs) && Maximal(more)
    requires forall i :: 0 <= i < |bs| ==> FromModule(mlist, n, bs[i])
    requires AllOf(more, mlist[n].roc, mlist[n].slot)
    ensures Maximal(bs + more)
  {
    hide Continues, LastChan, FirstChan;
    var all := bs + more;
    forall i | 0 <= i < |all| - 1 && all[i].roc == all[i + 1].roc && all[i].slot == all[i + 1].slot
      ensures !Continues(LastChan(all[i]), FirstChan(all[i + 1]))
    {
      if i + 1 < |bs| {
        assert all[i] == bs[i] && all[i + 1] == bs[i + 1];
      } else if i >= |bs| {
        assert all[i] == more[i - |bs|] && all[i + 1] == more[i - |bs| + 1];
      } else {
        assert false;
      }
    }
  }

  /** What FillMap promises: the blocks stand for exactly the detector's entries, and none can be joined. */
  ghost predicate Faithful(table: seq<Entry>, did: int, bs: seq<Block>) {
    && multiset(ExpandAll(bs)) == multiset(Selected(table, did))
    && Maximal(bs)
    && forall i :: 0 <= i < |bs| ==> bs[i].lo <= bs[i].hi
  }

  class Map {
    const table: seq<Entry>
    var mlist: seq<ModuleList>

    constructor (table: seq<Entry>)
      ensures this.table == table && mlist == []
    {
      this.table, mlist := table, [];
    }

    /** The entry's channel, added to the list of its module. */
    method AddEntry(e: Entry)
      requires Grouped(mlist)
      modifies this`mlist
      ensures Grouped(mlist) && mlist != [] && mlist == Joined(old(mlist), e)
      ensures multiset(AllWires(mlist)) == multiset(AllWires(old(mlist))) + multiset{WireOf(e)}
      ensures Hardware(e) && FromHardware(old(mlist)) ==> FromHardware(mlist)
    {
      var imod := 0;
      while imod < |mlist|
        invariant 0 <= imod <= |mlist|
        invariant forall k :: 0 <= k < imod ==> !(mlist[k].roc == e.roc && mlist[k].slot == e.slot)
      {
        if mlist[imod].roc == e.roc && mlist[imod].slot == e.slot {
          break;
        }
        imod := imod + 1;
      }
      if imod < |mlist| {
        PushConserves(mlist, imod, e.chan);
        PushKeeps(mlist, imod, e.chan);
        hide AllWires, Grouped, FromHardware;
        mlist := mlist[imod := mlist[imod].(clist := mlist[imod].clist + [e.chan])];
      } else {
        NewModule(mlist, e);
        NewWire(mlist, e);
        hide AllWires, Grouped, FromHardware;
        mlist := mlist + [ModuleFor(e)];
      }
    }

    method GroupByModule(did: int)
      modifies this`mlist
      ensures Grouped(mlist) && multiset(AllWires(mlist)) == multiset(Selected(table, did))
      ensures (forall e <- table :: e.did == did ==> Hardware(e)) ==> FromHardware(mlist)
      ensures mlist == [] <==> Selected(table, did) == []
      ensures mlist == ListsOf(table, did)
    {
      hide Joined, AllWires, Grouped, FromHardware, Hardware;
      mlist := [];
      NoLists();
      for ich := 0 to |table|
        invariant Grouped(mlist)
        invariant multiset(AllWires(mlist)) == multiset(Selected(table[..ich], did))
        invariant (forall e <- table :: e.did == did ==> Hardware(e)) ==> FromHardware(mlist)
        invariant mlist == [] <==> Selected(table[..ich], did) == []
        invariant mlist == ListsOf(table[..ich], did)
      {
        assert table[..ich + 1][..ich] == table[..ich];
        if table[ich].did == did {
          AddEntry(table[ich]);
        }
      }
      assert table[..|table|] == table;
    }

    method SortModules()
      modifies this`mlist
      ensures mlist == SortAll(old(mlist))
    {
      ghost var before := mlist;
      for imod := 0 to |mlist|
        invariant |mlist| == |before|
        invariant forall k :: 0 <= k < imod ==> mlist[k] == before[k].(clist := SortByChannel(before[k].clist))
        invariant forall k :: imod <= k < |mlist| ==> mlist[k] == before[k]
      {
        mlist := mlist[imod := mlist[imod].(clist := SortByChannel(mlist[imod].clist))];
      }
    }

    /** The scan of one module's sorted channels, with what it remembers of the last channel. */
    method CompressModule(m: ModuleList) returns (detmap: seq<Block>)
      requires |m.clist| > 0 && HardwareChannels(m.clist) && 0 <= m.roc < 0x1_0000 && 0 <= m.slot < 0x1_0000
      ensures ModuleDone(m, detmap)
    {
      hide BlockOf, AddModule;
      detmap := [];
      var firstChan, firstCounter, last := -1, -1, Chan(-1, -1, -1, -1, -1, -1);
      for i := 0 to |m.clist|
        invariant i == 0 ==> detmap == [] && last == Chan(-1, -1, -1, -1, -1, -1)
        invariant i > 0 ==> 0 <= firstChan < 0x1_0000 && last == m.clist[i - 1]
        invariant i > 0 ==> Scanned(m, i, detmap, BlockOf(m, firstChan, firstCounter, last))
      {
        var next := m.clist[i];
        hide Scanned, Continues;
        ScanMoves(m, i, detmap, firstChan, firstCounter, last);
        if !Continues(last, next) {
          if last.channel >= 0 {
            if i != 0 {
              detmap := detmap + [AddModule(m, firstChan, firstCounter, last)];
            }
          }
          firstChan := next.channel;
          firstCounter := next.counter;
        }
        last := next;
      }
      ScanEnds(m, detmap, BlockOf(m, firstChan, firstCounter, last));
      KeptAsIs(m, firstChan, firstCounter, last);
      detmap := detmap + [AddModule(m, firstChan, firstCounter, last)];
    }

    /** The map of one detector; nothing and a failure when the table has no channel of it. */
    method FillMap(did: int) returns (status: int, detmap: seq<Block>)
      requires forall e <- table :: e.did == did ==> Hardware(e)
      modifies this`mlist
      ensures status == if Selected(table, did) == [] then -1 else 0
      ensures Faithful(table, did, detmap) && Ascending(detmap) && Together(detmap)
      ensures detmap == MapOf(table, did)
    {
      detmap := [];
      GroupByModule(did);
      if mlist == [] {
        status := -1;
        return;
      }
      ghost var grouped := mlist;
      SortModules();
      SortConserves(grouped);
      SortedStillGood(grouped);
      AllSorted(grouped);
      detmap := CompressAll();
      status := 0;
    }

    method CompressAll() returns (detmap: seq<Block>)
      requires Grouped(mlist) && FromHardware(mlist)
      ensures multiset(ExpandAll(detmap)) == multiset(AllWires(mlist)) && Maximal(detmap)
      ensures Together(detmap) && (AllInOrder(mlist) ==> Ascending(detmap)) && detmap == AllBlocks(mlist)
      ensures forall i :: 0 <= i < |detmap| ==> detmap[i].lo <= detmap[i].hi
    {
      detmap := [];
      for imod := 0 to |mlist|
        invariant MapDone(mlist, imod, detmap)
      {
        var more := CompressModule(mlist[imod]);
        MapGrows(mlist, imod, detmap, more);
        detmap := detmap + more;
      }
      assert mlist[..|mlist|] == mlist;
    }
  }

  /** The block that the scan has under way. */
  function BlockOf(m: ModuleList, firstChan: int, firstCounter: int, last: Chan): Block {
    Block(m.roc, m.slot, firstChan, last.channel, firstCounter, m.model, last.refindex, last.refchan, last.plane,
          last.signal)
  }

  /** The same, as it is kept in the map. */
  function AddModule(m: ModuleList, firstChan: int, firstCounter: int, last: Chan): Block {
    Block(UShort(m.roc), UShort(m.slot), UShort(firstChan), UShort(last.channel), firstCounter, m.model,
          last.refindex, last.refchan, last.plane, last.signal)
  }

  /** One channel of the scan: it starts, lengthens or follows the block under way. */
  lemma ScanMoves(m: ModuleList, i: nat, done: seq<Block>, firstChan: int, firstCounter: int, last: Chan)
    requires i < |m.clist| && HardwareChannels(m.clist) && 0 <= m.roc < 0x1_0000 && 0 <= m.slot < 0x1_0000
    requires i == 0 ==> done == [] && last == Chan(-1, -1, -1, -1, -1, -1)
    requires i > 0 ==> 0 <= firstChan < 0x1_0000 && last == m.clist[i - 1]
    requires i > 0 ==> Scanned(m, i, done, BlockOf(m, firstChan, firstCounter, last))
    ensures var next := m.clist[i];
            && 0 <= next.channel < 0x1_0000 && (i == 0 ==> !Continues(last, next))
            && (i > 0 ==> last.channel >= 0
                          && AddModule(m, firstChan, firstCounter, last) == BlockOf(m, firstChan, firstCounter, last))
            && if Continues(last, next) then Scanned(m, i + 1, done, BlockOf(m, firstChan, firstCounter, next))
               else
                 var flushed := if i > 0 then done + [AddModule(m, firstChan, firstCounter, last)] else done;
                 Scanned(m, i + 1, flushed, BlockOf(m, next.channel, next.counter, next))
  {
    hide Scanned, Continues, LastChan, BlockOf, AddModule, NewBlock;
    var next, b := m.clist[i], BlockOf(m, firstChan, firstCounter, last);
    BlockStarted(m, next);
    if i == 0 {
      ScanStarts(m);
      NotAfterNothing(next);
    } else {
      LastKnown(m, i, done, firstChan, firstCounter, last);
      KeptAsIs(m, firstChan, firstCounter, last);
      if Continues(last, next) {
        BlockLonger(m, firstChan, firstCounter, last, next);
        ScanContinues(m, i, done, b);
      } else {
        ScanBreaks(m, i, done, b);
      }
    }
  }

  lemma NotAfterNothing(next: Chan)
    requires next.plane >= 0
    ensures !Continues(Chan(-1, -1, -1, -1, -1, -1), next)
  {
  }

  lemma BlockStarted(m: ModuleList, c: Chan)
    ensures BlockOf(m, c.channel, c.counter, c) == NewBlock(m, c)
  {
  }

  lemma BlockLonger(m: ModuleList, firstChan: int, firstCounter: int, last: Chan, next: Chan)
    requires Continues(last, next)
    ensures var b := BlockOf(m, firstChan, firstCounter, last);
            BlockOf(m, firstChan, firstCounter, next) == b.(hi := b.hi + 1)
  {
  }

  /** The numbers are small enough to be kept as they are. */
  lemma KeptAsIs(m: ModuleList, firstChan: int, firstCounter: int, last: Chan)
    requires 0 <= m.roc < 0x1_0000 && 0 <= m.slot < 0x1_0000
    requires 0 <= firstChan < 0x1_0000 && 0 <= last.channel < 0x1_0000
    ensures AddModule(m, firstChan, firstCounter, last) == BlockOf(m, firstChan, firstCounter, last)
  {
  }

  lemma LastKnown(m: ModuleList, n: nat, done: seq<Block>, firstChan: int, firstCounter: int, last: Chan)
    requires Scanned(m, n, done, BlockOf(m, firstChan, firstCounter, last)) && last == m.clist[n - 1]
    ensures LastChan(BlockOf(m, firstChan, firstCounter, last)) == last
  {
  }

  lemma NoLists()
    ensures Grouped([]) && FromHardware([]) && AllWires([]) == []
  {
  }

  lemma AllSorted(mlist: seq<ModuleList>)
    ensures AllInOrder(SortAll(mlist))
  {
    forall i | 0 <= i < |mlist| ensures InOrder(SortAll(mlist)[i].clist) {
      SortedInOrder(mlist[i].clist);
    }
  }

  lemma SortedStillGood(mlist: seq<ModuleList>)
    requires Grouped(mlist) && FromHardware(mlist)
    ensures Grouped(SortAll(mlist)) && FromHardware(SortAll(mlist))
  {
    forall i | 0 <= i < |mlist| ensures HardwareChannels(SortByChannel(mlist[i].clist)) {
      var before, after := mlist[i].clist, SortByChannel(mlist[i].clist);
      SortKeeps(before, NotLater);
      forall k | 0 <= k < |after| ensures 0 <= after[k].channel < 0x1_0000 && after[k].plane >= 0 {
        assert after[k] in multiset(before);
      }
    }
  }
}
