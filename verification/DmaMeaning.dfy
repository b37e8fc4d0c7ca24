/**
  What the hardware does with a built chain: it follows next pointers until a descriptor that
  stops the engine, fetching ahead in blocks of adjacent descriptors, and copies bytes.
 */
module DmaMeaning {
  import opened Words
  import opened ScatterSplit
  import opened Descriptors
  import opened Transfers

  // ---- Each descriptor of a chain, as the hardware reads it.

  lemma ControlDecodes(cfg: Config, start: nat, pieces: seq<Segment>, ep: u64, i: nat)
    requires cfg.Valid() && start + |pieces| <= RING && i < |pieces|
    ensures var n := |pieces|; var d := Chain(cfg, start, pieces, ep)[i];
      && Magic(d.control) == 0xAD4B
      && LowByte(d.control) == (if i == n - 1 then 0x13 else if cfg.eopFlush then 0x02 else 0x00)
      && Adjacent(d.control) == NextAdj(n - i - 1, Lo(NextBus(cfg, start, i, n)))
      && (Stops(d.control) <==> i == n - 1)
      && d.Next() == NextBus(cfg, start, i, n)
  {
    var n := |pieces|;
    var d := Chain(cfg, start, pieces, ep)[i];
    var adj := NextAdj(n - i - 1, Lo(NextBus(cfg, start, i, n)));
    FreshWordDecodes(ControlByte(cfg, i, n), adj);
    LowBits();
    StopsByLowByte(d.control);
    JoinHalves(NextBus(cfg, start, i, n));
  }

  /** Addresses and length of descriptor i, in memory-mapped mode. */
  lemma DataDecodes(cfg: Config, start: nat, pieces: seq<Segment>, ep: u64, i: nat)
    requires cfg.Valid() && start + |pieces| <= RING && i < |pieces| && !cfg.StreamsToHost()
    ensures var d := Chain(cfg, start, pieces, ep)[i]; var dev := EndpointAfter(cfg, ep, pieces[..i]);
      && d.bytes == pieces[i].len
      && d.Src() == (if cfg.toDevice then pieces[i].addr else dev)
      && d.Dst() == (if cfg.toDevice then dev else pieces[i].addr)
  {
    JoinHalves(pieces[i].addr);
    JoinHalves(EndpointAfter(cfg, ep, pieces[..i]));
  }

  /** A 64-bit field of a descriptor. */
  function Field(lo: u32, hi: u32): int { hi * 0x1_0000_0000 + lo }

  /** How many descriptors may be fetched with the one after descriptor i of n, the next one at this address. */
  ghost predicate CountsAhead(adj: nat, remaining: nat, next: int)
  {
    forall k: nat :: k <= adj <==> k == 0 || (k < remaining && next % 2048 + 32 * k < 2048)
  }

  lemma AheadIs(remaining: nat, next: u64)
    requires remaining > 0 ==> next % 32 == 0
    ensures CountsAhead(NextAdj(remaining, Lo(next)), remaining, next)
  {
    var h: int, lo: int := Hi(next), Lo(next);
    assert next == 2048 * (0x20_0000 * h) + lo;
    ModUnique(next, 2048, 0x20_0000 * h + lo / 2048, lo % 2048);
    if remaining > 0 {
      ModUnique(lo, 32, next / 32 - 0x800_0000 * h, 0);
      forall k: nat
        ensures k <= NextAdj(remaining, lo) <==> k == 0 || (k < remaining && next % 2048 + 32 * k < 2048)
      {
        NextAdjIsLargest(remaining, lo, k);
      }
    }
  }

  /** The address half of descriptor i, in every mode; a C2H stream has its result slot as source. */
  lemma AddressesAre(cfg: Config, start: nat, pieces: seq<Segment>, ep: u64, i: nat)
    requires cfg.Valid() && start + |pieces| <= RING && i < |pieces|
    ensures var d := Chain(cfg, start, pieces, ep)[i];
      var dev := if cfg.nonIncr then ep else (ep + TotalLen(pieces[..i])) % 0x1_0000_0000_0000_0000;
      && d.bytes == pieces[i].len
      && Field(d.srcLo, d.srcHi) == (if cfg.toDevice then pieces[i].addr
                                     else if cfg.streaming then cfg.resultBus + 32 * (start + i) else dev)
      && Field(d.dstLo, d.dstHi) == (if cfg.toDevice then dev else pieces[i].addr)
      && Field(d.nextLo, d.nextHi) == (if i == |pieces| - 1 then 0 else cfg.ringBus + 32 * (start + i + 1))
  {
    AfterIs(ep, pieces[..i]);
    JoinHalves(pieces[i].addr);
    JoinHalves(EndpointAfter(cfg, ep, pieces[..i]));
    JoinHalves(cfg.resultBus + DESC_SIZE * (start + i));
    JoinHalves(NextBus(cfg, start, i, |pieces|));
  }

  lemma ControlBytes(cfg: Config, i: nat, n: nat)
    ensures ControlByte(cfg, i, n) == (if i == n - 1 then 0x13 else if cfg.eopFlush then 0x02 else 0x00)
    ensures ControlByte(cfg, i, n) & 0xff == ControlByte(cfg, i, n)
  {
    LowBits();
  }

  /** The control word of descriptor i: magic, prefetch count and low byte, and the bits between them clear. */
  lemma ControlIs(cfg: Config, start: nat, pieces: seq<Segment>, ep: u64, i: nat)
    requires cfg.Valid() && start + |pieces| <= RING && i < |pieces|
    ensures var n := |pieces|; var c := Chain(cfg, start, pieces, ep)[i].control;
      && c & 0xffff_c000 == 0xAD4B_0000
      && c & 0xff == (if i == n - 1 then 0x13 else if cfg.eopFlush then 0x02 else 0x00)
      && CountsAhead(OfBits((c >> 8) & 0x3f), n - i - 1, if i == n - 1 then 0 else cfg.ringBus + 32 * (start + i + 1))
  {
    hide SetAdjacent, SetControl, ToBits, OfBits, NextAdj, CountsAhead, Lo;
    var n := |pieces|;
    var next := NextBus(cfg, start, i, n);
    ControlBytes(cfg, i, n);
    FreshWordIs(ControlByte(cfg, i, n), NextAdj(n - i - 1, Lo(next)));
    AheadIs(n - i - 1, next);
    assert Chain(cfg, start, pieces, ep)[i].control == ControlWord(cfg, start, i, n);
  }

  // ---- Following next pointers.

  /** The ring slot at a bus address, -1 if there is none. */
  function SlotAt(cfg: Config, addr: int): (r: int)
    ensures -1 <= r < RING
  {
    var off := addr - cfg.ringBus;
    if 0 <= off < RING * DESC_SIZE && off % DESC_SIZE == 0 then off / DESC_SIZE else -1
  }

  /** What the walk reads from a descriptor: whether to stop, and where to go with how many adjacent. */
  datatype View = View(stops: bool, next: int, adj: nat)

  function ViewOf(cfg: Config, d: Desc): View { View(Stops(d.control), SlotAt(cfg, d.Next()), Adjacent(d.control)) }

  function Views(cfg: Config, ring: seq<Desc>): (r: seq<View>)
  {
    seq(|ring|, k requires 0 <= k < |ring| => ViewOf(cfg, ring[k]))
  }

  /** The slots visited by following next pointers, at most `limit` of them. */
  function Chase(views: seq<View>, slot: int, limit: nat): (r: seq<nat>)
    ensures forall i :: 0 <= i < |r| ==> r[i] < |views|
    decreases limit
  {
    if limit == 0 || !(0 <= slot < |views|) then []
    else if views[slot].stops then [slot]
    else [slot] + Chase(views, views[slot].next, limit - 1)
  }

  datatype Block = Block(first: nat, count: nat)

  /**
    Fetch adj + 1 contiguous descriptors, then go on through the last one's next pointer and
    adjacent count; at most `limit` blocks, none leaving the ring.
   */
  function Prefetch(views: seq<View>, slot: int, adj: nat, limit: nat): (r: seq<Block>)
    decreases limit
  {
    if limit == 0 || !(0 <= slot < |views| - adj) then []
    else
      var last := views[slot + adj];
      if last.stops then [Block(slot, adj + 1)]
      else [Block(slot, adj + 1)] + Prefetch(views, last.next, last.adj, limit - 1)
  }

  function Consecutive(start: nat, n: nat): (r: seq<nat>) { seq(n, i requires 0 <= i => start + i) }

  function Flatten(blocks: seq<Block>): (r: seq<nat>)
  {
    if blocks == [] then [] else Consecutive(blocks[0].first, blocks[0].count) + Flatten(blocks[1..])
  }

  /**
    The views of a chain of |adjs| descriptors from slot start on, where adjs[i] is the adjacent
    count that goes with a pointer to descriptor i.
   */
  ghost predicate InSequence(views: seq<View>, start: nat, adjs: seq<nat>)
  {
    && start + |adjs| <= |views|
    && forall k :: start <= k < start + |adjs| ==>
         if k == start + |adjs| - 1 then views[k].stops
         else !views[k].stops && views[k].next == k + 1 && views[k].adj == adjs[k + 1 - start]
  }

  lemma {:induction false} ChaseFrom(views: seq<View>, start: nat, adjs: seq<nat>, k: nat, limit: nat)
    requires InSequence(views, start, adjs) && start <= k < start + |adjs|
    ensures Chase(views, k, limit) == Consecutive(k, Min(start + |adjs| - k, limit))
    decreases limit
  {
    if limit > 0 && k < start + |adjs| - 1 {
      ChaseFrom(views, start, adjs, k + 1, limit - 1);
      assert Consecutive(k, Min(start + |adjs| - k, limit)) ==
             [k] + Consecutive(k + 1, Min(start + |adjs| - k - 1, limit - 1));
    }
  }

  /** A block in front of blocks that visit the n slots after it. */
  lemma FlattenOn(b: Block, rest: seq<Block>, n: nat)
    requires (n == 0 && rest == []) || Flatten(rest) == Consecutive(b.first + b.count, n)
    ensures Flatten([b] + rest) == Consecutive(b.first, b.count + n)
  {
    assert ([b] + rest)[1..] == rest;
  }

  /** The i-th block that can be fetched, and all of them. */
  function BlockAt(start: nat, adjs: seq<nat>, i: nat): Block
    requires i < |adjs|
  {
    Block(start + i, adjs[i] + 1)
  }

  ghost predicate IsBlockOf(b: Block, start: nat, adjs: seq<nat>)
  {
    exists i: nat :: i < |adjs| && b == BlockAt(start, adjs, i)
  }

  /** No count reaches past the end. */
  ghost predicate Within(adjs: seq<nat>) { forall m :: 0 <= m < |adjs| ==> adjs[m] < |adjs| - m }

  /** One block, up to descriptor j of the chain, and then the rest. */
  lemma PrefetchStep(views: seq<View>, start: nat, adjs: seq<nat>, i: nat, limit: nat) returns (j: nat)
    requires InSequence(views, start, adjs) && Within(adjs) && i < |adjs| && limit >= |adjs| - i
    ensures i <= j < |adjs| && BlockAt(start, adjs, i) == Block(start + i, j + 1 - i)
    ensures Prefetch(views, start + i, adjs[i], limit) == [BlockAt(start, adjs, i)] +
      if j == |adjs| - 1 then [] else Prefetch(views, start + j + 1, adjs[j + 1], limit - 1)
  {
    j := i + adjs[i];
  }

  lemma {:induction false} PrefetchFrom(views: seq<View>, start: nat, adjs: seq<nat>, i: nat, limit: nat)
    requires InSequence(views, start, adjs) && Within(adjs) && i < |adjs| && limit >= |adjs| - i
    ensures Flatten(Prefetch(views, start + i, adjs[i], limit)) == Consecutive(start + i, |adjs| - i)
    decreases limit
  {
    hide Prefetch, Flatten, Consecutive, InSequence, Within, BlockAt;
    var j := PrefetchStep(views, start, adjs, i, limit);
    var b := Block(start + i, j + 1 - i);
    if j == |adjs| - 1 {
      FlattenOn(b, [], 0);
    } else {
      PrefetchFrom(views, start, adjs, j + 1, limit - 1);
      FlattenOn(b, Prefetch(views, start + j + 1, adjs[j + 1], limit - 1), |adjs| - j - 1);
    }
  }

  ghost predicate AllBlocks(blocks: seq<Block>, start: nat, adjs: seq<nat>)
  {
    forall b :: b in blocks ==> IsBlockOf(b, start, adjs)
  }

  lemma BlocksMore(rest: seq<Block>, start: nat, adjs: seq<nat>, i: nat)
    requires i < |adjs| && AllBlocks(rest, start, adjs)
    ensures AllBlocks([BlockAt(start, adjs, i)] + rest, start, adjs)
  {
    assert IsBlockOf(BlockAt(start, adjs, i), start, adjs);
    hide IsBlockOf, BlockAt;
  }

  /** Each block fetched is one that the driver announced. */
  lemma {:induction false} PrefetchBlocks(views: seq<View>, start: nat, adjs: seq<nat>, i: nat, limit: nat)
    requires InSequence(views, start, adjs) && Within(adjs) && i < |adjs| && limit >= |adjs| - i
    ensures AllBlocks(Prefetch(views, start + i, adjs[i], limit), start, adjs)
    decreases limit
  {
    assert AllBlocks([], start, adjs);
    hide Prefetch, InSequence, AllBlocks, BlockAt, Within;
    var j := PrefetchStep(views, start, adjs, i, limit);
    if j == |adjs| - 1 {
      BlocksMore([], start, adjs, i);
    } else {
      PrefetchBlocks(views, start, adjs, j + 1, limit - 1);
      BlocksMore(Prefetch(views, start + j + 1, adjs[j + 1], limit - 1), start, adjs, i);
    }
  }

  // ---- That a built chain is linked, and its blocks well placed.

  /** The ring holds the chain for these pieces from slot start on. */
  ghost predicate Holds(cfg: Config, ring: seq<Desc>, start: nat, pieces: seq<Segment>, ep: u64)
  {
    && cfg.Valid() && |ring| == RING && start + |pieces| <= RING && pieces != []
    && ring[start..start + |pieces|] == Chain(cfg, start, pieces, ep)
  }

  /** The adjacent count the driver attaches to a pointer to descriptor i of n. */
  function AdjAt(cfg: Config, start: nat, n: nat, i: nat): nat
    requires cfg.Valid() && start + n <= RING && i < n
  {
    NextAdj(n - i, Lo(cfg.SlotBus(start + i)))
  }

  function Adjs(cfg: Config, start: nat, n: nat): (r: seq<nat>)
    requires cfg.Valid() && start + n <= RING
    ensures |r| == n && forall i :: 0 <= i < n ==> r[i] == AdjAt(cfg, start, n, i) < n - i
  {
    seq(n, i requires 0 <= i < n => AdjAt(cfg, start, n, i))
  }

  lemma SlotAtBus(cfg: Config, slot: nat)
    requires cfg.Valid() && slot < RING
    ensures SlotAt(cfg, cfg.SlotBus(slot)) == slot
  {
  }

  lemma ViewOfDecoded(cfg: Config, d: Desc, start: nat, n: nat, i: nat)
    requires cfg.Valid() && start + n <= RING && i < n
    requires (Stops(d.control) <==> i == n - 1) && d.Next() == NextBus(cfg, start, i, n)
    requires Adjacent(d.control) == NextAdj(n - i - 1, Lo(NextBus(cfg, start, i, n)))
    ensures var v := ViewOf(cfg, d);
      if i == n - 1 then v.stops else !v.stops && v.next == start + i + 1 && v.adj == AdjAt(cfg, start, n, i + 1)
  {
    if i < n - 1 { SlotAtBus(cfg, start + i + 1); }
  }

  lemma ViewInChain(cfg: Config, start: nat, pieces: seq<Segment>, ep: u64, i: nat)
    requires cfg.Valid() && start + |pieces| <= RING && i < |pieces|
    ensures var v := ViewOf(cfg, Chain(cfg, start, pieces, ep)[i]); var n := |pieces|;
      if i == n - 1 then v.stops
      else !v.stops && v.next == start + i + 1 && v.adj == AdjAt(cfg, start, n, i + 1)
  {
    ControlDecodes(cfg, start, pieces, ep, i);
    ViewOfDecoded(cfg, Chain(cfg, start, pieces, ep)[i], start, |pieces|, i);
  }

  lemma HoldsLinked(cfg: Config, ring: seq<Desc>, start: nat, pieces: seq<Segment>, ep: u64)
    requires Holds(cfg, ring, start, pieces, ep)
    ensures InSequence(Views(cfg, ring), start, Adjs(cfg, start, |pieces|))
  {
    var views := Views(cfg, ring);
    forall k | start <= k < start + |pieces|
      ensures views[k] == ViewOf(cfg, Chain(cfg, start, pieces, ep)[k - start])
    {
      assert ring[start..start + |pieces|][k - start] == ring[k];
    }
    forall i | 0 <= i < |pieces|
      ensures var v := ViewOf(cfg, Chain(cfg, start, pieces, ep)[i]);
        if i == |pieces| - 1 then v.stops
        else !v.stops && v.next == start + i + 1 && v.adj == AdjAt(cfg, start, |pieces|, i + 1)
    {
      ViewInChain(cfg, start, pieces, ep, i);
    }
  }

  /** The block lies in the transfer, and its bytes in one 64-descriptor unit and one 4 KiB page. */
  predicate WellPlaced(cfg: Config, b: Block, start: nat, n: nat)
  {
    var a := cfg.ringBus + 32 * b.first;
    && 0 < b.count <= 64 && start <= b.first && b.first + b.count <= start + n
    && a / 2048 == (a + 32 * b.count - 1) / 2048 && a / 4096 == (a + 32 * b.count - 1) / 4096
  }

  lemma LowIndex(a: u64, unit: int)
    requires a == DESC_SIZE * unit
    ensures ((Lo(a) % PAGE) / DESC_SIZE) % MAX_ADJ_BLOCK == unit % MAX_ADJ_BLOCK
  {
    var u, r := unit / 128, unit % 128;
    var h: int, lo: int := Hi(a), Lo(a);
    assert a == TWO32 * h + lo;
    assert lo == PAGE * (u - 0x10_0000 * h) + DESC_SIZE * r;
    ModUnique(lo, PAGE, u - 0x10_0000 * h, DESC_SIZE * r);
    DivUnique(DESC_SIZE * r, DESC_SIZE, r, 0);
    ModUnique(unit, MAX_ADJ_BLOCK, 2 * u + r / MAX_ADJ_BLOCK, r % MAX_ADJ_BLOCK);
  }

  lemma SameFrame(a: nat, z: nat, q: nat)
    requires 2048 * q <= a <= z < 2048 * q + 2048
    ensures a / 2048 == z / 2048 && a / 4096 == z / 4096
  {
    DivUnique(a, 2048, q, a - 2048 * q);
    DivUnique(z, 2048, q, z - 2048 * q);
    var u := q / 2;
    assert 4096 * u <= a && z < 4096 * u + 4096;
    DivUnique(a, 4096, u, a - 4096 * u);
    DivUnique(z, 4096, u, z - 4096 * u);
  }

  /** A run of descriptors that ends within a 64-descriptor unit stays in one 2 KiB and one 4 KiB frame. */
  lemma UnitRoom(unit: nat, count: nat)
    requires 0 < count <= MAX_ADJ_BLOCK - unit % MAX_ADJ_BLOCK
    ensures var a := DESC_SIZE * unit; var z := a + DESC_SIZE * count - 1;
      a / 2048 == z / 2048 && a / 4096 == z / 4096
  {
    var q, r := unit / MAX_ADJ_BLOCK, unit % MAX_ADJ_BLOCK;
    assert DESC_SIZE * unit == 2048 * q + DESC_SIZE * r;
    SameFrame(DESC_SIZE * unit, DESC_SIZE * (unit + count) - 1, q);
  }

  lemma BlockPlaced(cfg: Config, start: nat, n: nat, i: nat)
    requires cfg.Valid() && start + n <= RING && i < n
    ensures WellPlaced(cfg, Block(start + i, AdjAt(cfg, start, n, i) + 1), start, n)
  {
    var a := cfg.SlotBus(start + i);
    var unit := a / DESC_SIZE;
    assert a == DESC_SIZE * unit;
    LowIndex(a, unit);
    UnitRoom(unit, AdjAt(cfg, start, n, i) + 1);
  }

  lemma BlocksPlaced(cfg: Config, start: nat, n: nat, b: Block)
    requires cfg.Valid() && start + n <= RING && IsBlockOf(b, start, Adjs(cfg, start, n))
    ensures WellPlaced(cfg, b, start, n)
  {
    var i: nat :| i < n && b == BlockAt(start, Adjs(cfg, start, n), i);
    BlockPlaced(cfg, start, n, i);
  }

  /**
    The first_desc and first_desc_adjacent registers that engine_start writes start a block fetch
    that visits exactly the chain, in the order of the next pointers, in well-placed blocks.
   */
  lemma PrefetchRefinesChase(cfg: Config, ring: seq<Desc>, start: nat, pieces: seq<Segment>, ep: u64, limit: nat)
    requires Holds(cfg, ring, start, pieces, ep) && limit >= |pieces|
    ensures var first := cfg.SlotBus(start); var views := Views(cfg, ring);
      var blocks := Prefetch(views, SlotAt(cfg, first), NextAdj(|pieces|, Lo(first)), limit);
      && Flatten(blocks) == Chase(views, SlotAt(cfg, first), limit) == Consecutive(start, |pieces|)
      && forall b :: b in blocks ==> WellPlaced(cfg, b, start, |pieces|)
  {
    var views, adjs := Views(cfg, ring), Adjs(cfg, start, |pieces|);
    hide InSequence, Chase, Prefetch, Flatten, Consecutive, Views, SlotAt, WellPlaced, NextAdj, Chain, IsBlockOf;
    assert Within(adjs);
    hide Within;
    HoldsLinked(cfg, ring, start, pieces, ep);
    SlotAtBus(cfg, start);
    ChaseFrom(views, start, adjs, start, limit);
    PrefetchFrom(views, start, adjs, 0, limit);
    PrefetchBlocks(views, start, adjs, 0, limit);
    var blocks := Prefetch(views, start, adjs[0], limit);
    forall b | b in blocks ensures WellPlaced(cfg, b, start, |pieces|) {
      BlocksPlaced(cfg, start, |pieces|, b);
    }
  }

  // ---- The effect on memory.

  type Mem = map<int, int>

  function Byte(m: Mem, a: int): int { if a in m then m[a] else 0 }

  /** Copy bytes one by one: src[k] of `from` to dst[k] of `to`. */
  function CopyBytes(from: Mem, to: Mem, src: seq<int>, dst: seq<int>): (r: Mem)
    requires |src| == |dst|
  {
    if src == [] then to
    else
      var n := |src| - 1;
      CopyBytes(from, to, src[..n], dst[..n])[dst[n] := Byte(from, src[n])]
  }

  /** What one executed descriptor moves: so many bytes from one bus address to another. */
  datatype Move = Move(src: u64, dst: u64, bytes: u32)

  function MoveOf(d: Desc): Move { Move(d.Src(), d.Dst(), d.bytes) }

  /** Perform moves in order. */
  function Perform(from: Mem, to: Mem, moves: seq<Move>): (r: Mem)
  {
    if moves == [] then to
    else
      var m := moves[|moves| - 1];
      CopyBytes(from, Perform(from, to, moves[..|moves| - 1]), Range(m.src, m.bytes), Range(m.dst, m.bytes))
  }

  /** The reference: one plain gather copy (to the device) or scatter copy (to the host) of a list. */
  function PlainCopy(toDevice: bool, from: Mem, to: Mem, sgl: seq<Segment>, ep: u64): (r: Mem)
  {
    AddressesLength(sgl);
    var dev := Range(ep, TotalLen(sgl));
    if toDevice then CopyBytes(from, to, Addresses(sgl), dev) else CopyBytes(from, to, dev, Addresses(sgl))
  }

  function HostSide(toDevice: bool, m: Move): Segment { Segment(if toDevice then m.src else m.dst, m.bytes) }
  function DeviceSide(toDevice: bool, m: Move): u64 { if toDevice then m.dst else m.src }

  function HostSides(toDevice: bool, moves: seq<Move>): (r: seq<Segment>)
    ensures |r| == |moves|
  {
    seq(|moves|, i requires 0 <= i < |moves| => HostSide(toDevice, moves[i]))
  }

  /** The move that piece i of a request calls for. */
  function PlannedMove(cfg: Config, pieces: seq<Segment>, ep: u64, i: nat): Move
    requires i < |pieces|
  {
    var dev := EndpointAfter(cfg, ep, pieces[..i]);
    if cfg.toDevice then Move(pieces[i].addr, dev, pieces[i].len) else Move(dev, pieces[i].addr, pieces[i].len)
  }

  function Planned(cfg: Config, pieces: seq<Segment>, ep: u64): (r: seq<Move>)
    ensures |r| == |pieces|
  {
    seq(|pieces|, i requires 0 <= i < |pieces| => PlannedMove(cfg, pieces, ep, i))
  }

  lemma PlannedPrefix(cfg: Config, pieces: seq<Segment>, ep: u64, k: nat)
    requires k <= |pieces|
    ensures Planned(cfg, pieces[..k], ep) == Planned(cfg, pieces, ep)[..k]
  {
    forall i | 0 <= i < k ensures PlannedMove(cfg, pieces[..k], ep, i) == PlannedMove(cfg, pieces, ep, i) {
      assert pieces[..k][..i] == pieces[..i];
    }
  }

  /** Planning one run of pieces and then the next, from where the first left the endpoint. */
  lemma PlannedConcat(cfg: Config, a: seq<Segment>, b: seq<Segment>, ep: u64)
    ensures Planned(cfg, a + b, ep) == Planned(cfg, a, ep) + Planned(cfg, b, EndpointAfter(cfg, ep, a))
    ensures EndpointAfter(cfg, EndpointAfter(cfg, ep, a), b) == EndpointAfter(cfg, ep, a + b)
  {
    forall i | 0 <= i < |a| ensures PlannedMove(cfg, a + b, ep, i) == PlannedMove(cfg, a, ep, i) {
      assert (a + b)[..i] == a[..i];
    }
    forall i | 0 <= i < |b|
      ensures PlannedMove(cfg, a + b, ep, |a| + i) == PlannedMove(cfg, b, EndpointAfter(cfg, ep, a), i)
    {
      assert (a + b)[..|a| + i] == a + b[..i];
      AfterConcat(ep, a, b[..i]);
    }
    AfterConcat(ep, a, b);
  }

  lemma {:induction false} CopyConcat(from: Mem, to: Mem, s1: seq<int>, d1: seq<int>, s2: seq<int>, d2: seq<int>)
    requires |s1| == |d1| && |s2| == |d2|
    ensures CopyBytes(from, to, s1 + s2, d1 + d2) == CopyBytes(from, CopyBytes(from, to, s1, d1), s2, d2)
    decreases |s2|
  {
    if s2 == [] {
      assert s1 + s2 == s1 && d1 + d2 == d1;
    } else {
      var n := |s2| - 1;
      assert (s1 + s2)[..|s1| + n] == s1 + s2[..n] && (d1 + d2)[..|d1| + n] == d1 + d2[..n];
      CopyConcat(from, to, s1, d1, s2[..n], d2[..n]);
    }
  }

  /** One more segment, copied to or from the next endpoint addresses. */
  lemma PlainCopyStep(toDevice: bool, from: Mem, to: Mem, sgl: seq<Segment>, ep: u64, k: nat)
    requires k < |sgl|
    ensures var dev := Range(After(ep, sgl[..k]), sgl[k].len); var host := Range(sgl[k].addr, sgl[k].len);
      var before := PlainCopy(toDevice, from, to, sgl[..k], ep);
      PlainCopy(toDevice, from, to, sgl[..k + 1], ep) ==
        if toDevice then CopyBytes(from, before, host, dev) else CopyBytes(from, before, dev, host)
  {
    var pre := sgl[..k];
    var t := TotalLen(pre);
    assert sgl[..k + 1][..k] == pre;
    AddressesLength(pre);
    RangeSplit(ep, t, sgl[k].len);
    AfterIs(ep, pre);
    var dev, host := Range(After(ep, pre), sgl[k].len), Range(sgl[k].addr, sgl[k].len);
    if toDevice {
      CopyConcat(from, to, Addresses(pre), Range(ep, t), host, dev);
    } else {
      CopyConcat(from, to, Range(ep, t), Addresses(pre), dev, host);
    }
  }

  /** With incrementing addresses the planned moves are a plain copy of the pieces. */
  lemma {:induction false} PlannedCopies(cfg: Config, pieces: seq<Segment>, ep: u64, from: Mem, to: Mem)
    requires !cfg.nonIncr
    ensures Perform(from, to, Planned(cfg, pieces, ep)) == PlainCopy(cfg.toDevice, from, to, pieces, ep)
    decreases |pieces|
  {
    if pieces != [] {
      var n := |pieces| - 1;
      PlannedPrefix(cfg, pieces, ep, n);
      PlannedCopies(cfg, pieces[..n], ep, from, to);
      PlainCopyStep(cfg.toDevice, from, to, pieces, ep, n);
      assert pieces[..n + 1] == pieces;
    }
  }

  /**
    With fixed addressing every planned move meets the one endpoint address; in any mode the host side is the
    pieces.
   */
  lemma PlannedSides(cfg: Config, pieces: seq<Segment>, ep: u64)
    ensures HostSides(cfg.toDevice, Planned(cfg, pieces, ep)) == pieces
    ensures cfg.nonIncr ==> forall m :: m in Planned(cfg, pieces, ep) ==> DeviceSide(cfg.toDevice, m) == ep
  {
  }

  /** What the hardware moves in at most `limit` descriptors from bus address addr. */
  function HardwareRun(cfg: Config, ring: seq<Desc>, addr: int, limit: nat): (r: seq<Move>)
    requires |ring| == RING
  {
    var slots := Chase(Views(cfg, ring), SlotAt(cfg, addr), limit);
    seq(|slots|, i requires 0 <= i < |slots| => MoveOf(ring[slots[i]]))
  }

  /** The descriptors of a chain make the planned moves. */
  lemma HoldsMoves(cfg: Config, ring: seq<Desc>, start: nat, pieces: seq<Segment>, ep: u64)
    requires Holds(cfg, ring, start, pieces, ep) && !cfg.StreamsToHost()
    ensures forall k :: start <= k < start + |pieces| ==> MoveOf(ring[k]) == Planned(cfg, pieces, ep)[k - start]
  {
    forall k | start <= k < start + |pieces| ensures MoveOf(ring[k]) == Planned(cfg, pieces, ep)[k - start] {
      assert ring[start..start + |pieces|][k - start] == ring[k];
      DataDecodes(cfg, start, pieces, ep, k - start);
    }
  }

  /** Running a chain, wholly or for its first `limit` descriptors, makes the planned moves of those pieces. */
  lemma ChainMeaning(cfg: Config, ring: seq<Desc>, start: nat, pieces: seq<Segment>, ep: u64, limit: nat)
    requires Holds(cfg, ring, start, pieces, ep) && !cfg.StreamsToHost()
    ensures HardwareRun(cfg, ring, cfg.SlotBus(start), limit) == Planned(cfg, pieces, ep)[..Min(|pieces|, limit)]
  {
    hide Planned, MoveOf, Chain, Adjs, Views, Chase, InSequence, SlotAt;
    HoldsLinked(cfg, ring, start, pieces, ep);
    SlotAtBus(cfg, start);
    ChaseFrom(Views(cfg, ring), start, Adjs(cfg, start, |pieces|), start, limit);
    HoldsMoves(cfg, ring, start, pieces, ep);
  }

  lemma HoldsHosts(cfg: Config, ring: seq<Desc>, start: nat, pieces: seq<Segment>, ep: u64)
    requires Holds(cfg, ring, start, pieces, ep)
    ensures forall k :: start <= k < start + |pieces| ==> HostSide(cfg.toDevice, MoveOf(ring[k])) == pieces[k - start]
  {
    forall k | start <= k < start + |pieces| ensures HostSide(cfg.toDevice, MoveOf(ring[k])) == pieces[k - start] {
      assert ring[start..start + |pieces|][k - start] == ring[k];
      AddressesAre(cfg, start, pieces, ep, k - start);
    }
  }

  /** In every mode, C2H streaming too, a chain visits the host's pieces in order. */
  lemma ChainHosts(cfg: Config, ring: seq<Desc>, start: nat, pieces: seq<Segment>, ep: u64, limit: nat)
    requires Holds(cfg, ring, start, pieces, ep)
    ensures HostSides(cfg.toDevice, HardwareRun(cfg, ring, cfg.SlotBus(start), limit)) == pieces[..Min(|pieces|, limit)]
  {
    hide HostSide, MoveOf, Chain, Adjs, Views, Chase, InSequence, SlotAt;
    HoldsLinked(cfg, ring, start, pieces, ep);
    SlotAtBus(cfg, start);
    ChaseFrom(Views(cfg, ring), start, Adjs(cfg, start, |pieces|), start, limit);
    HoldsHosts(cfg, ring, start, pieces, ep);
  }
}
