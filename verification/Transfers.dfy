/**
  transfer_init and what it calls: the next run of software descriptors becomes a chain of
  hardware descriptors in consecutive slots of the engine's 2048-slot ring.
 */
module Transfers {
  import opened Words
  import opened ScatterSplit
  import opened Descriptors

  /** What is fixed about an engine. resultBus is where C2H streaming results go. */
  datatype Config = Config(
    toDevice: bool, nonIncr: bool, streaming: bool, eopFlush: bool,
    ringBus: u64, resultBus: u64)
  {
    predicate Valid()
    {
      && 0 < ringBus && ringBus % DESC_SIZE == 0 && ringBus + RING * DESC_SIZE <= TWO64
      && resultBus + RING * DESC_SIZE <= TWO64
    }

    /** C2H streaming: the source field of a descriptor holds a result address instead. */
    predicate StreamsToHost() { streaming && !toDevice }

    function SlotBus(slot: nat): u64
      requires Valid() && slot < RING
    {
      ringBus + DESC_SIZE * slot
    }
  }

  /** The fields transfer_init leaves in struct xdma_transfer. */
  datatype Transfer = Transfer(
    descBus: u64, descIndex: nat, descNum: nat, descAdjacent: nat, cmplThreshold: nat, len: u32)

  // ---- Specification: the chain built for a run of pieces from a slot and an endpoint address.

  function EndpointAfter(cfg: Config, ep: u64, pieces: seq<Segment>): u64
  {
    if cfg.nonIncr then ep else After(ep, pieces)
  }

  /** Control byte of descriptor i of n. */
  function ControlByte(cfg: Config, i: nat, n: nat): bv32
  {
    if i == n - 1 then DESC_STOPPED | DESC_EOP | DESC_COMPLETED
    else if cfg.eopFlush then DESC_COMPLETED
    else 0
  }

  /** Bus address of the descriptor after descriptor i of n, 0 after the last. */
  function NextBus(cfg: Config, start: nat, i: nat, n: nat): u64
    requires cfg.Valid() && i < n && start + n <= RING
  {
    if i == n - 1 then 0 else cfg.SlotBus(start + i + 1)
  }

  function ControlWord(cfg: Config, start: nat, i: nat, n: nat): bv32
    requires cfg.Valid() && i < n && start + n <= RING
  {
    SetAdjacent(SetControl(DESC_MAGIC, ControlByte(cfg, i, n)),
                ToBits(NextAdj(n - i - 1, Lo(NextBus(cfg, start, i, n)))))
  }

  /** xdma_desc_set and the streaming override: the data half of the descriptor in slot `slot`. */
  function WithData(cfg: Config, d: Desc, slot: nat, piece: Segment, ep: u64): Desc
    requires cfg.Valid() && slot < RING
  {
    var result := cfg.resultBus + DESC_SIZE * slot;
    if cfg.toDevice then
      d.(bytes := piece.len, srcLo := Lo(piece.addr), srcHi := Hi(piece.addr), dstLo := Lo(ep), dstHi := Hi(ep))
    else
      var src := if cfg.streaming then result else ep;
      d.(bytes := piece.len, srcLo := Lo(src), srcHi := Hi(src), dstLo := Lo(piece.addr), dstHi := Hi(piece.addr))
  }

  function BuiltDesc(cfg: Config, start: nat, pieces: seq<Segment>, ep: u64, i: nat): Desc
    requires cfg.Valid() && i < |pieces| && start + |pieces| <= RING
  {
    var next := NextBus(cfg, start, i, |pieces|);
    WithData(cfg,
             Desc(ControlWord(cfg, start, i, |pieces|), 0, 0, 0, 0, 0, Lo(next), Hi(next)),
             start + i, pieces[i], EndpointAfter(cfg, ep, pieces[..i]))
  }

  function Chain(cfg: Config, start: nat, pieces: seq<Segment>, ep: u64): (r: seq<Desc>)
    requires cfg.Valid() && start + |pieces| <= RING
  {
    seq(|pieces|, i requires 0 <= i < |pieces| => BuiltDesc(cfg, start, pieces, ep, i))
  }

  /** How many descriptors a transfer takes when `left` software descriptors remain. */
  function ChainLength(descIdx: nat, left: nat): (r: nat)
    requires descIdx < RING && 0 < left
    ensures 0 < r <= left && descIdx + r <= RING
    ensures r == left || descIdx + r == RING
  {
    var descMax := Min(left, RING);
    if descIdx + descMax >= RING then RING - descIdx else descMax
  }

  class Request {
    const sdesc: seq<Segment>
    var epAddr: u64
    var swDescIdx: nat

    constructor (sdesc: seq<Segment>, ep: u64)
      ensures this.sdesc == sdesc && epAddr == ep && swDescIdx == 0
    {
      this.sdesc := sdesc;
      epAddr := ep;
      swDescIdx := 0;
    }
  }

  // ---- The stages of one descriptor, and that together they make BuiltDesc.

  function Linked(d: Desc, next: u64): Desc
  {
    d.(nextLo := Lo(next), nextHi := Hi(next), bytes := 0, control := DESC_MAGIC)
  }

  /** xdma_desc_set, then the streaming override with the result address. */
  function SetData(cfg: Config, d: Desc, rcBus: u64, ep: u64, len: u32, resultBus: u64): Desc
  {
    var e := d.(bytes := len);
    var f :=
      if cfg.toDevice then e.(srcLo := Lo(rcBus), srcHi := Hi(rcBus), dstLo := Lo(ep), dstHi := Hi(ep))
      else e.(srcLo := Lo(ep), srcHi := Hi(ep), dstLo := Lo(rcBus), dstHi := Hi(rcBus));
    if cfg.StreamsToHost() then f.(srcLo := Lo(resultBus), srcHi := Hi(resultBus)) else f
  }

  lemma SetDataIs(cfg: Config, d: Desc, slot: nat, piece: Segment, ep: u64)
    requires cfg.Valid() && slot < RING
    ensures SetData(cfg, d, piece.addr, ep, piece.len, cfg.resultBus + DESC_SIZE * slot) ==
      WithData(cfg, d, slot, piece, ep)
  {
  }

  function WithPiece(cfg: Config, d: Desc, start: nat, k: nat, pieces: seq<Segment>, ep: u64): Desc
    requires cfg.Valid() && start <= k < start + |pieces| <= RING
  {
    WithData(cfg, d, k, pieces[k - start], EndpointAfter(cfg, ep, pieces[..k - start]))
  }

  function WithAdjacent(d: Desc, remaining: nat): Desc
  {
    d.(control := SetAdjacent(d.control, ToBits(NextAdj(remaining, d.nextLo))))
  }

  /** The slots outside start..start+n are the same in both rings. */
  ghost predicate SameOutside(before: seq<Desc>, after: seq<Desc>, start: nat, n: nat)
  {
    && |before| == |after| == RING && start + n <= RING
    && forall k :: 0 <= k < RING && !(start <= k < start + n) ==> after[k] == before[k]
  }

  ghost predicate IsLinked(cfg: Config, before: seq<Desc>, after: seq<Desc>, start: nat, n: nat)
    requires cfg.Valid()
  {
    && SameOutside(before, after, start, n)
    && forall k :: start <= k < start + n ==> after[k] == Linked(before[k], NextBus(cfg, start, k - start, n))
  }

  ghost predicate IsBuilt(cfg: Config, before: seq<Desc>, after: seq<Desc>, start: nat, pieces: seq<Segment>, ep: u64)
    requires cfg.Valid()
  {
    && SameOutside(before, after, start, |pieces|)
    && forall k :: start <= k < start + |pieces| ==> after[k] == WithPiece(cfg, before[k], start, k, pieces, ep)
  }

  ghost predicate IsControlled(cfg: Config, before: seq<Desc>, after: seq<Desc>, start: nat, n: nat)
  {
    && SameOutside(before, after, start, n)
    && forall k :: start <= k < start + n ==>
         after[k] == before[k].(control := SetControl(DESC_MAGIC, ControlByte(cfg, k - start, n)))
  }

  ghost predicate IsAdjacent(before: seq<Desc>, after: seq<Desc>, start: nat, n: nat)
  {
    && SameOutside(before, after, start, n)
    && forall k :: start <= k < start + n ==> after[k] == WithAdjacent(before[k], start + n - k - 1)
  }

  lemma FreshControls(cfg: Config, start: nat, pieces: seq<Segment>, ep: u64,
                      before: seq<Desc>, linked: seq<Desc>, built: seq<Desc>)
    requires cfg.Valid() && start + |pieces| <= RING
    requires IsLinked(cfg, before, linked, start, |pieces|) && IsBuilt(cfg, linked, built, start, pieces, ep)
    ensures forall k :: start <= k < start + |pieces| ==> built[k].control == DESC_MAGIC
  {
    forall k | start <= k < start + |pieces| ensures built[k].control == DESC_MAGIC {
      assert linked[k].control == DESC_MAGIC;
    }
  }

  lemma StagesMakeChain(cfg: Config, start: nat, pieces: seq<Segment>, ep: u64,
                        before: seq<Desc>, linked: seq<Desc>, built: seq<Desc>, controlled: seq<Desc>, after: seq<Desc>)
    requires cfg.Valid() && start + |pieces| <= RING
    requires IsLinked(cfg, before, linked, start, |pieces|)
    requires IsBuilt(cfg, linked, built, start, pieces, ep)
    requires IsControlled(cfg, built, controlled, start, |pieces|)
    requires IsAdjacent(controlled, after, start, |pieces|)
    ensures after == before[..start] + Chain(cfg, start, pieces, ep) + before[start + |pieces|..]
  {
    forall k | start <= k < start + |pieces|
      ensures after[k] == BuiltDesc(cfg, start, pieces, ep, k - start)
    {
      assert controlled[k].nextLo == Lo(NextBus(cfg, start, k - start, |pieces|));
    }
  }

  lemma TotalGrows(pieces: seq<Segment>, i: nat)
    requires i < |pieces|
    ensures TotalLen(pieces[..i + 1]) == TotalLen(pieces[..i]) + pieces[i].len
  {
    assert pieces[..i + 1][..i] == pieces[..i];
  }

  lemma Advance(cfg: Config, pieces: seq<Segment>, ep: u64, i: nat)
    requires i < |pieces|
    ensures Wrap32(Wrap32(TotalLen(pieces[..i])) + pieces[i].len) == Wrap32(TotalLen(pieces[..i + 1]))
    ensures EndpointAfter(cfg, ep, pieces[..i + 1]) ==
      if cfg.nonIncr then ep else Wrap64(EndpointAfter(cfg, ep, pieces[..i]) + pieces[i].len)
  {
    TotalGrows(pieces, i);
    WrapAdd32(TotalLen(pieces[..i]), pieces[i].len);
    assert pieces[..i + 1][..i] == pieces[..i];
  }

  lemma ZeroControl()
    ensures SetControl(DESC_MAGIC, 0) == DESC_MAGIC
  {
  }

  // ---- The code.

  class Engine {
    const cfg: Config
    const desc: array<Desc>
    var descIdx: nat
    var descUsed: int

    ghost predicate Valid()
      reads this
    {
      cfg.Valid() && desc.Length == RING && descIdx < RING
    }

    constructor (cfg: Config)
      requires cfg.Valid()
      ensures Valid() && fresh(desc) && this.cfg == cfg && descIdx == 0 && descUsed == 0
    {
      this.cfg := cfg;
      desc := new Desc[RING](_ => Desc(0, 0, 0, 0, 0, 0, 0, 0));
      descIdx := 0;
      descUsed := 0;
    }

    /** transfer_desc_init: link the slots and reset length and control. */
    method DescInit(start: nat, count: nat)
      requires Valid() && 0 < count && start + count <= RING
      modifies desc
      ensures IsLinked(cfg, old(desc[..]), desc[..], start, count)
    {
      var bus: u64 := cfg.SlotBus(start);
      var i := 0;
      while i < count - 1
        invariant 0 <= i <= count - 1 && bus == cfg.SlotBus(start + i)
        invariant forall k :: 0 <= k < RING && !(start <= k < start + i) ==> desc[k] == old(desc[k])
        invariant forall k :: start <= k < start + i ==>
          desc[k] == Linked(old(desc[k]), NextBus(cfg, start, k - start, count))
      {
        bus := bus + DESC_SIZE;
        desc[start + i] := Linked(desc[start + i], bus);
        i := i + 1;
      }
      desc[start + i] := Linked(desc[start + i], 0);
    }

    /** xdma_desc_set and the streaming override on one slot. */
    method FillSlot(slot: nat, piece: Segment, ep: u64, resultBus: u64)
      requires Valid() && slot < RING && resultBus == cfg.resultBus + DESC_SIZE * slot
      modifies desc
      ensures desc[..] == old(desc[..])[slot := WithData(cfg, old(desc[slot]), slot, piece, ep)]
    {
      SetDataIs(cfg, desc[slot], slot, piece, ep);
      desc[slot] := SetData(cfg, desc[slot], piece.addr, ep, piece.len, resultBus);
    }

    /** transfer_build: fill in addresses and lengths, advancing the request. */
    method Build(req: Request, start: nat, count: nat) returns (len: u32)
      requires Valid() && 0 < count && start + count <= RING && req.swDescIdx + count <= |req.sdesc|
      modifies desc, req
      ensures req.swDescIdx == old(req.swDescIdx) + count
      ensures var pieces := req.sdesc[old(req.swDescIdx)..old(req.swDescIdx) + count];
        && len == Wrap32(TotalLen(pieces))
        && req.epAddr == EndpointAfter(cfg, old(req.epAddr), pieces)
        && IsBuilt(cfg, old(desc[..]), desc[..], start, pieces, old(req.epAddr))
    {
      ghost var pieces, ep, before := req.sdesc[req.swDescIdx..req.swDescIdx + count], req.epAddr, desc[..];
      var bus: u64 := cfg.resultBus + DESC_SIZE * start;
      var epAddr: u64 := req.epAddr;
      len := 0;
      assert pieces[..0] == [];
      for i := 0 to count
        modifies desc
        invariant i < count ==> bus == cfg.resultBus + DESC_SIZE * (start + i)
        invariant epAddr == EndpointAfter(cfg, ep, pieces[..i])
        invariant len == Wrap32(TotalLen(pieces[..i]))
        invariant forall k :: 0 <= k < RING && !(start <= k < start + i) ==> desc[..][k] == before[k]
        invariant forall k :: start <= k < start + i ==>
          desc[..][k] == WithPiece(cfg, before[k], start, k, pieces, ep)
      {
        var s := req.sdesc[req.swDescIdx + i];
        Advance(cfg, pieces, ep, i);
        FillSlot(start + i, s, epAddr, bus);
        len := Wrap32(len + s.len);
        if !cfg.nonIncr { epAddr := Wrap64(epAddr + s.len); }
        bus := Wrap64(bus + DESC_SIZE);
      }
      assert pieces[..count] == pieces;
      req.epAddr := epAddr;
      req.swDescIdx := req.swDescIdx + count;
    }

    /** Control bytes: the last descriptor stops the engine; with eop_flush each one reports. */
    method SetControls(start: nat, count: nat)
      requires Valid() && 0 < count && start + count <= RING
      requires forall k :: start <= k < start + count ==> desc[k].control == DESC_MAGIC
      modifies desc
      ensures IsControlled(cfg, old(desc[..]), desc[..], start, count)
    {
      var last := start + count - 1;
      var control := DESC_STOPPED | DESC_EOP | DESC_COMPLETED;
      desc[last] := desc[last].(control := SetControl(desc[last].control, control));
      if cfg.eopFlush {
        for i := start to last
          invariant forall k :: 0 <= k < RING && !(start <= k < i) && k != last ==> desc[k] == old(desc[k])
          invariant desc[last] == old(desc[last]).(control := SetControl(DESC_MAGIC, control))
          invariant forall k :: start <= k < i ==>
            desc[k] == old(desc[k]).(control := SetControl(DESC_MAGIC, DESC_COMPLETED))
        {
          desc[i] := desc[i].(control := SetControl(desc[i].control, DESC_COMPLETED));
        }
      } else {
        ZeroControl();
      }
    }

    /** The adjacent-count loop, which reads back each descriptor's next_lo. */
    method SetAdjacents(start: nat, count: nat)
      requires Valid() && start + count <= RING
      modifies desc
      ensures IsAdjacent(old(desc[..]), desc[..], start, count)
    {
      for i := start to start + count
        invariant forall k :: 0 <= k < RING && !(start <= k < i) ==> desc[k] == old(desc[k])
        invariant forall k :: start <= k < i ==> desc[k] == WithAdjacent(old(desc[k]), start + count - k - 1)
      {
        desc[i] := WithAdjacent(desc[i], start + count - i - 1);
      }
    }

    /** The writing part of transfer_init: the chain for `count` pieces from slot `start`. */
    method WriteChain(req: Request, start: nat, count: nat) returns (len: u32)
      requires Valid() && 0 < count && start + count <= RING && req.swDescIdx + count <= |req.sdesc|
      modifies desc, req
      ensures req.swDescIdx == old(req.swDescIdx) + count
      ensures var pieces := req.sdesc[old(req.swDescIdx)..old(req.swDescIdx) + count];
        && len == Wrap32(TotalLen(pieces))
        && req.epAddr == EndpointAfter(cfg, old(req.epAddr), pieces)
        && desc[..] == old(desc[..])[..start] + Chain(cfg, start, pieces, old(req.epAddr))
                       + old(desc[..])[start + count..]
    {
      ghost var pieces, ep, before := req.sdesc[req.swDescIdx..req.swDescIdx + count], req.epAddr, desc[..];
      DescInit(start, count);
      ghost var linked := desc[..];
      len := Build(req, start, count);
      ghost var built := desc[..];
      FreshControls(cfg, start, pieces, ep, before, linked, built);
      SetControls(start, count);
      ghost var controlled := desc[..];
      SetAdjacents(start, count);
      StagesMakeChain(cfg, start, pieces, ep, before, linked, built, controlled, desc[..]);
    }

    /** transfer_init: one transfer for the next pieces of the request, given back as `part`. */
    method TransferInit(req: Request) returns (xfer: Transfer, ghost part: seq<Segment>)
      requires Valid() && req.swDescIdx < |req.sdesc|
      modifies this, desc, req
      ensures Valid()
      ensures xfer.descNum == ChainLength(old(descIdx), |req.sdesc| - old(req.swDescIdx))
      ensures xfer.descAdjacent == xfer.descNum && xfer.cmplThreshold == (if cfg.eopFlush then 1 else xfer.descNum)
      ensures xfer.descIndex == old(descIdx) && xfer.descBus == cfg.SlotBus(old(descIdx))
      ensures req.swDescIdx == old(req.swDescIdx) + xfer.descNum
      ensures part == req.sdesc[old(req.swDescIdx)..req.swDescIdx] && xfer.len == Wrap32(TotalLen(part))
      ensures req.epAddr == EndpointAfter(cfg, old(req.epAddr), part)
      ensures descIdx == (old(descIdx) + xfer.descNum) % RING && descUsed == old(descUsed) + xfer.descNum
      ensures desc[..] == old(desc[..])[..old(descIdx)] + Chain(cfg, old(descIdx), part, old(req.epAddr))
                          + old(desc[..])[old(descIdx) + |part|..]
    {
      var start := descIdx;
      var n := Min(|req.sdesc| - req.swDescIdx, RING);
      if start + n >= RING { n := RING - start; }
      part := req.sdesc[req.swDescIdx..req.swDescIdx + n];
      var len := WriteChain(req, start, n);
      xfer := Transfer(cfg.SlotBus(start), start, n, n, if cfg.eopFlush then 1 else n, len);
      descIdx := (start + n) % RING;
      descUsed := descUsed + n;
    }
  }
}
