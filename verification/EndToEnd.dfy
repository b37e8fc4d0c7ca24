/**
  char_sgdma_read_write as a whole: user pages become a scatter list, the list becomes descriptor
  chains, the chains move the bytes, and the pages are given back.
 */
module EndToEnd {
  import opened Words
  import opened ScatterSplit
  import opened Descriptors
  import opened Transfers
  import opened DmaMeaning
  import opened Submit
  import PageMap

  /** Where the DMA mapping puts each page on the bus. */
  type Bus = nat -> nat

  /** The mapped scatter list: one segment per entry. */
  function Mapped(bus: Bus, sgl: seq<PageMap.SgEntry>): (r: seq<Segment>)
    ensures |r| == |sgl|
  {
    if sgl == [] then []
    else
      var e := sgl[|sgl| - 1];
      Mapped(bus, sgl[..|sgl| - 1]) + [Segment(Wrap64(bus(e.page) + e.offset), e.len)]
  }

  /** The bus address of byte k of the user's buffer, found by walking the pages. */
  function UserByte(bus: Bus, buf: u64, pages: seq<nat>, k: nat): int
  {
    var x := PageMap.Offset(buf) + k;
    if x / PageMap.PAGE_SIZE < |pages|
    then Wrap64(bus(pages[x / PageMap.PAGE_SIZE]) + x % PageMap.PAGE_SIZE) else 0
  }

  function UserBytes(bus: Bus, buf: u64, pages: seq<nat>, n: nat): (r: seq<int>)
    ensures |r| == n
  {
    seq(n, k requires 0 <= k => UserByte(bus, buf, pages, k))
  }

  /** Byte j of entry i is byte BytesBefore(i) + j of the buffer. */
  lemma EntryByte(bus: Bus, buf: u64, len: nat, pages: seq<nat>, i: nat, j: nat)
    requires 0 < len && |pages| == PageMap.PagesTouched(buf, len) && i < |pages|
    requires j < PageMap.EntryLen(buf, len, i)
    ensures var k := PageMap.BytesBefore(buf, len, i) + j;
      UserByte(bus, buf, pages, k) == Wrap64(Wrap64(bus(pages[i]) + PageMap.EntryOffset(buf, i)) + j)
  {
    PageMap.EntriesTile(buf, len, i);
    var k := PageMap.BytesBefore(buf, len, i) + j;
    var r := PageMap.EntryOffset(buf, i) + j;
    assert PageMap.Offset(buf) + k == PageMap.PAGE_SIZE * i + r;
    DivUnique(PageMap.Offset(buf) + k, PageMap.PAGE_SIZE, i, r);
    ModUnique(PageMap.Offset(buf) + k, PageMap.PAGE_SIZE, i, r);
    WrapAdd(bus(pages[i]) + PageMap.EntryOffset(buf, i), j);
  }

  lemma EntryRange(bus: Bus, buf: u64, len: nat, pages: seq<nat>, i: nat)
    requires 0 < len && |pages| == PageMap.PagesTouched(buf, len) && i < |pages|
    ensures var b, n := PageMap.BytesBefore(buf, len, i), PageMap.EntryLen(buf, len, i);
      && 0 <= n && b + n == PageMap.BytesBefore(buf, len, i + 1)
      && UserBytes(bus, buf, pages, b + n) ==
         UserBytes(bus, buf, pages, b) + Range(Wrap64(bus(pages[i]) + PageMap.EntryOffset(buf, i)), n)
  {
    hide UserByte, PageMap.BytesBefore, PageMap.EntryLen, PageMap.EntryOffset, PageMap.PagesTouched, Wrap64;
    PageMap.EntriesTile(buf, len, i);
    var b, n := PageMap.BytesBefore(buf, len, i), PageMap.EntryLen(buf, len, i);
    var all := UserBytes(bus, buf, pages, b + n);
    var r := Range(Wrap64(bus(pages[i]) + PageMap.EntryOffset(buf, i)), n);
    forall j | 0 <= j < n ensures all[b + j] == r[j] {
      EntryByte(bus, buf, len, pages, i, j);
    }
    assert all[..b] == UserBytes(bus, buf, pages, b);
    assert all[b..] == r;
  }

  lemma NoBytes(bus: Bus, buf: u64, len: u64, pages: seq<nat>)
    ensures UserBytes(bus, buf, pages, PageMap.BytesBefore(buf, len, 0)) == []
  {
  }

  lemma {:induction false} MappedPrefix(bus: Bus, buf: u64, len: u64, pages: seq<nat>, sgl: seq<PageMap.SgEntry>,
                                        i: nat)
    requires 0 < len && |pages| == PageMap.PagesTouched(buf, len) && PageMap.IsSgl(sgl, buf, len, pages) && i <= |sgl|
    ensures Addresses(Mapped(bus, sgl[..i])) == UserBytes(bus, buf, pages, PageMap.BytesBefore(buf, len, i))
    decreases i
  {
    hide UserBytes, Range;
    if i > 0 {
      MappedPrefix(bus, buf, len, pages, sgl, i - 1);
      assert sgl[..i][..i - 1] == sgl[..i - 1];
      EntryRange(bus, buf, len, pages, i - 1);
      var front, e := Mapped(bus, sgl[..i - 1]), sgl[i - 1];
      var seg := Segment(Wrap64(bus(e.page) + e.offset), e.len);
      hide PageMap.BytesBefore, PageMap.EntryLen, PageMap.EntryOffset, PageMap.PagesTouched, Wrap64;
      assert (front + [seg])[..|front|] == front;
    } else {
      NoBytes(bus, buf, len, pages);
      assert sgl[..0] == [];
    }
  }

  lemma FirstPage(buf: u64, len: nat)
    requires 0 < len
    ensures PageMap.PagesTouched(buf, len) > 0
  {
  }

  /** The scatter list of a user buffer denotes the buffer's bytes, in order. */
  lemma MappedIsUser(bus: Bus, buf: u64, len: u64, pages: seq<nat>, sgl: seq<PageMap.SgEntry>)
    requires 0 < len && |pages| == PageMap.PagesTouched(buf, len) && PageMap.IsSgl(sgl, buf, len, pages)
    ensures Addresses(Mapped(bus, sgl)) == UserBytes(bus, buf, pages, len) && TotalLen(Mapped(bus, sgl)) == len
  {
    MappedPrefix(bus, buf, len, pages, sgl, |sgl|);
    assert sgl[..|sgl|] == sgl;
    FirstPage(buf, len);
    PageMap.EntriesTile(buf, len, 0);
    AddressesLength(Mapped(bus, sgl));
  }

  // ---- Reading back what a copy wrote.

  lemma {:induction false} CopyReads(from: Mem, to: Mem, src: seq<int>, dst: seq<int>, k: nat)
    requires |src| == |dst| && k < |dst| && Distinct(dst)
    ensures Byte(CopyBytes(from, to, src, dst), dst[k]) == Byte(from, src[k])
    decreases |dst|
  {
    var n := |dst| - 1;
    if k < n { CopyReads(from, to, src[..n], dst[..n], k); }
  }

  lemma {:induction false} CopyKeeps(from: Mem, to: Mem, src: seq<int>, dst: seq<int>, a: int)
    requires |src| == |dst| && a !in dst
    ensures Byte(CopyBytes(from, to, src, dst), a) == Byte(to, a)
    decreases |dst|
  {
    if dst != [] {
      var n := |dst| - 1;
      assert a != dst[n] && a !in dst[..n];
      CopyKeeps(from, to, src[..n], dst[..n], a);
    }
  }

  lemma WrapApart(x: nat, y: nat)
    requires 0 < y - x < TWO64
    ensures Wrap64(x) != Wrap64(y)
  {
    var p, q := x / TWO64, y / TWO64;
    assert Wrap64(x) == x - TWO64 * p && Wrap64(y) == y - TWO64 * q;
  }

  lemma RangeDistinct(ep: u64, n: nat)
    requires n <= TWO64
    ensures Distinct(Range(ep, n))
  {
    var r := Range(ep, n);
    forall i, j | 0 <= i < j < |r| ensures r[i] != r[j] {
      WrapApart(ep + i, ep + j);
    }
  }

  /** Every byte of dst holds its source byte, and nothing else has changed. */
  ghost predicate Arrived(from: Mem, to: Mem, after: Mem, src: seq<int>, dst: seq<int>)
    requires |src| == |dst|
  {
    && (forall k :: 0 <= k < |dst| ==> Byte(after, dst[k]) == Byte(from, src[k]))
    && (forall a :: a !in dst ==> Byte(after, a) == Byte(to, a))
  }

  lemma CopyArrives(from: Mem, to: Mem, src: seq<int>, dst: seq<int>)
    requires |src| == |dst| && Distinct(dst)
    ensures Arrived(from, to, CopyBytes(from, to, src, dst), src, dst)
  {
    forall k | 0 <= k < |dst| ensures Byte(CopyBytes(from, to, src, dst), dst[k]) == Byte(from, src[k]) {
      CopyReads(from, to, src, dst, k);
    }
    forall a | a !in dst ensures Byte(CopyBytes(from, to, src, dst), a) == Byte(to, a) {
      CopyKeeps(from, to, src, dst, a);
    }
  }

  /**
    The first k bytes of the call have arrived and nothing else has changed: to the device, byte i of the
    buffer at pos + i; from it, byte pos + i at byte i of the buffer, if no two of its bytes share an address.
   */
  ghost predicate PartArrived(write: bool, from: Mem, to: Mem, after: Mem, user: seq<int>, dev: seq<int>, k: nat)
    requires k <= |user| == |dev|
  {
    && (write ==> Arrived(from, to, after, user[..k], dev[..k]))
    && (!write && Distinct(user) ==> Arrived(from, to, after, dev[..k], user[..k]))
  }

  lemma CopyPart(write: bool, from: Mem, to: Mem, user: seq<int>, dev: seq<int>, k: nat)
    requires k <= |user| == |dev| && Distinct(dev)
    ensures var after :=
        if write then CopyBytes(from, to, user[..k], dev[..k]) else CopyBytes(from, to, dev[..k], user[..k]);
      PartArrived(write, from, to, after, user, dev, k)
  {
    hide CopyBytes, Arrived;
    if write {
      assert Distinct(dev[..k]);
      CopyArrives(from, to, user[..k], dev[..k]);
    } else if Distinct(user) {
      assert Distinct(user[..k]);
      CopyArrives(from, to, dev[..k], user[..k]);
    }
  }

  lemma AddressesPrefix(pieces: seq<Segment>, moved: nat)
    requires moved <= |pieces|
    ensures var k := TotalLen(pieces[..moved]);
      k <= |Addresses(pieces)| && Addresses(pieces)[..k] == Addresses(pieces[..moved])
  {
    hide Addresses, TotalLen;
    assert pieces[..moved] + pieces[moved..] == pieces;
    AddressesConcat(pieces[..moved], pieces[moved..]);
    AddressesLength(pieces[..moved]);
  }

  lemma RangePrefix(ep: u64, n: nat, k: nat)
    requires k <= n
    ensures |Range(ep, n)| == n && Range(ep, n)[..k] == Range(ep, k)
  {
  }

  /** What has been moved after some of the pieces of a list: a copy of that many of its bytes. */
  lemma MovedPart(cfg: Config, sgl: seq<Segment>, pieces: seq<Segment>, moved: nat, ep: u64, moves: seq<Move>,
                  from: Mem, to: Mem)
    requires Made(cfg, pieces, moved, ep, moves) && !cfg.StreamsToHost() && !cfg.nonIncr
    requires Addresses(pieces) == Addresses(sgl)
    ensures var k := TotalLen(pieces[..moved]); var user := Addresses(sgl); var dev := Range(ep, |user|);
      && k <= |user|
      && Perform(from, to, moves) ==
           if cfg.toDevice then CopyBytes(from, to, user[..k], dev[..k]) else CopyBytes(from, to, dev[..k], user[..k])
  {
    hide CopyBytes, Perform, Planned, Addresses, TotalLen, Range;
    PlannedPrefix(cfg, pieces, ep, moved);
    PlannedCopies(cfg, pieces[..moved], ep, from, to);
    AddressesPrefix(pieces, moved);
    RangePrefix(ep, |Addresses(sgl)|, TotalLen(pieces[..moved]));
  }

  /** A mapped buffer, some of whose pieces have been moved. */
  lemma UserCopy(cfg: Config, from: Mem, to: Mem, bus: Bus, buf: u64, len: u64, pages: seq<nat>,
                 sgl: seq<PageMap.SgEntry>, pos: u64, pieces: seq<Segment>, moved: nat, moves: seq<Move>)
    requires 0 < len && |pages| == PageMap.PagesTouched(buf, len) && PageMap.IsSgl(sgl, buf, len, pages)
    requires Made(cfg, pieces, moved, pos, moves) && !cfg.StreamsToHost() && !cfg.nonIncr
    requires Addresses(pieces) == Addresses(Mapped(bus, sgl))
    ensures var k := TotalLen(pieces[..moved]);
      && k <= len
      && PartArrived(cfg.toDevice, from, to, Perform(from, to, moves), UserBytes(bus, buf, pages, len),
          Range(pos, len), k)
  {
    assert moved <= |pieces|;
    hide CopyBytes, Mapped, UserBytes, PageMap.IsSgl, PageMap.PagesTouched, PartArrived, Made, Perform, TotalLen,
        Addresses;
    MappedIsUser(bus, buf, len, pages, sgl);
    MovedPart(cfg, Mapped(bus, sgl), pieces, moved, pos, moves, from, to);
    RangeDistinct(pos, len);
    hide Distinct;
    CopyPart(cfg.toDevice, from, to, UserBytes(bus, buf, pages, len), Range(pos, len), TotalLen(pieces[..moved]));
  }

  // ---- The code.

  /** What the DMA mapping makes of the entries: segments, one for each or fewer, [] if it fails. */
  type DmaMap = seq<PageMap.SgEntry> -> seq<Segment>

  /** The kernel's contract: the same bytes in the same order, in segments within its size limit. */
  ghost predicate MapsPages(dma: DmaMap, bus: Bus, blen: u32)
  {
    forall e :: dma(e) == [] || (Addresses(dma(e)) == Addresses(Mapped(bus, e)) && !SomeSizeWraps(dma(e), blen))
  }

  ghost predicate NeverFails(dma: DmaMap) { forall e :: dma(e) != [] }

  /** check_transfer_align, for alignments that are powers of two. */
  predicate Aligned(cfg: Config, buf: u64, len: u64, pos: u64, addrAlign: nat, lenGranularity: nat)
    requires 0 < addrAlign && 0 < lenGranularity
  {
    if cfg.nonIncr then buf % addrAlign == 0 && pos % addrAlign == 0 && len % lenGranularity == 0
    else buf % addrAlign == pos % addrAlign
  }

  /** The call is refused before anything is done. */
  predicate Refuses(cfg: Config, buf: u64, len: u64, pos: u64, write: bool, addrAlign: nat, lenGranularity: nat)
    requires 0 < addrAlign && 0 < lenGranularity
  {
    write != cfg.toDevice || !Aligned(cfg, buf, len, pos, addrAlign, lenGranularity)
  }

  /** The right engine, in memory-mapped mode, and a buffer that maps. */
  ghost predicate GoesThrough(cfg: Config, buf: u64, len: u64, write: bool, sgOk: bool, pagesOk: bool, pin: PageMap.Pin)
  {
    && write == cfg.toDevice && (cfg.toDevice || !cfg.streaming) && 0 < len
    && pin.Pinned? && PageMap.MapResult(buf, len, sgOk, pagesOk, pin) == 0
  }

  ghost predicate AlwaysCompletes(outcome: nat -> Outcome) { forall k :: outcome(k).Completed? }

  /**
    What a call that goes through does: k bytes arrive, no fewer than it reports, and all of them if every
    transfer completes. With fixed addressing, then, all bytes meet the one device address in order.
   */
  ghost predicate Delivers(cfg: Config, from: Mem, to: Mem, user: seq<int>, pos: u64, outcome: nat -> Outcome,
                           moves: seq<Move>, ret: int)
  {
    && (!cfg.nonIncr ==> exists k: nat ::
          && k <= |user| && ret <= k && (AlwaysCompletes(outcome) ==> k == |user|)
          && PartArrived(cfg.toDevice, from, to, Perform(from, to, moves), user, Range(pos, |user|), k))
    && (AlwaysCompletes(outcome) ==>
          && ret == |user| && Addresses(HostSides(cfg.toDevice, moves)) == user
          && (cfg.nonIncr ==> forall m :: m in moves ==> DeviceSide(cfg.toDevice, m) == pos))
  }

  /** What XferSubmit promises of the mapped list is what the user's call needs. */
  lemma SubmitDelivers(cfg: Config, idx0: nat, from: Mem, to: Mem, bus: Bus, buf: u64, len: u64, pages: seq<nat>,
                       entries: seq<PageMap.SgEntry>, sgl: seq<Segment>, pos: u64, blen: u32, outcome: nat -> Outcome,
                       moves: seq<Move>, built: seq<nat>, moved: nat, usedMore: int, ret: int)
    requires 0 < len < TWO32 && |pages| == PageMap.PagesTouched(buf, len) && PageMap.IsSgl(entries, buf, len, pages)
    requires idx0 < RING && 0 < blen && !cfg.StreamsToHost() && Addresses(sgl) == Addresses(Mapped(bus, entries))
    requires Made(cfg, SplitList(sgl, blen), moved, pos, moves)
    requires Ended(cfg, idx0, SplitList(sgl, blen), outcome, built, moved, usedMore, ret)
    requires AllCompleted(outcome, |built|) ==> MovesList(cfg, sgl, pos, moves)
    ensures Delivers(cfg, from, to, UserBytes(bus, buf, pages, len), pos, outcome, moves, ret)
  {
    var pieces, user := SplitList(sgl, blen), UserBytes(bus, buf, pages, len);
    SplitListTiles(sgl, blen);
    AddressesLength(sgl);
    MappedIsUser(bus, buf, len, pages, entries);
    NeverOverstates(cfg, idx0, pieces, outcome, built, moved, usedMore, ret);
    if AlwaysCompletes(outcome) {
      MovedAll(cfg, idx0, pieces, outcome, built, moved, usedMore, ret);
      assert pieces[..moved] == pieces;
      AllCounted(cfg, idx0, pieces, outcome, built, moved, usedMore, ret);
    }
    hide SplitList, Mapped, UserBytes, Ended, Made, PageMap.IsSgl, PageMap.PagesTouched, PartArrived, Perform,
        TotalLen, Addresses;
    if !cfg.nonIncr {
      UserCopy(cfg, from, to, bus, buf, len, pages, entries, pos, pieces, moved, moves);
    }
  }

  /** char_sgdma_read_write; from and to are any memories to read and to change. */
  method ReadWrite(board: PageMap.Board, engine: Engine, buf: u64, len: u64, pos: u64, write: bool, blen: u32,
                   addrAlign: nat, lenGranularity: nat, ghost bus: Bus, dma: DmaMap, sgOk: bool, pagesOk: bool,
                   pin: PageMap.Pin, outcome: nat -> Outcome, ghost from: Mem, ghost to: Mem)
    returns (ret: int, moves: seq<Move>)
    requires engine.Valid() && 0 < blen <= 0x0FFF_FFFF && 0 < addrAlign && 0 < lenGranularity
    requires PageMap.PinFits(pin, PageMap.PagesNr(buf, len)) && MapsPages(dma, bus, blen)
    modifies board, engine, engine.desc
    ensures engine.Valid()
    ensures Refuses(engine.cfg, buf, len, pos, write, addrAlign, lenGranularity) <==>
      || write != engine.cfg.toDevice
      || (engine.cfg.nonIncr && (buf % addrAlign != 0 || pos % addrAlign != 0 || len % lenGranularity != 0))
      || (!engine.cfg.nonIncr && buf % addrAlign != pos % addrAlign)
    ensures old(board.put) <= board.put
      && board.dirtied == old(board.dirtied) + if write then [] else board.put[|old(board.put)|..]
    ensures Refuses(engine.cfg, buf, len, pos, write, addrAlign, lenGranularity) ==>
      && ret == -22 && moves == [] && board.got == old(board.got) && board.put == old(board.put)
      && board.tables == old(board.tables) && board.arrays == old(board.arrays)
    ensures !Refuses(engine.cfg, buf, len, pos, write, addrAlign, lenGranularity) ==>
      var taken := if PageMap.PagesNr(buf, len) > 0 && sgOk && pagesOk && pin.Pinned? then pin.pages else [];
      var forgets := PageMap.Forgets(buf, len, sgOk, pagesOk, pin);
      && board.got == old(board.got) + taken
      && (board.put == old(board.put) + taken <==> !forgets)
      && (board.tables == old(board.tables) <==> !forgets)
      && (board.arrays == old(board.arrays) <==> !PageMap.LeaksArray(buf, len, sgOk, pagesOk, pin))
      && PageMap.MapCodes(buf, len, sgOk, pagesOk, pin, PageMap.MapResult(buf, len, sgOk, pagesOk, pin))
      && (PageMap.MapResult(buf, len, sgOk, pagesOk, pin) < 0 ==>
            ret == PageMap.MapResult(buf, len, sgOk, pagesOk, pin) && moves == [])
      && (GoesThrough(engine.cfg, buf, len, write, sgOk, pagesOk, pin) ==>
            || Delivers(engine.cfg, from, to, UserBytes(bus, buf, pin.pages, len), pos, outcome, moves, ret)
            || (!NeverFails(dma) && ret == -5 && moves == []))
  {
    hide Delivers, Mapped, SplitList, Capacity, Made, Ended, MovesList, AllCompleted, UserBytes, PageMap.IsSgl,
        PageMap.PagesNr, Addresses, SomeSizeWraps;
    moves := [];
    if write != engine.cfg.toDevice { return -PageMap.EINVAL, moves; }
    if !Aligned(engine.cfg, buf, len, pos, addrAlign, lenGranularity) { return -PageMap.EINVAL, moves; }
    PageMap.MapCodesAre(buf, len, sgOk, pagesOk, pin);
    hide PageMap.MapCodes;
    var cb := new PageMap.IoCb(buf, len);
    var rv := cb.Map(board, write, sgOk, pagesOk, pin);
    if rv < 0 { return rv, moves; }
    ghost var entries := cb.sgl;
    var sgl := dma(cb.sgl);
    if sgl == [] {
      ret := -EIO;
    } else {
      SplitFits(sgl, blen);
      var built, moved;
      ghost var used := engine.descUsed;
      ret, moves, built, moved := XferSubmit(engine, sgl, pos, blen, outcome);
      if GoesThrough(engine.cfg, buf, len, write, sgOk, pagesOk, pin) {
        PageMap.PagesNrIs(buf, len);
        SubmitDelivers(engine.cfg, old(engine.descIdx), from, to, bus, buf, len, pin.pages, entries, sgl, pos, blen,
                       outcome, moves, built, moved, engine.descUsed - used, ret);
      }
    }
    assert cb.pages[..cb.pagesNr] == pin.pages == PageMap.UntilNull(pin.pages);
    cb.Unmap(board, write);
  }
}
