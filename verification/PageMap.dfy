/**
  char_sgdma_map_user_buf_to_sgl and char_sgdma_unmap_user_buf: a user buffer becomes a scatter
  list over pinned pages, and the pages are given back. A page is a non-zero number, 0 is NULL.
 */
module PageMap {
  import opened Words

  const PAGE_SIZE: int := 4096
  const EINVAL: int := 22
  const ENOMEM: int := 12
  const EFAULT: int := 14

  datatype SgEntry = SgEntry(page: nat, len: u32, offset: u32)

  /** What get_user_pages_fast did. */
  datatype Pin = PinError(code: nat) | Pinned(pages: seq<nat>)

  predicate NonNull(pages: seq<nat>) { forall i :: 0 <= i < |pages| ==> pages[i] != 0 }

  /** The entries before the first NULL. */
  function UntilNull(pages: seq<nat>): (r: seq<nat>)
    ensures r <= pages && NonNull(r) && (|r| < |pages| ==> pages[|r|] == 0)
  {
    if pages == [] || pages[0] == 0 then [] else [pages[0]] + UntilNull(pages[1..])
  }

  /** The pages a transfer from the device leaves dirty. */
  function Dirt(pages: seq<nat>, write: bool): seq<nat> { if write then [] else pages }

  function Offset(buf: u64): u32 { buf % PAGE_SIZE }

  /** The page count as the code computes it: 64-bit arithmetic, kept in 32 bits. */
  function PagesNr(buf: u64, len: u64): u32
  {
    Wrap32(Wrap64(Wrap64(buf + len + PAGE_SIZE - 1) - (buf - Offset(buf))) / PAGE_SIZE)
  }

  /** Pages touched by the bytes buf .. buf + len. */
  function PagesTouched(buf: u64, len: nat): nat { (Offset(buf) + len + PAGE_SIZE - 1) / PAGE_SIZE }

  lemma PagesNrIs(buf: u64, len: u64)
    requires len < TWO32
    ensures PagesNr(buf, len) == PagesTouched(buf, len)
  {
    var x := Offset(buf) + len + PAGE_SIZE - 1;
    var y := buf + len + PAGE_SIZE - 1;
    var base := buf - Offset(buf);
    var q := y / TWO64;
    assert Wrap64(y) == y - TWO64 * q;
    assert Wrap64(y) - base == TWO64 * (-q) + x;
    ModUnique(Wrap64(y) - base, TWO64, -q, x);
  }

  /** At any length the count is that number, wrapped in 64 bits before the shift and in 32 after it. */
  lemma PagesNrWraps(buf: u64, len: u64)
    ensures PagesNr(buf, len) ==
      (buf % 4096 + len + 4095) % 0x1_0000_0000_0000_0000 / 4096 % 0x1_0000_0000
  {
    var x := Offset(buf) + len + PAGE_SIZE - 1;
    var y := buf + len + PAGE_SIZE - 1;
    var base := buf - Offset(buf);
    var q, p := y / TWO64, x / TWO64;
    assert Wrap64(y) == y - TWO64 * q && x == TWO64 * p + x % TWO64;
    assert Wrap64(y) - base == TWO64 * (p - q) + x % TWO64;
    ModUnique(Wrap64(y) - base, TWO64, p - q, x % TWO64);
  }

  // ---- The reference: entry i is the part of the buffer that lies in its i-th page.

  function EntryLen(buf: u64, len: nat, i: nat): int
  {
    Min(Offset(buf) + len, PAGE_SIZE * (i + 1)) - Max(Offset(buf), PAGE_SIZE * i)
  }

  function EntryOffset(buf: u64, i: nat): u32 { if i == 0 then Offset(buf) else 0 }

  /** Bytes before page i. */
  function BytesBefore(buf: u64, len: nat, i: nat): nat
  {
    if i == 0 then 0 else Max(0, Min(len, PAGE_SIZE * i - Offset(buf)))
  }

  /** The entries are consecutive, non-empty, and cover the buffer. */
  lemma EntriesTile(buf: u64, len: nat, i: nat)
    requires 0 < len && i < PagesTouched(buf, len)
    ensures 0 < EntryLen(buf, len, i) <= PAGE_SIZE - EntryOffset(buf, i)
    ensures BytesBefore(buf, len, i + 1) == BytesBefore(buf, len, i) + EntryLen(buf, len, i)
    ensures (buf + BytesBefore(buf, len, i)) % PAGE_SIZE == EntryOffset(buf, i)
    ensures BytesBefore(buf, len, PagesTouched(buf, len)) == len
  {
    var n := PagesTouched(buf, len);
    assert PAGE_SIZE * (n - 1) < Offset(buf) + len <= PAGE_SIZE * n;
    if i > 0 {
      var base := buf / PAGE_SIZE;
      assert buf + BytesBefore(buf, len, i) == PAGE_SIZE * (base + i);
      ModUnique(buf + BytesBefore(buf, len, i), PAGE_SIZE, base + i, 0);
    }
  }

  lemma OffsetOfWrapped(x: nat)
    ensures Wrap64(x) % PAGE_SIZE == x % PAGE_SIZE
  {
    var q, r := x / TWO64, x / PAGE_SIZE;
    assert Wrap64(x) == PAGE_SIZE * (r - 0x10_0000_0000_0000 * q) + x % PAGE_SIZE;
    ModUnique(Wrap64(x), PAGE_SIZE, r - 0x10_0000_0000_0000 * q, x % PAGE_SIZE);
  }

  // ---- The code.

  lemma StartsAt(buf: u64, len: nat)
    requires 0 < len
    ensures Wrap64(buf + BytesBefore(buf, len, 0)) == buf && BytesBefore(buf, len, 0) == 0 && PagesTouched(buf, len) > 0
  {
  }

  lemma SmallStays(left: int)
    requires 0 <= left < TWO32
    ensures Wrap32(left) == left
  {
  }

  /** One turn of the loop takes exactly the reference entry. */
  lemma TakesEntry(buf: u64, len: nat, i: nat, at: u64, left: int)
    requires 0 < len < TWO32 && i < PagesTouched(buf, len)
    requires at == Wrap64(buf + BytesBefore(buf, len, i)) && 0 <= left == len - BytesBefore(buf, len, i)
    ensures at % PAGE_SIZE == EntryOffset(buf, i)
    ensures Min(PAGE_SIZE - at % PAGE_SIZE, Wrap32(left)) == EntryLen(buf, len, i)
    ensures Wrap64(at + EntryLen(buf, len, i)) == Wrap64(buf + BytesBefore(buf, len, i + 1))
    ensures left - EntryLen(buf, len, i) == len - BytesBefore(buf, len, i + 1)
  {
    EntriesTile(buf, len, i);
    OffsetOfWrapped(buf + BytesBefore(buf, len, i));
    WrapAdd(buf + BytesBefore(buf, len, i), EntryLen(buf, len, i));
    SmallStays(left);
    hide Wrap64, PagesTouched, Wrap32;
  }

  /** The truncating minimum never takes the part above 2^32, nor more than there is. */
  lemma TakesNoMore(left: u64, room: int)
    requires 0 < room <= PAGE_SIZE
    ensures 0 <= Min(room, Wrap32(left)) <= left && Min(room, Wrap32(left)) <= PAGE_SIZE
    ensures left >= TWO32 ==> Min(room, Wrap32(left)) <= left - TWO32
  {
  }

  /** The page loop, with the 32-bit minimum it takes. `left` is what remains of len afterwards. */
  method FillSgl(buf: u64, len: u64, pages: seq<nat>) returns (sgl: seq<SgEntry>, left: u64)
    ensures |sgl| == |pages| && forall i :: 0 <= i < |pages| ==> sgl[i].page == pages[i] && sgl[i].len <= PAGE_SIZE
    ensures 0 < len < TWO32 && |pages| == PagesTouched(buf, len) ==>
      && left == 0
      && forall i :: 0 <= i < |pages| ==> sgl[i].len == EntryLen(buf, len, i) && sgl[i].offset == EntryOffset(buf, i)
    ensures len >= TWO32 ==> left >= TWO32
    ensures len == 0 ==> left == 0
  {
    var at: u64 := buf;
    sgl, left := [], len;
    ghost var exact := 0 < len < TWO32 && |pages| == PagesTouched(buf, len);
    hide BytesBefore, EntryLen, EntryOffset, PagesTouched, Wrap32, Wrap64, Min;
    if exact { StartsAt(buf, len); }
    for i := 0 to |pages|
      invariant |sgl| == i && forall k :: 0 <= k < i ==> sgl[k].page == pages[k] && sgl[k].len <= PAGE_SIZE
      invariant exact ==> at == Wrap64(buf + BytesBefore(buf, len, i)) && left == len - BytesBefore(buf, len, i)
      invariant exact ==> forall k :: 0 <= k < i ==>
        sgl[k].len == EntryLen(buf, len, k) && sgl[k].offset == EntryOffset(buf, k)
      invariant len >= TWO32 ==> left >= TWO32
      invariant len == 0 ==> left == 0
    {
      var offset: u32 := at % PAGE_SIZE;
      TakesNoMore(left, PAGE_SIZE - offset);
      if exact { TakesEntry(buf, len, i, at, left); }
      var nbytes: u32 := Min(PAGE_SIZE - offset, Wrap32(left));
      sgl := sgl + [SgEntry(pages[i], nbytes, offset)];
      at := Wrap64(at + nbytes);
      left := left - nbytes;
    }
    if exact { EntriesTile(buf, len, 0); }
  }

  /** The pages pinned and put so far, in order, and the allocations still held. */
  class Board {
    var got: seq<nat>
    var put: seq<nat>
    var dirtied: seq<nat>
    var arrays: int          // page arrays allocated and not freed
    var tables: int          // scatter tables allocated and not freed

    constructor ()
      ensures got == put == dirtied == [] && arrays == 0 && tables == 0
    {
      got, put, dirtied, arrays, tables := [], [], [], 0, 0;
    }

    /** The loop of the unmap: put each page until a NULL entry. */
    method PutPages(pages: seq<nat>, write: bool)
      modifies this`put, this`dirtied
      ensures put == old(put) + UntilNull(pages)
      ensures dirtied == old(dirtied) + if write then [] else UntilNull(pages)
    {
      ghost var all := UntilNull(pages);
      hide UntilNull;
      for i := 0 to |pages|
        invariant i <= |all|
        invariant put == old(put) + pages[..i] && dirtied == old(dirtied) + Dirt(pages[..i], write)
      {
        if pages[i] == 0 {
          assert pages[..i] == all;
          return;
        }
        assert pages[..i + 1] == pages[..i] + [pages[i]];
        if !write { dirtied := dirtied + [pages[i]]; }
        put := put + [pages[i]];
      }
      assert pages[..|pages|] == all;
    }
  }

  /** The kernel's contract: an error code, or at most the asked number of non-NULL pages. */
  predicate PinFits(pin: Pin, n: nat)
  {
    match pin case PinError(code) => code > 0 case Pinned(pages) => |pages| <= n && NonNull(pages)
  }

  /** The list has one entry per page, and entry i is the part of the buffer in the i-th page. */
  ghost predicate IsSgl(sgl: seq<SgEntry>, buf: u64, len: u64, pages: seq<nat>)
  {
    && |sgl| == |pages| && (forall i :: 0 <= i < |sgl| ==> sgl[i].page == pages[i] && sgl[i].len <= PAGE_SIZE)
    && (0 < len ==> forall i :: 0 <= i < |sgl| ==>
          sgl[i].len == EntryLen(buf, len, i) > 0 && sgl[i].offset == EntryOffset(buf, i))
  }

  /** No two neighbouring pages are the same. */
  predicate NoTwins(pages: seq<nat>) { forall k {:trigger pages[k]} :: 1 <= k < |pages| ==> pages[k - 1] != pages[k] }

  function PinResult(n: nat, sgOk: bool, pagesOk: bool, pin: Pin): int
  {
    if n == 0 then -EINVAL
    else if !sgOk || !pagesOk then -ENOMEM
    else if pin.PinError? then 0 - pin.code
    else if |pin.pages| != n || !NoTwins(pin.pages) then -EFAULT
    else 0
  }

  /** All pages were pinned and accepted, so that the page loop is entered. */
  predicate Entered(buf: u64, len: u64, sgOk: bool, pagesOk: bool, pin: Pin)
  {
    PinResult(PagesNr(buf, len), sgOk, pagesOk, pin) == 0
  }

  function MapResult(buf: u64, len: u64, sgOk: bool, pagesOk: bool, pin: Pin): int
  {
    if Entered(buf, len, sgOk, pagesOk, pin) then (if len >= TWO32 then -EINVAL else 0)
    else PinResult(PagesNr(buf, len), sgOk, pagesOk, pin)
  }

  /** The result in the order in which the code finds it out, with the codes as numbers. */
  ghost predicate MapCodes(buf: u64, len: u64, sgOk: bool, pagesOk: bool, pin: Pin, rv: int)
  {
    var n := PagesNr(buf, len);
    && (n == 0 ==> rv == -22)
    && (n > 0 && !(sgOk && pagesOk) ==> rv == -12)
    && (n > 0 && sgOk && pagesOk ==>
          match pin
          case PinError(code) => rv == 0 - code
          case Pinned(pages) =>
            if |pages| != n || (exists k {:trigger pages[k]} :: 1 <= k < |pages| && pages[k - 1] == pages[k])
            then rv == -14
            else rv == if len >= 0x1_0000_0000 then -22 else 0)
  }

  lemma MapCodesAre(buf: u64, len: u64, sgOk: bool, pagesOk: bool, pin: Pin)
    requires PinFits(pin, PagesNr(buf, len))
    ensures MapCodes(buf, len, sgOk, pagesOk, pin, MapResult(buf, len, sgOk, pagesOk, pin))
  {
    hide PagesNr;
  }

  /** The pages that get pinned. */
  function Taken(n: nat, sgOk: bool, pagesOk: bool, pin: Pin): seq<nat>
  {
    if n > 0 && sgOk && pagesOk && pin.Pinned? then pin.pages else []
  }

  /** The page loop is entered with 4 GiB or more: the error return after it forgets table, array and pages. */
  predicate Forgets(buf: u64, len: u64, sgOk: bool, pagesOk: bool, pin: Pin)
  {
    Entered(buf, len, sgOk, pagesOk, pin) && len >= TWO32
  }

  /** No page was pinned into an allocated array: the unmap then returns before it frees the array. */
  predicate KeepsArray(n: nat, sgOk: bool, pagesOk: bool, pin: Pin)
  {
    n > 0 && sgOk && pagesOk && (pin.PinError? || pin.pages == [])
  }

  predicate LeaksArray(buf: u64, len: u64, sgOk: bool, pagesOk: bool, pin: Pin)
  {
    Forgets(buf, len, sgOk, pagesOk, pin) || KeepsArray(PagesNr(buf, len), sgOk, pagesOk, pin)
  }

  class IoCb {
    const buf: u64
    const len: u64
    var pages: seq<nat>      // [] when NULL
    var pagesNr: nat
    var sgl: seq<SgEntry>

    constructor (buf: u64, len: u64)
      ensures this.buf == buf && this.len == len && pages == [] && pagesNr == 0 && sgl == []
    {
      this.buf, this.len := buf, len;
      pages, pagesNr, sgl := [], 0, [];
    }

    /** char_sgdma_unmap_user_buf */
    method Unmap(board: Board, write: bool)
      requires pagesNr <= |pages|
      modifies this, board
      ensures board.got == old(board.got) && board.put == old(board.put) + UntilNull(old(pages[..pagesNr]))
      ensures board.dirtied == old(board.dirtied) + if write then [] else UntilNull(old(pages[..pagesNr]))
      ensures board.tables == old(board.tables) - 1
      ensures board.arrays == old(board.arrays) - (if old(pagesNr) == 0 then 0 else 1)
      ensures pages == if old(pagesNr) == 0 then old(pages) else []
    {
      board.tables := board.tables - 1;
      if pages == [] || pagesNr == 0 {
        assert pages[..pagesNr] == [];
        return;
      }
      board.PutPages(pages[..pagesNr], write);
      board.arrays := board.arrays - 1;
      pages := [];
    }

    /** The check for repeated neighbours. */
    method FindRepeat() returns (found: bool)
      ensures found <==> exists k {:trigger pages[k]} :: 1 <= k < |pages| && pages[k - 1] == pages[k]
    {
      var i := 1;
      while i < |pages|
        invariant 1 <= i
        invariant forall k :: 1 <= k < i && k < |pages| ==> pages[k - 1] != pages[k]
      {
        if pages[i - 1] == pages[i] { return true; }
        i := i + 1;
      }
      found := false;
    }

    /** char_sgdma_map_user_buf_to_sgl up to the page loop: allocate, pin, check. */
    method PinPages(board: Board, write: bool, sgOk: bool, pagesOk: bool, pin: Pin) returns (rv: int)
      requires pages == [] && pagesNr == 0 && PinFits(pin, PagesNr(buf, len))
      modifies this, board
      ensures pagesNr == 0 || rv < 0
      ensures old(board.put) <= board.put
        && board.dirtied == old(board.dirtied) + if write then [] else board.put[|old(board.put)|..]
      ensures rv == PinResult(PagesNr(buf, len), sgOk, pagesOk, pin)
      ensures board.got == old(board.got) + Taken(PagesNr(buf, len), sgOk, pagesOk, pin)
      ensures rv < 0 ==>
        && board.put == old(board.put) + Taken(PagesNr(buf, len), sgOk, pagesOk, pin)
        && board.tables == old(board.tables)
        && board.arrays == old(board.arrays) + (if KeepsArray(PagesNr(buf, len), sgOk, pagesOk, pin) then 1 else 0)
      ensures rv == 0 ==>
        && pages == pin.pages && board.put == old(board.put)
        && board.tables == old(board.tables) + 1 && board.arrays == old(board.arrays) + 1
          && board.dirtied == old(board.dirtied)
    {
      var n := PagesNr(buf, len);
      hide PagesNr;
      if n == 0 { return -EINVAL; }
      if !sgOk { return -ENOMEM; }
      board.tables := board.tables + 1;
      if !pagesOk {
        Unmap(board, write);
        return -ENOMEM;
      }
      board.arrays := board.arrays + 1;
      pages := seq(n, _ => 0);
      if pin.PinError? {
        Unmap(board, write);
        return 0 - pin.code;
      }
      board.got := board.got + pin.pages;
      pages := pin.pages + seq(n - |pin.pages|, _ => 0);
      if |pin.pages| != n {
        pagesNr := |pin.pages|;
        assert pages[..pagesNr] == pin.pages == UntilNull(pin.pages);
        Unmap(board, write);
        return -EFAULT;
      }
      assert pages == pin.pages;
      var repeat := FindRepeat();
      if repeat {
        pagesNr := n;
        assert pages[..pagesNr] == pages == UntilNull(pages);
        Unmap(board, write);
        return -EFAULT;
      }
      rv := 0;
    }

    /** char_sgdma_map_user_buf_to_sgl; sgOk and pagesOk say whether the two allocations succeed. */
    method Map(board: Board, write: bool, sgOk: bool, pagesOk: bool, pin: Pin) returns (rv: int)
      requires pages == [] && pagesNr == 0 && PinFits(pin, PagesNr(buf, len))
      modifies this, board
      ensures rv == MapResult(buf, len, sgOk, pagesOk, pin) && MapCodes(buf, len, sgOk, pagesOk, pin, rv)
      ensures old(board.put) <= board.put
        && board.dirtied == old(board.dirtied) + if write then [] else board.put[|old(board.put)|..]
      ensures rv == 0 ==>
        && pages == pin.pages && pagesNr == |pages| && board.put == old(board.put)
        && board.tables == old(board.tables) + 1 && board.arrays == old(board.arrays) + 1
          && board.dirtied == old(board.dirtied)
        && IsSgl(sgl, buf, len, pages)
      ensures board.got == old(board.got) + Taken(PagesNr(buf, len), sgOk, pagesOk, pin)
      ensures rv < 0 ==>
        && (board.put == old(board.put) + Taken(PagesNr(buf, len), sgOk, pagesOk, pin) <==>
            !Forgets(buf, len, sgOk, pagesOk, pin))
        && (Forgets(buf, len, sgOk, pagesOk, pin) ==> board.put == old(board.put))
        && (board.tables == old(board.tables) <==> !Forgets(buf, len, sgOk, pagesOk, pin))
        && (board.arrays == old(board.arrays) <==> !LeaksArray(buf, len, sgOk, pagesOk, pin))
    {
      if len < TWO32 { PagesNrIs(buf, len); }
      hide PagesNr, PagesTouched, EntryLen, EntryOffset;
      MapCodesAre(buf, len, sgOk, pagesOk, pin);
      hide MapCodes;
      rv := PinPages(board, write, sgOk, pagesOk, pin);
      if rv < 0 { return; }
      var left: u64;
      sgl, left := FillSgl(buf, len, pages);
      if left != 0 { return -EINVAL; }
      if len > 0 {
        forall k | 0 <= k < |sgl| ensures EntryLen(buf, len, k) > 0 { EntriesTile(buf, len, k); }
      }
      pagesNr := |pages|;
    }
  }

  /** Any buffer whose first page cannot be pinned: the page array stays allocated. */
  lemma KeepsArrayExample(buf: u64, len: u64)
    requires 0 < len < TWO32
    ensures LeaksArray(buf, len, true, true, PinError(EFAULT))
    ensures MapResult(buf, len, true, true, PinError(EFAULT)) == -EFAULT
  {
    hide PagesNr;
    PagesNrIs(buf, len);
    StartsAt(buf, len);
    hide PagesTouched;
  }

  /** A buffer of 4 GiB at address 0 whose pages are all pinned: nothing of it is given back. */
  lemma ForgetsExample()
    ensures Forgets(0, TWO32, true, true, Pinned(seq(0x10_0000, i requires 0 <= i => i + 1)))
  {
  }
}
