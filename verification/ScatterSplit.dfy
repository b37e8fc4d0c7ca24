/**
  xdma_init_request: a scatter list is cut into software descriptors of at most
  desc_blen_max bytes, written into an array sized beforehand.
 */
module ScatterSplit {
  import opened Words

  /** XDMA_DESC_BLEN_MAX, to which the module parameter desc_blen_max is clamped. */
  const BLEN_LIMIT: int := 0x0FFF_FFFF

  /** A run of bus addresses: a mapped scatter-list entry, or a software descriptor. */
  datatype Segment = Segment(addr: u64, len: u32)

  // ---- What a list of segments denotes: the bus addresses of its bytes, in order.

  function Range(addr: u64, n: nat): (r: seq<int>) { seq(n, i requires 0 <= i => Wrap64(addr + i)) }

  function Addresses(segs: seq<Segment>): (r: seq<int>)
  {
    if segs == [] then []
    else Addresses(segs[..|segs| - 1]) + Range(segs[|segs| - 1].addr, segs[|segs| - 1].len)
  }

  function TotalLen(segs: seq<Segment>): (r: nat)
  {
    if segs == [] then 0 else TotalLen(segs[..|segs| - 1]) + segs[|segs| - 1].len
  }

  lemma RangeSplit(addr: u64, m: nat, n: nat)
    ensures Range(addr, m + n) == Range(addr, m) + Range(Wrap64(addr + m), n)
  {
    var whole := Range(addr, m + n);
    forall i | 0 <= i < |whole|
      ensures whole[i] == (Range(addr, m) + Range(Wrap64(addr + m), n))[i]
    {
      if i >= m { WrapAdd(addr + m, i - m); }
    }
  }

  lemma {:induction false} AddressesLength(segs: seq<Segment>)
    ensures |Addresses(segs)| == TotalLen(segs)
  {
    if segs != [] { AddressesLength(segs[..|segs| - 1]); }
  }

  lemma {:induction false} AddressesConcat(a: seq<Segment>, b: seq<Segment>)
    ensures Addresses(a + b) == Addresses(a) + Addresses(b)
    ensures TotalLen(a + b) == TotalLen(a) + TotalLen(b)
  {
    if b == [] {
      assert a + b == a;
    } else {
      assert (a + b)[..|a + b| - 1] == a + b[..|b| - 1];
      AddressesConcat(a, b[..|b| - 1]);
    }
  }

  /** The endpoint address after moving these segments, wrapping at 64 bits. */
  function After(ep: u64, segs: seq<Segment>): (r: u64)
  {
    if segs == [] then ep else Wrap64(After(ep, segs[..|segs| - 1]) + segs[|segs| - 1].len)
  }

  lemma {:induction false} AfterIs(ep: u64, segs: seq<Segment>)
    ensures After(ep, segs) == Wrap64(ep + TotalLen(segs))
  {
    if segs != [] {
      AfterIs(ep, segs[..|segs| - 1]);
      WrapAdd(ep + TotalLen(segs[..|segs| - 1]), segs[|segs| - 1].len);
    }
  }

  lemma {:induction false} AfterConcat(ep: u64, a: seq<Segment>, b: seq<Segment>)
    ensures After(After(ep, a), b) == After(ep, a + b)
  {
    if b == [] {
      assert a + b == a;
    } else {
      assert (a + b)[..|a + b| - 1] == a + b[..|b| - 1];
      AfterConcat(ep, a, b[..|b| - 1]);
    }
  }

  // ---- The specification of the cut.

  function SplitEntry(addr: u64, len: u32, blen: u32): (r: seq<Segment>)
    requires 0 < blen
    decreases len
  {
    if len == 0 then []
    else if len > blen then [Segment(addr, blen)] + SplitEntry(Wrap64(addr + blen), len - blen, blen)
    else [Segment(addr, len)]
  }

  function SplitList(sgl: seq<Segment>, blen: u32): (r: seq<Segment>)
    requires 0 < blen
  {
    if sgl == [] then []
    else SplitList(sgl[..|sgl| - 1], blen) + SplitEntry(sgl[|sgl| - 1].addr, sgl[|sgl| - 1].len, blen)
  }

  ghost predicate Bounded(pieces: seq<Segment>, blen: u32)
  {
    forall k :: 0 <= k < |pieces| ==> 1 <= pieces[k].len <= blen
  }

  lemma SingleAddresses(addr: u64, len: u32)
    ensures Addresses([Segment(addr, len)]) == Range(addr, len)
  {
    assert [Segment(addr, len)][..0] == [];
  }

  /** The pieces of one entry are non-empty, bounded, and tile it in order. */
  lemma {:induction false} SplitEntryTiles(addr: u64, len: u32, blen: u32)
    requires 0 < blen
    ensures Bounded(SplitEntry(addr, len, blen), blen)
    ensures Addresses(SplitEntry(addr, len, blen)) == Range(addr, len)
    decreases len
  {
    if len > blen {
      var next := Wrap64(addr + blen);
      SplitEntryTiles(next, len - blen, blen);
      AddressesConcat([Segment(addr, blen)], SplitEntry(next, len - blen, blen));
      SingleAddresses(addr, blen);
      RangeSplit(addr, blen, len - blen);
    } else if len != 0 {
      SingleAddresses(addr, len);
    }
  }

  /** The cut keeps the meaning of the list: the same bytes in the same order. */
  lemma {:induction false} SplitListTiles(sgl: seq<Segment>, blen: u32)
    requires 0 < blen
    ensures Bounded(SplitList(sgl, blen), blen)
    ensures Addresses(SplitList(sgl, blen)) == Addresses(sgl)
    ensures TotalLen(SplitList(sgl, blen)) == TotalLen(sgl)
  {
    if sgl != [] {
      var front, e := sgl[..|sgl| - 1], sgl[|sgl| - 1];
      SplitListTiles(front, blen);
      SplitEntryTiles(e.addr, e.len, blen);
      AddressesConcat(SplitList(front, blen), SplitEntry(e.addr, e.len, blen));
      AddressesLength(SplitList(sgl, blen));
      AddressesLength(sgl);
    }
  }

  // ---- The size of the array the pieces go into.

  /** What the sizing loop adds for one entry, in 32-bit arithmetic. */
  function Extra(len: u32, blen: u32): (r: nat)
    requires 0 < blen
  {
    if len > blen then Quot(Wrap32(len + blen - 1), blen) else 0
  }

  function Capacity(sgl: seq<Segment>, blen: u32): (r: nat)
    requires 0 < blen
  {
    if sgl == [] then 0
    else Capacity(sgl[..|sgl| - 1], blen) + 1 + Extra(sgl[|sgl| - 1].len, blen)
  }

  /** The rounding-up addition of the sizing loop leaves 32 bits for this length. */
  predicate SizeWraps(len: u32, blen: u32) { len + blen - 1 >= TWO32 }

  /** An entry yields its length over blen, rounded up. */
  lemma {:induction false} PieceCount(addr: u64, len: u32, blen: u32)
    requires 0 < blen
    ensures |SplitEntry(addr, len, blen)| == Quot(len + blen - 1, blen)
    decreases len
  {
    if len > blen { PieceCount(Wrap64(addr + blen), len - blen, blen); }
  }

  lemma {:induction false} Peel(y: nat, b: nat, k: nat)
    requires 0 < b && k * b <= y
    ensures Quot(y, b) == Quot(y - k * b, b) + k
    decreases k
  {
    if k > 0 {
      assert k * b == (k - 1) * b + b;
      assert (k - 1) * b >= 0;
      Peel(y - b, b, k - 1);
    }
  }

  /** Sixteen maximal descriptors fit in the 2^32 bytes that a wrapped sum loses. */
  lemma WrappedExtra(len: u32, blen: u32)
    requires 0 < blen <= 0x0FFF_FFFF && SizeWraps(len, blen)
    ensures Extra(len, blen) + 16 <= Quot(len + blen - 1, blen)
  {
    var y := len + blen - 1;
    QuotMonotone(y - TWO32, y - 16 * blen, blen);
    Peel(y, blen, 16);
  }

  /** One entry's share of the array covers its pieces exactly when the sum does not wrap. */
  lemma EntryFitsIff(e: Segment, blen: u32)
    requires 0 < blen <= 0x0FFF_FFFF
    ensures |SplitEntry(e.addr, e.len, blen)| <= 1 + Extra(e.len, blen) <==> !SizeWraps(e.len, blen)
    ensures SizeWraps(e.len, blen) ==> |SplitEntry(e.addr, e.len, blen)| >= 16 + Extra(e.len, blen)
    ensures |SplitEntry(e.addr, e.len, blen)| >= Extra(e.len, blen)
  {
    PieceCount(e.addr, e.len, blen);
    if SizeWraps(e.len, blen) {
      WrappedExtra(e.len, blen);
    }
  }

  ghost predicate SomeSizeWraps(sgl: seq<Segment>, blen: u32)
  {
    exists i :: 0 <= i < |sgl| && SizeWraps(sgl[i].len, blen)
  }

  /** Without a wrapped sum the pieces always fit, and the check after the loop cannot fire. */
  lemma {:induction false} SplitFits(sgl: seq<Segment>, blen: u32)
    requires 0 < blen <= 0x0FFF_FFFF
    requires !SomeSizeWraps(sgl, blen)
    ensures |SplitList(sgl, blen)| <= Capacity(sgl, blen)
  {
    if sgl != [] {
      var n := |sgl| - 1;
      assert !SizeWraps(sgl[n].len, blen);
      forall i | 0 <= i < n ensures !SizeWraps(sgl[..n][i].len, blen) {
        assert sgl[..n][i] == sgl[i];
      }
      SplitFits(sgl[..n], blen);
      EntryFitsIff(sgl[n], blen);
    }
  }

  lemma {:induction false} CapacityLag(sgl: seq<Segment>, blen: u32)
    requires 0 < blen <= 0x0FFF_FFFF
    ensures |SplitList(sgl, blen)| + |sgl| >= Capacity(sgl, blen)
    ensures SomeSizeWraps(sgl, blen) ==> |SplitList(sgl, blen)| + |sgl| >= Capacity(sgl, blen) + 16
  {
    if sgl != [] {
      var n := |sgl| - 1;
      CapacityLag(sgl[..n], blen);
      EntryFitsIff(sgl[n], blen);
      if SomeSizeWraps(sgl, blen) && !SizeWraps(sgl[n].len, blen) {
        var i :| 0 <= i < |sgl| && SizeWraps(sgl[i].len, blen);
        assert sgl[..n][i] == sgl[i];
      }
    }
  }

  /** For a list of at most fifteen entries the pieces fit if and only if no sum wraps. */
  lemma ShortListFitsIff(sgl: seq<Segment>, blen: u32)
    requires 0 < blen <= 0x0FFF_FFFF && |sgl| <= 15
    ensures |SplitList(sgl, blen)| <= Capacity(sgl, blen) <==> !SomeSizeWraps(sgl, blen)
  {
    CapacityLag(sgl, blen);
    if !SomeSizeWraps(sgl, blen) { SplitFits(sgl, blen); }
  }

  /** Slots missing for an entry whose sum wraps: the pieces in the lost 2^32 bytes, less the one of its own. */
  function Missing(len: u32, blen: u32): (r: int)
    requires 0 < blen
  {
    if SizeWraps(len, blen) then Quot(len + blen - 1, blen) - Quot(len + blen - 1 - TWO32, blen) - 1 else 0
  }

  /** A slot to spare: for an entry that is cut, which is counted once too often, and for an empty one. */
  function Spare(len: u32, blen: u32): (r: nat)
  {
    if !SizeWraps(len, blen) && (len > blen || len == 0) then 1 else 0
  }

  function AllMissing(sgl: seq<Segment>, blen: u32): (r: int)
    requires 0 < blen
  {
    if sgl == [] then 0 else AllMissing(sgl[..|sgl| - 1], blen) + Missing(sgl[|sgl| - 1].len, blen)
  }

  function AllSpare(sgl: seq<Segment>, blen: u32): (r: nat)
  {
    if sgl == [] then 0 else AllSpare(sgl[..|sgl| - 1], blen) + Spare(sgl[|sgl| - 1].len, blen)
  }

  lemma EntryBalance(e: Segment, blen: u32)
    requires 0 < blen <= 0x0FFF_FFFF
    ensures |SplitEntry(e.addr, e.len, blen)| + Spare(e.len, blen) == 1 + Extra(e.len, blen) + Missing(e.len, blen)
  {
    PieceCount(e.addr, e.len, blen);
  }

  /** For any list: the pieces fit if and only if the slots missing for wrapped sums are made up by spare ones. */
  lemma {:induction false} ListFitsIff(sgl: seq<Segment>, blen: u32)
    requires 0 < blen <= 0x0FFF_FFFF
    ensures |SplitList(sgl, blen)| <= Capacity(sgl, blen) <==> AllMissing(sgl, blen) <= AllSpare(sgl, blen)
    ensures |SplitList(sgl, blen)| + AllSpare(sgl, blen) == Capacity(sgl, blen) + AllMissing(sgl, blen)
  {
    if sgl != [] {
      hide SizeWraps;
      ListFitsIff(sgl[..|sgl| - 1], blen);
      EntryBalance(sgl[|sgl| - 1], blen);
    }
  }

  lemma OverrunCapacity(sgl: seq<Segment>, len: u32, blen: u32)
    requires |sgl| == 1 && sgl[0].len == len
    requires blen < len && TWO32 <= len + blen - 1 < TWO32 + blen
    ensures Capacity(sgl, blen) == 1
  {
    assert sgl[..0] == [];
  }

  /** A single entry of 2^32 - 1 bytes at the default limit: room for one piece, more written. */
  lemma OverrunExample(sgl: seq<Segment>, blen: u32)
    requires sgl == [Segment(0, 0xFFFF_FFFF)] && blen == BLEN_LIMIT
    ensures Capacity(sgl, blen) == 1 < |SplitList(sgl, blen)|
  {
    OverrunCapacity(sgl, sgl[0].len, blen);
    assert SizeWraps(sgl[0].len, blen);
    ShortListFitsIff(sgl, blen);
  }

  // ---- The code.

  /** Overrun: the fill loop writes past the end of the array it allocated. */
  datatype InitResult = Ready(sdesc: seq<Segment>, totalLen: u32) | Overrun

  method ExtraPieces(sgl: seq<Segment>, blen: u32) returns (max: nat)
    requires 0 < blen
    ensures max == Capacity(sgl, blen)
  {
    max := |sgl|;
    var extra := 0;
    for i := 0 to |sgl|
      invariant max == |sgl|
      invariant i + extra == Capacity(sgl[..i], blen)
    {
      var len := sgl[i].len;
      if len > blen {
        QuotIsDiv(Wrap32(len + blen - 1), blen);
        extra := extra + Wrap32(len + blen - 1) / blen;
      }
      assert sgl[..i + 1][..i] == sgl[..i];
    }
    assert sgl[..|sgl|] == sgl;
    max := max + extra;
  }

  lemma CutFirst(addr: u64, len: u32, blen: u32, before: seq<Segment>)
    requires 0 < blen && 0 < len
    ensures SplitEntry(addr, len, blen) != []
    ensures before + SplitEntry(addr, len, blen) ==
      if len > blen then before + [Segment(addr, blen)] + SplitEntry(Wrap64(addr + blen), len - blen, blen)
      else before + [Segment(addr, len)] + SplitEntry(addr, 0, blen)
  {
  }

  lemma CutNothing(addr: u64, blen: u32, before: seq<Segment>)
    requires 0 < blen
    ensures before + SplitEntry(addr, 0, blen) == before
  {
  }

  /** The inner loop: cut one entry into sdesc from index j on. */
  method FillEntry(sdesc: array<Segment>, start: nat, entry: Segment, blen: u32) returns (ok: bool, j: nat)
    requires 0 < blen && start <= sdesc.Length
    modifies sdesc
    ensures start <= j <= sdesc.Length && sdesc[..start] == old(sdesc[..start])
    ensures ok <==> start + |SplitEntry(entry.addr, entry.len, blen)| <= sdesc.Length
    ensures ok ==> sdesc[..j] == old(sdesc[..start]) + SplitEntry(entry.addr, entry.len, blen)
  {
    hide SplitEntry, Wrap64;
    var tlen: u32, addr: u64 := entry.len, entry.addr;
    ghost var before, pieces := sdesc[..start], SplitEntry(entry.addr, entry.len, blen);
    j := start;
    while tlen != 0
      invariant start <= j <= sdesc.Length && sdesc[..start] == before
      invariant sdesc[..j] + SplitEntry(addr, tlen, blen) == before + pieces
      decreases tlen
    {
      ghost var filled := sdesc[..j];
      CutFirst(addr, tlen, blen, filled);
      if j == sdesc.Length { return false, j; }
      sdesc[j] := Segment(addr, if tlen > blen then blen else tlen);
      assert sdesc[..j + 1] == filled + [sdesc[j]];
      if tlen > blen {
        addr := Wrap64(addr + blen);
        tlen := tlen - blen;
      } else {
        tlen := 0;
      }
      j := j + 1;
    }
    CutNothing(addr, blen, sdesc[..j]);
    ok := true;
  }

  lemma OneMoreEntry(sgl: seq<Segment>, i: nat, blen: u32)
    requires 0 < blen && i < |sgl|
    ensures SplitList(sgl[..i + 1], blen) == SplitList(sgl[..i], blen) + SplitEntry(sgl[i].addr, sgl[i].len, blen)
    ensures Wrap32(Wrap32(TotalLen(sgl[..i])) + sgl[i].len) == Wrap32(TotalLen(sgl[..i + 1]))
  {
    assert sgl[..i + 1][..i] == sgl[..i];
    WrapAdd32(TotalLen(sgl[..i]), sgl[i].len);
  }

  lemma {:induction false} PrefixTooLong(sgl: seq<Segment>, i: nat, blen: u32)
    requires 0 < blen && i <= |sgl|
    ensures |SplitList(sgl[..i], blen)| <= |SplitList(sgl, blen)|
    decreases |sgl|
  {
    if i < |sgl| {
      PrefixTooLong(sgl[..|sgl| - 1], i, blen);
      assert sgl[..|sgl| - 1][..i] == sgl[..i];
    } else {
      assert sgl[..i] == sgl;
    }
  }

  method InitRequest(sgl: seq<Segment>, blen: u32) returns (r: InitResult)
    requires 0 < blen
    ensures r.Overrun? <==> |SplitList(sgl, blen)| > Capacity(sgl, blen)
    ensures r.Ready? ==> r.sdesc == SplitList(sgl, blen) && r.totalLen == Wrap32(TotalLen(sgl))
  {
    hide SplitEntry, Capacity;
    var max := ExtraPieces(sgl, blen);
    var sdesc := new Segment[max](_ => Segment(0, 0));
    var j := 0;
    var total: u32 := 0;
    for i := 0 to |sgl|
      invariant 0 <= j <= max == sdesc.Length
      invariant sdesc[..j] == SplitList(sgl[..i], blen)
      invariant total == Wrap32(TotalLen(sgl[..i]))
    {
      OneMoreEntry(sgl, i, blen);
      total := Wrap32(total + sgl[i].len);
      var ok, k := FillEntry(sdesc, j, sgl[i], blen);
      if !ok {
        PrefixTooLong(sgl, i + 1, blen);
        return Overrun;
      }
      j := k;
    }
    assert sgl[..|sgl|] == sgl;
    hide SplitList;
    return Ready(sdesc[..j], total);
  }
}
