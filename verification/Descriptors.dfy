/** The 32-byte hardware descriptor, its packed control word and the adjacent counts. */
module Descriptors {
  import opened Words

  const RING: int := 2048            // XDMA_TRANSFER_MAX_DESC
  const DESC_SIZE: int := 32         // sizeof(struct xdma_desc), also of struct xdma_result
  const MAX_ADJ_BLOCK: int := 64     // XDMA_MAX_ADJ_BLOCK_SIZE
  const PAGE: int := 4096            // XDMA_PAGE_SIZE

  const DESC_MAGIC: bv32 := 0xAD4B_0000
  const DESC_STOPPED: bv32 := 0x01
  const DESC_COMPLETED: bv32 := 0x02
  const DESC_EOP: bv32 := 0x10

  datatype Desc = Desc(
    control: bv32, bytes: u32,
    srcLo: u32, srcHi: u32, dstLo: u32, dstHi: u32,
    nextLo: u32, nextHi: u32)
  {
    function Src(): u64 { Join(srcLo, srcHi) }
    function Dst(): u64 { Join(dstLo, dstHi) }
    function Next(): u64 { Join(nextLo, nextHi) }
  }

  // ---- Reading a control word, as the hardware does.

  function OfBits(f: bv32): nat
  {
    Weight(f & 1 != 0, 1) + Weight(f & 2 != 0, 2) + Weight(f & 4 != 0, 4) +
    Weight(f & 8 != 0, 8) + Weight(f & 16 != 0, 16) + Weight(f & 32 != 0, 32)
  }

  function Magic(c: bv32): bv32 { c >> 16 }
  function AdjacentBits(c: bv32): bv32 { (c >> 8) & 0x3f }
  function Adjacent(c: bv32): nat { OfBits(AdjacentBits(c)) }
  function LowByte(c: bv32): bv32 { c & 0xff }
  predicate Stops(c: bv32) { c & DESC_STOPPED != 0 }

  // ---- Writing it, as the driver does.

  /** xdma_desc_adjacent; the mask keeps bits 12 to 15 of the old word. */
  function SetAdjacent(c: bv32, adj: bv32): bv32 { (c & 0x0000_f0ff) | DESC_MAGIC | (adj << 8) }

  /** xdma_desc_control_set; a field outside the low byte is refused. */
  function SetControl(c: bv32, field: bv32): bv32
  {
    if field & !0xff != 0 then c else (c & !0xff) | field
  }

  // ---- A count below 64 as six bits.

  function Flag(b: bool, bits: bv32): bv32 { if b then bits else 0 }
  function Weight(b: bool, w: nat): nat { if b then w else 0 }

  function Pack(b0: bool, b1: bool, b2: bool, b3: bool, b4: bool, b5: bool): bv32
  {
    Flag(b0, 1) | Flag(b1, 2) | Flag(b2, 4) | Flag(b3, 8) | Flag(b4, 16) | Flag(b5, 32)
  }

  function Odd(n: nat): bool { n % 2 == 1 }

  function ToBits(n: nat): bv32
  {
    var n1 := n / 2; var n2 := n1 / 2; var n3 := n2 / 2; var n4 := n3 / 2; var n5 := n4 / 2;
    Pack(Odd(n), Odd(n1), Odd(n2), Odd(n3), Odd(n4), Odd(n5))
  }

  lemma PackBits(b0: bool, b1: bool, b2: bool, b3: bool, b4: bool, b5: bool)
    ensures var f := Pack(b0, b1, b2, b3, b4, b5);
      (f & 1 != 0) == b0 && (f & 2 != 0) == b1 && (f & 4 != 0) == b2 &&
      (f & 8 != 0) == b3 && (f & 16 != 0) == b4 && (f & 32 != 0) == b5 && f & 0x3f == f
  {
  }

  lemma PackValue(b0: bool, b1: bool, b2: bool, b3: bool, b4: bool, b5: bool)
    ensures OfBits(Pack(b0, b1, b2, b3, b4, b5)) ==
      Weight(b0, 1) + Weight(b1, 2) + Weight(b2, 4) + Weight(b3, 8) + Weight(b4, 16) + Weight(b5, 32)
  {
    PackBits(b0, b1, b2, b3, b4, b5);
  }

  lemma Halve(n: nat)
    ensures n == 2 * (n / 2) + Weight(Odd(n), 1)
  {
  }

  lemma Compose(n: nat, n1: nat, n2: nat, n3: nat, n4: nat, n5: nat,
                b0: bool, b1: bool, b2: bool, b3: bool, b4: bool, b5: bool)
    requires n == 2 * n1 + Weight(b0, 1) && n1 == 2 * n2 + Weight(b1, 1) && n2 == 2 * n3 + Weight(b2, 1)
    requires n3 == 2 * n4 + Weight(b3, 1) && n4 == 2 * n5 + Weight(b4, 1) && n5 == Weight(b5, 1)
    ensures OfBits(Pack(b0, b1, b2, b3, b4, b5)) == n
  {
    PackValue(b0, b1, b2, b3, b4, b5);
  }

  lemma BitsRoundTrip(n: nat)
    requires n < MAX_ADJ_BLOCK
    ensures OfBits(ToBits(n)) == n
  {
    var n1 := n / 2; Halve(n);
    var n2 := n1 / 2; Halve(n1);
    var n3 := n2 / 2; Halve(n2);
    var n4 := n3 / 2; Halve(n3);
    var n5 := n4 / 2; Halve(n4);
    assert n5 < 2;
    Compose(n, n1, n2, n3, n4, n5, Odd(n), Odd(n1), Odd(n2), Odd(n3), Odd(n4), Odd(n5));
  }

  /** The six bits count up one by one from zero. */
  lemma OfBitsCounts(f: bv32)
    ensures OfBits(0) == 0
    ensures f & 0x3f == f && f != 0x3f ==> (f + 1) & 0x3f == f + 1 && OfBits(f + 1) == OfBits(f) + 1
  {
  }

  /** xdma_desc_control_set replaces the low byte and nothing else; a field that does not fit changes nothing. */
  lemma SetControlDecodes(c: bv32, field: bv32)
    ensures SetControl(c, field) & 0xffff_ff00 == c & 0xffff_ff00
    ensures SetControl(c, field) & 0xff == if field < 0x100 then field else c & 0xff
  {
  }

  lemma SixBits(n: nat)
    ensures ToBits(n) & 0x3f == ToBits(n)
  {
    var n1 := n / 2; var n2 := n1 / 2; var n3 := n2 / 2; var n4 := n3 / 2; var n5 := n4 / 2;
    PackBits(Odd(n), Odd(n1), Odd(n2), Odd(n3), Odd(n4), Odd(n5));
  }

  lemma FreshBits(low: bv32, f: bv32)
    requires low & 0xff == low && f & 0x3f == f
    ensures var c := SetAdjacent(SetControl(DESC_MAGIC, low), f);
      Magic(c) == 0xAD4B && AdjacentBits(c) == f && LowByte(c) == low
  {
    assert low & !0xff == 0;
  }

  /** A freshly initialised word decodes to exactly what was put in. */
  lemma FreshWordDecodes(low: bv32, adj: nat)
    requires low & 0xff == low && adj < MAX_ADJ_BLOCK
    ensures var c := SetAdjacent(SetControl(DESC_MAGIC, low), ToBits(adj));
      Magic(c) == 0xAD4B && Adjacent(c) == adj && LowByte(c) == low
  {
    BitsRoundTrip(adj);
    SixBits(adj);
    FreshBits(low, ToBits(adj));
  }

  lemma FreshClear(low: bv32, f: bv32)
    requires low & 0xff == low && f & 0x3f == f
    ensures SetAdjacent(SetControl(DESC_MAGIC, low), f) & 0xffff_c000 == 0xAD4B_0000
  {
    assert low & !0xff == 0;
  }

  /** The whole of a fresh word, bit by bit. */
  lemma FreshWordIs(low: bv32, adj: nat)
    requires low & 0xff == low && adj < MAX_ADJ_BLOCK
    ensures var c := SetAdjacent(SetControl(DESC_MAGIC, low), ToBits(adj));
      && c & 0xffff_c000 == 0xAD4B_0000 && c & 0xff == low && OfBits((c >> 8) & 0x3f) == adj
  {
    SixBits(adj);
    BitsRoundTrip(adj);
    FreshClear(low, ToBits(adj));
    FreshBits(low, ToBits(adj));
    hide SetAdjacent, SetControl, ToBits, OfBits;
  }

  /**
    On an arbitrary old word the count survives exactly when bits 12 and 13 of that word
    are among the top two bits of the count: the initialising step is what makes it safe.
   */
  lemma AdjacentSurvivesIff(c: bv32, f: bv32)
    requires f & 0x3f == f
    ensures AdjacentBits(SetAdjacent(c, f)) == f <==> ((c >> 12) & 3) & !(f >> 4) == 0
    ensures LowByte(SetAdjacent(c, f)) == LowByte(c)
  {
    assert AdjacentBits(SetAdjacent(c, f)) == f | (((c >> 12) & 3) << 4);
  }

  lemma LowBits()
    ensures Stops(0x13) && !Stops(0x02) && !Stops(0x00)
    ensures DESC_STOPPED | DESC_EOP | DESC_COMPLETED == 0x13
  {
  }

  lemma StopsByLowByte(c: bv32)
    ensures Stops(c) == Stops(LowByte(c))
  {
  }

  /** xdma_get_next_adj: how many descriptors may be fetched along with the next one. */
  function NextAdj(remaining: nat, nextLo: u32): (r: nat)
    ensures r < MAX_ADJ_BLOCK && (remaining > 0 ==> r < remaining)
  {
    if remaining <= 1 then 0
    else
      var index := ((nextLo % PAGE) / DESC_SIZE) % MAX_ADJ_BLOCK;
      Min(MAX_ADJ_BLOCK - index - 1, remaining - 1)
  }

  /**
    It is the largest such count: all that remain, or up to the end of the 64-descriptor unit in which
    the next descriptor lies.
   */
  lemma NextAdjIsLargest(remaining: nat, nextLo: u32, n: nat)
    requires remaining > 0 && nextLo % DESC_SIZE == 0
    ensures var unit := MAX_ADJ_BLOCK * DESC_SIZE;
      n <= NextAdj(remaining, nextLo) <==> n < remaining && nextLo % unit + DESC_SIZE * n < unit
  {
    var page, unit := PAGE, MAX_ADJ_BLOCK * DESC_SIZE;
    var low, at := nextLo % page, nextLo % unit;
    var p, q := nextLo / page, nextLo / unit;
    assert nextLo == page * p + low && nextLo == unit * q + at;
    var d := at / DESC_SIZE;
    assert at == DESC_SIZE * d + at % DESC_SIZE;
    ModUnique(nextLo, DESC_SIZE, MAX_ADJ_BLOCK * q + d, at % DESC_SIZE);
    var half := q - 2 * p;
    assert low == unit * half + at;
    DivUnique(low, DESC_SIZE, MAX_ADJ_BLOCK * half + d, 0);
    ModUnique(low / DESC_SIZE, MAX_ADJ_BLOCK, half, d);
  }
}
