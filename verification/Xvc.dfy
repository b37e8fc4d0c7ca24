/**
  The word loop of xvc_ioctl and xvc_shift_bits: a JTAG bit stream is shifted 32 bits at a time
  through memory-mapped registers. A byte is its eight bits, least significant first, so that a
  little-endian memcpy into a word is concatenation.
 */
module Xvc {
  import opened Words

  const COMPLETION_LOOP_MAX: int := 100
  const EINVAL: int := 22
  const ENOMEM: int := 12
  const ETIMEDOUT: int := 110

  const ZERO_BYTE: seq<bool> := [false, false, false, false, false, false, false, false]
  type Byte = b: seq<bool> | |b| == 8 witness ZERO_BYTE

  function Bits(bs: seq<Byte>): (r: seq<bool>)
    ensures |r| == 8 * |bs|
  {
    seq(8 * |bs|, k requires 0 <= k < 8 * |bs| => bs[k / 8][k % 8])
  }

  // ---- The device behind the registers: any Mealy machine, fed one (TMS, TDI) pair at a time.

  type Mealy<!S> = (S, bool, bool) -> (S, bool)

  function Feed<S>(step: Mealy<S>, s: S, tms: seq<bool>, tdi: seq<bool>): (r: (S, seq<bool>))
    requires |tms| == |tdi|
    ensures |r.1| == |tms|
  {
    if tms == [] then (s, [])
    else
      var n := |tms| - 1;
      var (t, out) := Feed(step, s, tms[..n], tdi[..n]);
      var (u, tdo) := step(t, tms[n], tdi[n]);
      (u, out + [tdo])
  }

  lemma {:induction false} FeedConcat<S>(step: Mealy<S>, s: S, a: seq<bool>, b: seq<bool>, c: seq<bool>, d: seq<bool>)
    requires |a| == |b| && |c| == |d|
    ensures var (t, out1) := Feed(step, s, a, b); var (u, out2) := Feed(step, t, c, d);
      Feed(step, s, a + c, b + d) == (u, out1 + out2)
    decreases |c|
  {
    if c == [] {
      assert a + c == a && b + d == b;
      var (t, out1) := Feed(step, s, a, b);
      assert out1 + [] == out1;
    } else {
      var n := |c| - 1;
      FeedConcat(step, s, a, b, c[..n], d[..n]);
      assert (a + c)[..|a| + n] == a + c[..n] && (b + d)[..|b| + n] == b + d[..n];
      var (t, out1) := Feed(step, s, a, b);
      var (u, out2) := Feed(step, t, c[..n], d[..n]);
      var (v, tdo) := step(u, c[n], d[n]);
      assert out1 + (out2 + [tdo]) == out1 + out2 + [tdo];
    }
  }

  /** The bit-serial reference for the first n bits of two buffers. */
  function Serial<S>(step: Mealy<S>, s: S, tms: seq<Byte>, tdi: seq<Byte>, n: nat): (r: (S, seq<bool>))
    requires n <= 8 * |tms| && n <= 8 * |tdi|
    ensures |r.1| == n
  {
    Feed(step, s, Bits(tms)[..n], Bits(tdi)[..n])
  }

  /** n bits of a buffer from bit `at` on. */
  function Slice(bs: seq<Byte>, at: nat, n: nat): seq<bool>
    requires at + n <= 8 * |bs|
  {
    Bits(bs)[at..at + n]
  }

  lemma SerialStep<S>(step: Mealy<S>, s: S, tms: seq<Byte>, tdi: seq<Byte>, at: nat, n: nat)
    requires at + n <= 8 * |tms| && at + n <= 8 * |tdi|
    ensures var (t, out1) := Serial(step, s, tms, tdi, at);
      var (u, out2) := Feed(step, t, Slice(tms, at, n), Slice(tdi, at, n));
      Serial(step, s, tms, tdi, at + n) == (u, out1 + out2)
  {
    hide Feed, Bits;
    var a, b := Bits(tms), Bits(tdi);
    FeedConcat(step, s, a[..at], b[..at], a[at..at + n], b[at..at + n]);
    assert a[..at] + a[at..at + n] == a[..at + n] && b[..at] + b[at..at + n] == b[..at + n];
  }

  // ---- Words and bytes.

  const ZERO_WORD: seq<bool> := ZERO_BYTE + ZERO_BYTE + ZERO_BYTE + ZERO_BYTE
  type Word = w: seq<bool> | |w| == 32 witness ZERO_WORD

  /** memcpy of at most four bytes into a zeroed 32-bit word. */
  function ToWord(bs: seq<Byte>): Word
    requires |bs| <= 4
  {
    Bits(bs) + seq(32 - 8 * |bs|, _ => false)
  }

  lemma WordHolds(bs: seq<Byte>, bytes: nat, count: nat, n: nat)
    requires count <= 4 && bytes + count <= |bs| && n <= 8 * count
    ensures ToWord(bs[bytes..bytes + count])[..n] == Slice(bs, 8 * bytes, n)
  {
    var w, b := Bits(bs[bytes..bytes + count]), Bits(bs);
    forall k | 0 <= k < n ensures w[k] == b[8 * bytes + k] {
      assert (8 * bytes + k) / 8 == bytes + k / 8 && (8 * bytes + k) % 8 == k % 8;
    }
  }

  /** Byte j of a word. */
  function ByteOf(w: Word, j: nat): Byte
    requires j < 4
  {
    w[8 * j..8 * j + 8]
  }

  /** How the device answers to one word: reads of CTRL that still show it busy, and stray TDO bits. */
  datatype Reply = Reply(delay: nat, junk: Word)

  // ---- The registers.

  class Device<S> {
    const step: Mealy<S>
    var jtag: S
    var length: nat
    var tms: Word
    var tdi: Word
    var tdo: Word
    var busy: nat                  // further reads of CTRL that still show the shift in progress
    var shifts: seq<nat>           // LENGTH at each shift so far

    constructor (step: Mealy<S>, s: S)
      ensures this.step == step && jtag == s && shifts == []
    {
      this.step, jtag := step, s;
      length, busy, shifts := 0, 0, [];
      tms, tdi, tdo := ZERO_WORD, ZERO_WORD, ZERO_WORD;
    }

    /** Writing 1 to CTRL shifts LENGTH bits; the upper bits of TDO are whatever they are. */
    method WriteControl(delay: nat, junk: Word)
      requires length <= 32
      modifies this`jtag, this`tdo, this`busy, this`shifts
      ensures (jtag, tdo[..length]) == Feed(step, old(jtag), tms[..length], tdi[..length])
      ensures busy == delay && shifts == old(shifts) + [length]
    {
      var (t, out) := Feed(step, jtag, tms[..length], tdi[..length]);
      jtag := t;
      tdo := out + junk[length..];
      busy := delay;
      shifts := shifts + [length];
    }

    method ReadControl() returns (inProgress: bool)
      modifies this`busy
      ensures inProgress == (old(busy) > 0) && busy == if old(busy) > 0 then old(busy) - 1 else 0
    {
      inProgress := busy > 0;
      if busy > 0 { busy := busy - 1; }
    }
  }

  /** xvc_shift_bits; `delay` is how often CTRL still reads busy. */
  method ShiftBits<S>(dev: Device<S>, tmsBits: Word, tdiBits: Word, delay: nat, junk: Word)
    returns (rv: int, tdoBits: Word)
    requires dev.length <= 32
    modifies dev
    ensures dev.length == old(dev.length) && dev.shifts == old(dev.shifts) + [dev.length]
    ensures rv == if delay < 100 then 0 else -110
    ensures var n := dev.length; var (t, out) := Feed(dev.step, old(dev.jtag), tmsBits[..n], tdiBits[..n]);
      dev.jtag == t && (rv == 0 ==> tdoBits[..n] == out)
  {
    dev.tms := tmsBits;
    dev.tdi := tdiBits;
    dev.WriteControl(delay, junk);
    var count := COMPLETION_LOOP_MAX;
    while count > 0
      invariant 0 <= count <= COMPLETION_LOOP_MAX && dev.busy == Max(0, delay - (COMPLETION_LOOP_MAX - count))
      invariant dev.busy > 0 || delay <= COMPLETION_LOOP_MAX - count
      invariant COMPLETION_LOOP_MAX - count <= delay
      modifies dev`busy
    {
      var control := dev.ReadControl();
      if !control { break; }
      count := count - 1;
    }
    tdoBits := dev.tdo;
    rv := if count == 0 then -ETIMEDOUT else 0;
  }

  /** The LENGTH values for a stream of `total` bits: 32 for each full word, then the rest. */
  function Lengths(total: nat): seq<nat>
  {
    if total == 0 then [] else if total < 32 then [total] else [32] + Lengths(total - 32)
  }

  /** The loop counter of xvc_ioctl passes `total`, in 32 bits, exactly for totals up to 2^32 - 32. */
  lemma CounterPassesIff(total: u32)
    ensures (exists k: nat :: Wrap32(32 * k) >= total) <==> total <= TWO32 - 32
  {
    forall k: nat ensures Wrap32(32 * k) <= TWO32 - 32 {
      var q := (32 * k) / TWO32;
      assert Wrap32(32 * k) == 32 * (k - 0x0800_0000 * q);
    }
    assert Wrap32(32 * 0x07FF_FFFF) == TWO32 - 32;
  }

  /** total_bytes, in 32 bits. */
  function TotalBytes(total: u32): nat { Wrap32(total + 7) / 8 }

  /** Bytes copied for a word when `left` bits are to go. */
  function WordBytes(left: u32): nat { if left < 32 then (left + 7) / 8 else 4 }

  lemma NoBytes(total: u32)
    requires total > TWO32 - 8
    ensures TotalBytes(total) == 0
  {
    ModUnique(total + 7, TWO32, 1, total + 7 - TWO32);
  }

  lemma WordFits(bits: u32, left: u32, k: nat, n: nat, bytes: nat, count: nat, len: nat)
    requires bits == 32 * k && 0 < left && n == Min(32, left) && bits + left <= 8 * len < bits + left + 8
    requires bytes == bits / 8 && count == if left < 32 then (left + 7) / 8 else 4
    ensures 8 * bytes == bits && count <= 4 && n <= 8 * count && bytes + count <= len
  {
    DivUnique(bits, 8, 4 * k, 0);
    var q, r := (left + 7) / 8, (left + 7) % 8;
    assert left + 7 == 8 * q + r;
  }

  lemma Small(x: int)
    requires 0 <= x < TWO32
    ensures Wrap32(x) == x
  {
  }

  lemma Covers(total: u32)
    requires total <= TWO32 - 8
    ensures Wrap32(total + 7) == total + 7 && total <= 8 * ((total + 7) / 8) < total + 8
  {
    Small(total + 7);
    hide Wrap32;
  }

  /**
    Every copy that the loop can come to, at counter value 32 k modulo 2^32, stays within the buffers if and
    only if total is at most 2^32 - 8; beyond, the buffers have no bytes at all.
   */
  lemma CopiesInBoundsIff(total: u32)
    ensures (forall k: nat ::
      Wrap32(32 * k) < total ==> Wrap32(32 * k) / 8 + WordBytes(Wrap32(total - Wrap32(32 * k))) <= TotalBytes(total))
      <==> total <= TWO32 - 8
  {
    if total <= TWO32 - 8 {
      forall k: nat | Wrap32(32 * k) < total
        ensures Wrap32(32 * k) / 8 + WordBytes(Wrap32(total - Wrap32(32 * k))) <= TotalBytes(total)
      {
        var bits := Wrap32(32 * k);
        var q := (32 * k) / TWO32;
        assert bits == 32 * (k - 0x0800_0000 * q);
        Small(total - bits);
        Covers(total);
        WordFits(bits, total - bits, k - 0x0800_0000 * q, Min(32, total - bits), bits / 8, WordBytes(total - bits),
            TotalBytes(total));
      }
    } else {
      Small(total);
      NoBytes(total);
      assert Wrap32(32 * 0) == 0;
    }
  }

  /** memcpy of the low `count` bytes of a word into the buffer. */
  method StoreWord(buffer: array<Byte>, at: nat, w: Word, count: nat)
    requires count <= 4 && at + count <= buffer.Length
    modifies buffer
    ensures forall k :: 0 <= k < buffer.Length && !(at <= k < at + count) ==> buffer[k] == old(buffer[k])
    ensures forall j :: 0 <= j < count ==> buffer[at..at + count][j] == ByteOf(w, j)
  {
    for j := 0 to count
      invariant forall k :: 0 <= k < buffer.Length && !(at <= k < at + j) ==> buffer[k] == old(buffer[k])
      invariant forall k :: at <= k < at + j ==> buffer[k] == ByteOf(w, k - at)
    {
      buffer[at + j] := ByteOf(w, j);
    }
  }

  /** Output bits of the earlier words and of this one, once it is stored. */
  lemma StoredBits(before: seq<Byte>, after: seq<Byte>, bytes: nat, count: nat, w: Word, n: nat, out: seq<bool>,
                   more: seq<bool>)
    requires |before| == |after| && bytes + count <= |after| && count <= 4 && n <= 8 * count
    requires after[..bytes] == before[..bytes] && forall j :: 0 <= j < count ==>
      after[bytes..bytes + count][j] == ByteOf(w, j)
    requires Bits(before)[..8 * bytes] == out && w[..n] == more
    ensures Bits(after)[..8 * bytes + n] == out + more
  {
    var a, b := Bits(after), Bits(before);
    forall k | 0 <= k < 8 * bytes + n ensures a[k] == (out + more)[k] {
      if k < 8 * bytes {
        assert after[..bytes][k / 8] == before[..bytes][k / 8];
        assert out[k] == b[k];
      } else {
        var i := k - 8 * bytes;
        assert k / 8 == bytes + i / 8 && k % 8 == i % 8;
        assert after[bytes..bytes + count][i / 8] == after[k / 8];
        assert ByteOf(w, i / 8)[i % 8] == w[i];
      }
    }
  }

  /** The first `done` bits have been shifted: the device has come from s to now, and tdo holds its output. */
  ghost predicate Shifted<S>(step: Mealy<S>, s: S, now: S, tms: seq<Byte>, tdi: seq<Byte>, tdo: seq<Byte>, done: nat)
    requires done <= 8 * |tms| && |tms| == |tdi| == |tdo|
  {
    (now, Bits(tdo)[..done]) == Serial(step, s, tms, tdi, done)
  }

  lemma ShiftedMore<S>(step: Mealy<S>, s: S, t: S, u: S, tms: seq<Byte>, tdi: seq<Byte>, before: seq<Byte>,
                       after: seq<Byte>, bytes: nat, count: nat, n: nat, w: Word)
    requires |tms| == |tdi| == |before| == |after| && count <= 4 && n <= 8 * count && bytes + count <= |tms|
    requires Shifted(step, s, t, tms, tdi, before, 8 * bytes)
    requires (u, w[..n]) == Feed(step, t, ToWord(tms[bytes..bytes + count])[..n],
        ToWord(tdi[bytes..bytes + count])[..n])
    requires after[..bytes] == before[..bytes] && forall j :: 0 <= j < count ==>
      after[bytes..bytes + count][j] == ByteOf(w, j)
    ensures Shifted(step, s, u, tms, tdi, after, 8 * bytes + n)
  {
    hide Feed, Bits, Serial, Slice, ToWord, ByteOf;
    WordHolds(tms, bytes, count, n);
    WordHolds(tdi, bytes, count, n);
    SerialStep(step, s, tms, tdi, 8 * bytes, n);
    StoredBits(before, after, bytes, count, w, n, Bits(before)[..8 * bytes], w[..n]);
  }

  /**
    One turn of the loop: the word at byte `bytes`. With `track`, it is one of n bits that continues a
    bit-serial run from s. Each of the three buffers is its own.
   */
  method ShiftWord<S>(dev: Device<S>, tms: seq<Byte>, tdi: seq<Byte>, tdo: array<Byte>, bytes: nat, count: nat, n: nat,
                      delay: nat, junk: Word, ghost s: S, ghost track: bool)
    returns (rv: int)
    requires |tms| == |tdi| == tdo.Length && count <= 4 && n <= 8 * count && bytes + count <= tdo.Length
    requires dev.length <= 32
    requires track ==> dev.length == n && Shifted(dev.step, s, dev.jtag, tms, tdi, tdo[..], 8 * bytes)
    modifies dev, tdo
    ensures dev.length == old(dev.length) && dev.shifts == old(dev.shifts) + [dev.length]
    ensures rv == if delay < 100 then 0 else -110
    ensures track && rv == 0 ==> Shifted(dev.step, s, dev.jtag, tms, tdi, tdo[..], 8 * bytes + n)
  {
    ghost var before, t := tdo[..], dev.jtag;
    hide Feed, ToWord, ByteOf, Shifted;
    var tmsStore, tdiStore := ToWord(tms[bytes..bytes + count]), ToWord(tdi[bytes..bytes + count]);
    var tdoStore;
    rv, tdoStore := ShiftBits(dev, tmsStore, tdiStore, delay, junk);
    if rv < 0 { return; }
    StoreWord(tdo, bytes, tdoStore, count);
    if track {
      ShiftedMore(dev.step, s, t, dev.jtag, tms, tdi, before, tdo[..], bytes, count, n, tdoStore);
    }
  }

  /** The loop comes to an end: its counter passes total, or a copy leaves the buffers, or a word times out. */
  ghost predicate Ends(total: u32, reply: nat -> Reply)
  {
    total <= TWO32 - 32 || total > TWO32 - 8 || exists k :: reply(k).delay >= COMPLETION_LOOP_MAX
  }

  /** k words went through, and their LENGTH values with those still due make up Lengths(total). */
  ghost predicate Through(total: nat, left: nat, k: nat, shifts0: seq<nat>, shifts: seq<nat>, reply: nat -> Reply)
  {
    && shifts + Lengths(left) == shifts0 + Lengths(total)
    && k + |Lengths(left)| == |Lengths(total)|
    && forall j :: 0 <= j < k ==> reply(j).delay < COMPLETION_LOOP_MAX
  }

  ghost predicate AllPrompt(total: nat, reply: nat -> Reply)
  {
    forall k :: 0 <= k < |Lengths(total)| ==> reply(k).delay < 100
  }

  lemma ThroughStart(total: nat, shifts: seq<nat>, reply: nat -> Reply)
    ensures Through(total, total, 0, shifts, shifts, reply)
  {
  }

  lemma ThroughStep(total: nat, left: nat, n: nat, k: nat, shifts0: seq<nat>, shifts: seq<nat>, reply: nat -> Reply)
    requires Through(total, left, k, shifts0, shifts, reply) && 0 < left && n == Min(32, left)
    ensures reply(k).delay < COMPLETION_LOOP_MAX ==> Through(total, left - n, k + 1, shifts0, shifts + [n], reply)
    ensures reply(k).delay >= COMPLETION_LOOP_MAX ==> !AllPrompt(total, reply)
  {
    assert Lengths(left) == [n] + Lengths(left - n);
  }

  lemma ThroughEnd(total: nat, k: nat, shifts0: seq<nat>, shifts: seq<nat>, reply: nat -> Reply)
    requires Through(total, 0, k, shifts0, shifts, reply)
    ensures shifts == shifts0 + Lengths(total) && AllPrompt(total, reply)
  {
    assert Lengths(0) == [];
  }

  lemma WordBits(bits: u32, left: u32, k: nat)
    requires bits == 32 * k
    ensures 8 * (bits / 8) == bits && WordBytes(left) <= 4 && Min(32, left) <= 8 * WordBytes(left)
  {
    DivUnique(bits, 8, 4 * k, 0);
  }

  /** The body of the loop at bit counter `bits` with `left` bits to go; ok if the copies stay in the buffers. */
  method Turn<S>(dev: Device<S>, tms: seq<Byte>, tdi: seq<Byte>, tdo: array<Byte>, bits: u32, left: u32,
                 delay: nat, junk: Word, ghost s: S, ghost k: nat, ghost track: bool) returns (ok: bool, rv: int)
    requires bits == 32 * k && 0 < left && (left >= 32 ==> dev.length <= 32) && |tms| == |tdi| == tdo.Length
    requires track ==>
      && bits + left <= 8 * tdo.Length && (left >= 32 ==> dev.length == 32)
      && Shifted(dev.step, s, dev.jtag, tms, tdi, tdo[..], bits)
    modifies dev, tdo
    ensures ok <==> bits / 8 + WordBytes(left) <= tdo.Length
    ensures ok ==> dev.length <= 32 && rv == if delay < 100 then 0 else -110
    ensures ok && track ==> dev.length == Min(32, left) && dev.shifts == old(dev.shifts) + [Min(32, left)]
    ensures ok && track && rv == 0 ==> Shifted(dev.step, s, dev.jtag, tms, tdi, tdo[..], bits + Min(32, left))
  {
    hide Shifted;
    var bytes, shiftBytes, n := bits / 8, 4, 32;
    if left < 32 {
      n := left;
      dev.length := left;
      shiftBytes := (left + 7) / 8;
    }
    WordBits(bits, left, k);
    if bytes + shiftBytes > tdo.Length { return false, 0; }
    ok := true;
    rv := ShiftWord(dev, tms, tdi, tdo, bytes, shiftBytes, n, delay, junk, s, track);
  }

  /** What the loop counts, lap after lap: bits is 32 m, left the rest of total, in 32 bits. */
  lemma NextTurn(total: u32, bits: u32, left: u32, m: nat) returns (next: nat)
    requires bits == 32 * m < total && left == total - bits
    ensures Wrap32(bits + 32) == 32 * next
      && (Wrap32(bits + 32) < total ==> Wrap32(left - 32) == total - Wrap32(bits + 32))
    ensures if total <= TWO32 - 32 then next == m + 1 else Wrap32(bits + 32) < total
  {
    if bits + 32 < TWO32 {
      Small(bits + 32);
      next := m + 1;
      if bits + 32 < total { Small(left - 32); }
    } else {
      assert bits == TWO32 - 32;
      next := 0;
      ModUnique(bits + 32, TWO32, 1, 0);
      ModUnique(left - 32, TWO32, -1, total);
    }
  }

  /** A bound on the turns: the number of words, or the turn that times out. */
  lemma LastTurn(total: u32, reply: nat -> Reply) returns (stop: nat)
    requires Ends(total, reply)
    ensures total <= TWO32 - 32 ==> 32 * stop >= total
    ensures TWO32 - 32 < total <= TWO32 - 8 ==> reply(stop).delay >= COMPLETION_LOOP_MAX
  {
    if total <= TWO32 - 32 {
      stop := (total + 31) / 32;
    } else if total <= TWO32 - 8 {
      stop :| reply(stop).delay >= COMPLETION_LOOP_MAX;
    } else {
      stop := 0;
    }
  }

  lemma InBounds(total: u32, bits: u32, left: u32, m: nat)
    requires bits == 32 * m < total && left == total - bits
    ensures bits / 8 + WordBytes(left) <= TotalBytes(total) <==> total <= TWO32 - 8
    ensures total <= TWO32 - 32 ==> total <= 8 * TotalBytes(total)
  {
    if total <= TWO32 - 8 {
      Covers(total);
      WordFits(bits, left, m, Min(32, left), bits / 8, WordBytes(left), TotalBytes(total));
    } else {
      NoBytes(total);
    }
  }

  /** k words of a stream that the counter can pass have gone through, and `due` bits are left. */
  ghost predicate Tracking<S>(step: Mealy<S>, s: S, now: S, tms: seq<Byte>, tdi: seq<Byte>, tdo: seq<Byte>, total: u32,
                              due: nat, k: nat, length: nat, shifts0: seq<nat>, shifts: seq<nat>, reply: nat -> Reply)
  {
    && |tms| == |tdi| == |tdo| == TotalBytes(total) && total <= 8 * |tdo| && due <= total
    && due == (if 32 * k < total then total - 32 * k else 0) && (due >= 32 ==> length == 32)
    && Shifted(step, s, now, tms, tdi, tdo, total - due) && Through(total, due, k, shifts0, shifts, reply)
  }

  lemma NothingShifted<S>(step: Mealy<S>, s: S, tms: seq<Byte>, tdi: seq<Byte>, tdo: seq<Byte>)
    requires |tms| == |tdi| == |tdo|
    ensures Shifted(step, s, s, tms, tdi, tdo, 0)
  {
  }

  lemma TrackingStart<S>(step: Mealy<S>, s: S, tms: seq<Byte>, tdi: seq<Byte>, tdo: seq<Byte>, total: u32, length: nat,
                         shifts0: seq<nat>, reply: nat -> Reply)
    requires |tms| == |tdi| == |tdo| == TotalBytes(total) && total <= TWO32 - 32 && (total >= 32 ==> length == 32)
    ensures Tracking(step, s, s, tms, tdi, tdo, total, total, 0, length, shifts0, shifts0, reply)
  {
    NothingShifted(step, s, tms, tdi, tdo);
    ThroughStart(total, shifts0, reply);
    Covers(total);
  }

  lemma TrackingStep<S>(step: Mealy<S>, s: S, t: S, u: S, tms: seq<Byte>, tdi: seq<Byte>, before: seq<Byte>,
                        after: seq<Byte>, total: u32, due: nat, k: nat, length: nat, shifts0: seq<nat>,
                        shifts: seq<nat>, reply: nat -> Reply)
    requires Tracking(step, s, t, tms, tdi, before, total, due, k, length, shifts0, shifts, reply)
    requires |after| == |before| && 0 < due
    requires Shifted(step, s, u, tms, tdi, after, total - due + Min(32, due))
    ensures var n := Min(32, due);
      && n <= due
      && (reply(k).delay < COMPLETION_LOOP_MAX ==>
            Tracking(step, s, u, tms, tdi, after, total, due - n, k + 1, n, shifts0, shifts + [n], reply))
  {
    hide Shifted, Through;
    ThroughStep(total, due, Min(32, due), k, shifts0, shifts, reply);
  }

  lemma TrackingEnd<S>(step: Mealy<S>, s: S, now: S, tms: seq<Byte>, tdi: seq<Byte>, tdo: seq<Byte>, total: u32,
                       due: nat, k: nat, length: nat, shifts0: seq<nat>, shifts: seq<nat>, reply: nat -> Reply)
    requires Tracking(step, s, now, tms, tdi, tdo, total, due, k, length, shifts0, shifts, reply)
    ensures 32 * k >= total ==>
      && shifts == shifts0 + Lengths(total) && AllPrompt(total, reply)
      && total <= 8 * |tdo| && Shifted(step, s, now, tms, tdi, tdo, total)
    ensures 32 * k < total ==>
      && due == total - 32 * k && (due >= 32 ==> length == 32) && total <= 8 * |tdo|
      && Shifted(step, s, now, tms, tdi, tdo, 32 * k)
      && (reply(k).delay >= COMPLETION_LOOP_MAX ==> !AllPrompt(total, reply))
  {
    hide Shifted, AllPrompt;
    if 32 * k >= total {
      ThroughEnd(total, k, shifts0, shifts, reply);
    } else {
      ThroughStep(total, due, Min(32, due), k, shifts0, shifts, reply);
    }
  }

  method ShiftLoop<S>(dev: Device<S>, totalBits: u32, tms: seq<Byte>, tdi: seq<Byte>, tdo: array<Byte>,
                      reply: nat -> Reply) returns (ok: bool, rv: int)
    requires Ends(totalBits, reply) && |tms| == |tdi| == tdo.Length == TotalBytes(totalBits)
    modifies dev, tdo
    ensures ok <==> totalBits <= TWO32 - 8
    ensures ok ==> rv == if totalBits <= TWO32 - 32 && AllPrompt(totalBits, reply) then 0 else -110
    ensures ok && rv == 0 ==>
      && totalBits <= 8 * tdo.Length && dev.shifts == old(dev.shifts) + Lengths(totalBits)
      && Shifted(dev.step, old(dev.jtag), dev.jtag, tms, tdi, tdo[..], totalBits)
  {
    hide Shifted, Tracking, Through, Lengths, AllPrompt, Wrap32, Ends, TotalBytes, WordBytes, Min;
    ghost var s, shifts0, plain := dev.jtag, dev.shifts, totalBits <= TWO32 - 32;
    ghost var stop := LastTurn(totalBits, reply);
    if totalBits >= 32 { dev.length := 32; }
    var bits: u32, left: u32, k := 0, totalBits, 0;
    ghost var due: nat, m: nat := totalBits, 0;
    if plain { TrackingStart(dev.step, s, tms, tdi, tdo[..], totalBits, dev.length, shifts0, reply); }
    ok, rv := true, 0;
    while bits < totalBits
      invariant ok && rv == 0 && bits == 32 * m && k <= stop
      invariant bits < totalBits ==> left == totalBits - bits && (left >= 32 ==> dev.length <= 32)
      invariant if plain then m == k else bits < totalBits
      invariant plain ==>
        Tracking(dev.step, s, dev.jtag, tms, tdi, tdo[..], totalBits, due, k, dev.length, shifts0, dev.shifts, reply)
      decreases stop - k
    {
      InBounds(totalBits, bits, left, m);
      ghost var t, before, length, shifts := dev.jtag, tdo[..], dev.length, dev.shifts;
      if plain { TrackingEnd(dev.step, s, t, tms, tdi, before, totalBits, due, k, length, shifts0, shifts, reply); }
      ok, rv := Turn(dev, tms, tdi, tdo, bits, left, reply(k).delay, reply(k).junk, s, m, plain);
      if !ok || rv < 0 { return; }
      if plain {
        TrackingStep(dev.step, s, t, dev.jtag, tms, tdi, before, tdo[..], totalBits, due, k, length, shifts0, shifts,
            reply);
        due := totalBits - bits - Min(32, left);
      }
      m := NextTurn(totalBits, bits, left, m);
      bits := Wrap32(bits + 32);
      left := Wrap32(left - 32);
      k := k + 1;
    }
    TrackingEnd(dev.step, s, dev.jtag, tms, tdi, tdo[..], totalBits, due, k, dev.length, shifts0, dev.shifts, reply);
  }

  /** Returned: an error code or 0 with the bytes for the user. Overran: a copy left the buffers. */
  datatype IoctlResult = Returned(rv: int, tdo: seq<Byte>) | Overran

  /** What the allocation and the copies from and to the user do; the numbers are bytes not copied. */
  datatype Caller = Caller(oom: bool, tmsLeft: nat, tdiLeft: nat, tdoLeft: nat)
  {
    /** The buffer is there and filled. */
    predicate Starts() { !oom && tmsLeft == 0 && tdiLeft == 0 }
  }

  /** xvc_ioctl with its command and argument read; word k gets reply(k). */
  method Ioctl<S>(dev: Device<S>, opcode: nat, totalBits: u32, tms: seq<Byte>, tdi: seq<Byte>, caller: Caller,
                  reply: nat -> Reply) returns (r: IoctlResult)
    requires Ends(totalBits, reply) && |tms| == |tdi| == TotalBytes(totalBits)
    modifies dev
    // before anything is shifted: EINVAL, ENOMEM, or the number of bytes a copy has left
    ensures opcode != 1 && opcode != 2 ==> r == Returned(-22, [])
    ensures (opcode == 1 || opcode == 2) && caller.oom ==> r == Returned(-12, [])
    ensures (opcode == 1 || opcode == 2) && !caller.oom && caller.tmsLeft != 0 ==> r == Returned(caller.tmsLeft, [])
    ensures (opcode == 1 || opcode == 2) && !caller.oom && caller.tmsLeft == 0 && caller.tdiLeft != 0 ==>
      r == Returned(caller.tdiLeft, [])
    ensures !((opcode == 1 || opcode == 2) && caller.Starts()) ==>
      dev.jtag == old(dev.jtag) && dev.shifts == old(dev.shifts)
    // else the loop is entered; ETIMEDOUT, or what the last copy has left
    ensures (opcode == 1 || opcode == 2) && caller.Starts() ==>
      && (r.Overran? <==> totalBits > TWO32 - 8)
      && (r.Returned? ==>
            r.rv == if totalBits <= TWO32 - 32 && AllPrompt(totalBits, reply) then caller.tdoLeft else -110)
    ensures (opcode == 1 || opcode == 2) && caller.Starts() && r.Returned? && r.rv >= 0 ==>
      && totalBits <= 8 * |tms| < totalBits + 8
      && dev.shifts == old(dev.shifts) + Lengths(totalBits)
      && dev.jtag == Serial(dev.step, old(dev.jtag), tms, tdi, totalBits).0
      && |r.tdo| == |tms|
      && (opcode == 1 ==> Bits(r.tdo)[..totalBits] == Serial(dev.step, old(dev.jtag), tms, tdi, totalBits).1)
      && (opcode == 2 ==> r.tdo == tdi)
  {
    if opcode != 1 && opcode != 2 { return Returned(-EINVAL, []); }
    if caller.oom { return Returned(-ENOMEM, []); }
    if caller.tmsLeft != 0 { return Returned(caller.tmsLeft, []); }
    if caller.tdiLeft != 0 { return Returned(caller.tdiLeft, []); }
    var tdo := new Byte[Wrap32(totalBits + 7) / 8](_ => ZERO_BYTE);
    if totalBits <= TWO32 - 32 { Covers(totalBits); }
    var ok, rv := ShiftLoop(dev, totalBits, tms, tdi, tdo, reply);
    if !ok { return Overran; }
    if rv < 0 { return Returned(rv, []); }
    return Returned(caller.tdoLeft, if opcode == 2 then tdi else tdo[..]);
  }
}
