/**
  Every run of the descriptor ring: transfers take consecutive slots at desc_idx and are retired
  in the order they were built.
 */
module RingAllocator {
  import opened Descriptors
  import opened Transfers

  datatype Span = Span(start: nat, len: nat)

  /** desc_idx, desc_used and the transfers built but not yet retired. */
  datatype Ring = Ring(idx: nat, used: int, live: seq<Span>)

  datatype Event =
    | Take(left: nat)     // transfer_init with this many software descriptors left
    | Retire              // desc_used -= desc_num for the oldest live transfer

  const EMPTY := Ring(0, 0, [])

  function Next(r: Ring, e: Event): Ring
    requires r.idx < RING
  {
    match e
    case Take(left) =>
      if left == 0 then r
      else
        var n := ChainLength(r.idx, left);
        Ring((r.idx + n) % RING, r.used + n, r.live + [Span(r.idx, n)])
    case Retire =>
      if r.live == [] then r else r.(used := r.used - r.live[0].len, live := r.live[1..])
  }

  function Run(es: seq<Event>): (r: Ring)
    ensures r.idx < RING
  {
    if es == [] then EMPTY else Next(Run(es[..|es| - 1]), es[|es| - 1])
  }

  function SumLen(spans: seq<Span>): (r: nat)
  {
    if spans == [] then 0 else SumLen(spans[..|spans| - 1]) + spans[|spans| - 1].len
  }

  lemma {:induction false} SumConcat(a: seq<Span>, b: seq<Span>)
    ensures SumLen(a + b) == SumLen(a) + SumLen(b)
  {
    if b == [] {
      assert a + b == a;
    } else {
      assert (a + b)[..|a + b| - 1] == a + b[..|b| - 1];
      SumConcat(a, b[..|b| - 1]);
    }
  }

  function Head(r: Ring): nat { if r.live == [] then r.idx else r.live[0].start }

  ghost predicate InPlace(r: Ring, i: nat)
    requires i < |r.live|
  {
    && 0 < r.live[i].len && r.live[i].start + r.live[i].len <= RING
    && r.live[i].start == (Head(r) + SumLen(r.live[..i])) % RING
  }

  /** Live transfers lie unwrapped in the ring, one right after the other, the last ending at idx. */
  ghost predicate Inv(r: Ring)
  {
    && r.idx < RING && r.used == SumLen(r.live)
    && r.idx == (Head(r) + SumLen(r.live)) % RING
    && forall i :: 0 <= i < |r.live| ==> InPlace(r, i)
  }

  predicate Apart(a: Span, b: Span) { a.start + a.len <= b.start || b.start + b.len <= a.start }

  ghost predicate Disjoint(live: seq<Span>)
  {
    forall i, j :: 0 <= i < j < |live| ==> Apart(live[i], live[j])
  }

  lemma ModAdd(a: int, x: int)
    ensures (a % RING + x) % RING == (a + x) % RING
  {
  }

  lemma TakeKeepsInv(r: Ring, left: nat)
    requires Inv(r) && 0 < left
    ensures Inv(Next(r, Take(left)))
  {
    var s := Next(r, Take(left));
    var n := ChainLength(r.idx, left);
    hide ChainLength;
    assert s.live[..|r.live|] == r.live;
    ModAdd(Head(r) + SumLen(r.live), n);
    assert Head(s) == Head(r);
    forall i | 0 <= i < |s.live| ensures InPlace(s, i) {
      if i < |r.live| {
        assert InPlace(r, i);
        assert s.live[..i] == r.live[..i];
      }
    }
  }

  lemma RetirePrefix(live: seq<Span>, i: nat)
    requires i < |live|
    ensures SumLen(live[..i + 1]) == live[0].len + SumLen(live[1..][..i])
  {
    assert live[..i + 1] == [live[0]] + live[1..][..i] && [live[0]][..0] == [];
    SumConcat([live[0]], live[1..][..i]);
  }

  lemma RetirePlace(r: Ring, i: nat)
    requires Inv(r) && i < |r.live| - 1
    ensures InPlace(Next(r, Retire), i)
  {
    assert InPlace(r, 1) && InPlace(r, i + 1);
    RetirePrefix(r.live, 0);
    RetirePrefix(r.live, i);
    ModAdd(Head(r) + r.live[0].len, SumLen(r.live[1..][..i]));
  }

  lemma RetireKeepsInv(r: Ring)
    requires Inv(r) && r.live != []
    ensures Inv(Next(r, Retire))
  {
    var s := Next(r, Retire);
    var n := |s.live|;
    RetirePrefix(r.live, n);
    assert r.live[..n + 1] == r.live && r.live[1..][..n] == s.live;
    if n > 0 {
      assert InPlace(r, 1);
      RetirePrefix(r.live, 0);
      ModAdd(Head(r) + r.live[0].len, SumLen(s.live));
    }
    forall i | 0 <= i < n ensures InPlace(s, i) { RetirePlace(r, i); }
  }

  lemma RetiredIs(s: Ring, live: seq<Span>, k: nat)
    requires 0 < k <= |live| && s.idx < RING && s.live == live[k - 1..] && s.used == SumLen(s.live)
    requires Inv(Next(s, Retire))
    ensures Next(s, Retire) == Ring(s.idx, SumLen(live[k..]), live[k..])
  {
    assert live[k - 1..][1..] == live[k..];
  }

  /** The newest live transfers, from the k-th on, are a ring of their own. */
  lemma {:induction false} NewestInv(r: Ring, k: nat)
    requires Inv(r) && k <= |r.live|
    ensures Inv(Ring(r.idx, SumLen(r.live[k..]), r.live[k..]))
    decreases k
  {
    if k == 0 {
      assert r.live[0..] == r.live;
    } else {
      hide Inv, SumLen;
      NewestInv(r, k - 1);
      var s := Ring(r.idx, SumLen(r.live[k - 1..]), r.live[k - 1..]);
      RetireKeepsInv(s);
      RetiredIs(s, r.live, k);
    }
  }

  lemma {:induction false} RunInv(es: seq<Event>)
    ensures Inv(Run(es))
  {
    if es != [] {
      RunInv(es[..|es| - 1]);
      var r, e := Run(es[..|es| - 1]), es[|es| - 1];
      if e.Take? && e.left > 0 {
        TakeKeepsInv(r, e.left);
      } else if e.Retire? && r.live != [] {
        RetireKeepsInv(r);
      }
    }
  }

  lemma SumPrefixStep(live: seq<Span>, i: nat)
    requires i < |live|
    ensures SumLen(live[..i + 1]) == SumLen(live[..i]) + live[i].len
  {
    assert live[..i + 1][..i] == live[..i];
  }

  lemma {:induction false} SumPrefixMonotone(live: seq<Span>, i: nat, j: nat)
    requires i <= j <= |live|
    ensures SumLen(live[..i]) <= SumLen(live[..j])
    decreases j
  {
    if i < j {
      SumPrefixMonotone(live, i, j - 1);
      SumPrefixStep(live, j - 1);
    }
  }

  /** Two unwrapped spans, at most one ring apart, do not meet. */
  lemma SpansApart(a: nat, b: nat, m: nat, n: nat)
    requires a + m <= b && b + n <= a + RING && a % RING + m <= RING && b % RING + n <= RING
    ensures Apart(Span(a % RING, m), Span(b % RING, n))
  {
    ModAdd(a, b - a);
    var x := a % RING + (b - a);
    assert b % RING == x || b % RING == x - RING;
  }

  lemma PairApart(r: Ring, i: nat, j: nat)
    requires Inv(r) && r.used <= RING && i < j < |r.live|
    ensures Apart(r.live[i], r.live[j])
  {
    var a, b := Head(r) + SumLen(r.live[..i]), Head(r) + SumLen(r.live[..j]);
    assert a + r.live[i].len <= b by {
      SumPrefixStep(r.live, i);
      SumPrefixMonotone(r.live, i + 1, j);
    }
    assert b + r.live[j].len <= a + RING by {
      SumPrefixStep(r.live, j);
      SumPrefixMonotone(r.live, j + 1, |r.live|);
      assert r.live[..|r.live|] == r.live;
    }
    assert InPlace(r, i) && InPlace(r, j);
    SpansApart(a, b, r.live[i].len, r.live[j].len);
  }

  /** The live transfer that reaches the slots of the oldest one again. */
  lemma {:induction false} FindCrossing(live: seq<Span>, k: nat) returns (j: nat)
    requires k <= |live| && SumLen(live[..k]) > RING
    ensures j < k && SumLen(live[..j]) <= RING < SumLen(live[..j]) + live[j].len
    decreases k
  {
    assert k > 0 by { assert live[..0] == []; }
    SumPrefixStep(live, k - 1);
    if SumLen(live[..k - 1]) > RING {
      j := FindCrossing(live, k - 1);
    } else {
      j := k - 1;
    }
  }

  lemma Overfull(r: Ring)
    requires Inv(r) && r.used > RING
    ensures !Disjoint(r.live)
  {
    assert r.live[..|r.live|] == r.live;
    var j := FindCrossing(r.live, |r.live|);
    assert InPlace(r, 0) && InPlace(r, j);
    assert j > 0 by { assert r.live[..0] == []; }
    var at := Head(r) + SumLen(r.live[..j]);
    ModAdd(at, RING - SumLen(r.live[..j]));
    assert !Apart(r.live[0], r.live[j]);
  }

  /**
    In every run desc_idx stays in the ring, every live transfer lies in it without wrapping,
    desc_used is the number of slots held by live transfers, and these are pairwise disjoint
    if and only if that number is at most 2048.
   */
  lemma RingSafety(es: seq<Event>)
    ensures var r := Run(es);
      && r.idx < 2048
      && (forall s :: s in r.live ==> 0 < s.len && s.start + s.len <= 2048)
      && r.used == SumLen(r.live)
      && (Disjoint(r.live) <==> r.used <= 2048)
  {
    RunInv(es);
    var r := Run(es);
    forall s | s in r.live ensures 0 < s.len && s.start + s.len <= RING {
      var i :| 0 <= i < |r.live| && r.live[i] == s;
      assert InPlace(r, i);
    }
    if r.used <= RING {
      forall i, j | 0 <= i < j < |r.live| ensures Apart(r.live[i], r.live[j]) {
        PairApart(r, i, j);
      }
    } else {
      Overfull(r);
    }
  }

  /** Nothing bounds desc_used: a full ring followed by one more descriptor reuses a live slot. */
  lemma OverlapExample()
    ensures !Disjoint(Run([Take(2048), Take(1)]).live)
  {
    var es := [Take(2048), Take(1)];
    assert es[..1] == [Take(2048)] && es[..1][..0] == [];
    assert Run(es[..1]).live == [Span(0, 2048)];
    var live := Run(es).live;
    assert live == [Span(0, 2048), Span(0, 1)];
    assert !Apart(live[0], live[1]);
  }
}
