/** xdma_xfer_submit and xdma_xfer_submit_nowait: a whole request, transfer by transfer. */
module Submit {
  import opened Words
  import opened ScatterSplit
  import opened Descriptors
  import opened Transfers
  import opened DmaMeaning

  const EIO: int := 5
  const EBUSY: int := 16
  const ERESTARTSYS: int := 512

  /**
    What becomes of a transfer. A completed one has run to its stopping descriptor; one that
    failed or timed out has run some of its descriptors; a refused one was never queued.
    `received` is the byte count of the result records, used for C2H streaming only.
   */
  datatype Outcome =
    | Completed(received: nat)
    | Failed(executed: nat)
    | TimedOut(executed: nat)
    | Refused

  function Sum(xs: seq<nat>): (r: nat) { if xs == [] then 0 else Sum(xs[..|xs| - 1]) + xs[|xs| - 1] }

  // ---- How many transfers a request takes.

  function TransferCount(idx: nat, left: nat): (r: nat)
    requires idx < RING
    decreases left
  {
    if left == 0 then 0
    else
      var n := ChainLength(idx, left);
      1 + TransferCount((idx + n) % RING, left - n)
  }

  /** One transfer for each ring's worth of slots that the request touches. */
  lemma {:induction false} TransferCountIs(idx: nat, left: nat)
    requires idx < RING && 0 < left
    ensures TransferCount(idx, left) == (idx + left + RING - 1) / RING
    decreases left
  {
    var n := ChainLength(idx, left);
    if n < left {
      assert (idx + n) % RING == 0;
      TransferCountIs(0, left - n);
      assert (idx + left + RING - 1) / RING == (left - n + RING - 1) / RING + 1;
    } else {
      assert TransferCount((idx + n) % RING, 0) == 0;
    }
  }

  /** The two slots of tfer[2] are enough exactly when the request ends within the second lap. */
  lemma TwoTransfersSufficeIff(idx: nat, left: nat)
    requires idx < RING
    ensures TransferCount(idx, left) <= 2 <==> idx + left <= 2 * RING
  {
    if left > 0 { TransferCountIs(idx, left); }
  }

  // ---- The effect of one transfer in the middle of a request.

  /**
    The hardware has visited the host's first k pieces in order and, but for C2H streaming, whose source is
    no address, has made the moves planned for them.
   */
  ghost predicate Made(cfg: Config, pieces: seq<Segment>, k: nat, ep: u64, moves: seq<Move>)
  {
    && k <= |pieces| && HostSides(cfg.toDevice, moves) == pieces[..k]
    && (!(cfg.streaming && !cfg.toDevice) ==> moves == Planned(cfg, pieces, ep)[..k])
  }

  /** The moves of i pieces followed by those of m more. */
  lemma MadeMore(cfg: Config, pieces: seq<Segment>, part: seq<Segment>, i: nat, m: nat, ep: u64, made: seq<Move>,
                 more: seq<Move>)
    requires m <= |part| && i + |part| <= |pieces| && part == pieces[i..i + |part|]
    requires Made(cfg, pieces, i, ep, made)
    requires HostSides(cfg.toDevice, more) == part[..m]
    requires !cfg.StreamsToHost() ==> more == Planned(cfg, part, EndpointAfter(cfg, ep, pieces[..i]))[..m]
    ensures Made(cfg, pieces, i + m, ep, made + more)
  {
    hide Planned, EndpointAfter;
    PlannedConcat(cfg, pieces[..i], part, ep);
    PlannedPrefix(cfg, pieces, ep, i);
    PlannedPrefix(cfg, pieces, ep, i + |part|);
    assert pieces[..i] + part == pieces[..i + |part|];
    assert HostSides(cfg.toDevice, made + more) == HostSides(cfg.toDevice, made) + HostSides(cfg.toDevice, more);
    assert pieces[..i] + part[..m] == pieces[..i + m];
  }

  lemma ChainHeld(cfg: Config, before: seq<Desc>, after: seq<Desc>, start: nat, pieces: seq<Segment>, ep: u64)
    requires cfg.Valid() && |before| == RING && start + |pieces| <= RING && pieces != []
    requires after == before[..start] + Chain(cfg, start, pieces, ep) + before[start + |pieces|..]
    ensures Holds(cfg, after, start, pieces, ep)
  {
    assert after[start..start + |pieces|] == Chain(cfg, start, pieces, ep);
  }

  /** Running the chain just written to the ring makes the moves of its pieces. */
  lemma ChainEffect(cfg: Config, before: seq<Desc>, ring: seq<Desc>, start: nat, part: seq<Segment>, ep: u64,
                    limit: nat)
    requires cfg.Valid() && |before| == RING && start + |part| <= RING && part != []
    requires ring == before[..start] + Chain(cfg, start, part, ep) + before[start + |part|..]
    ensures |ring| == RING
    ensures HostSides(cfg.toDevice, HardwareRun(cfg, ring, cfg.SlotBus(start), limit)) == part[..Min(|part|, limit)]
    ensures !cfg.StreamsToHost() ==>
      HardwareRun(cfg, ring, cfg.SlotBus(start), limit) == Planned(cfg, part, ep)[..Min(|part|, limit)]
  {
    ChainHeld(cfg, before, ring, start, part, ep);
    ChainHosts(cfg, ring, start, part, ep, limit);
    if !cfg.StreamsToHost() {
      ChainMeaning(cfg, ring, start, part, ep, limit);
    }
  }

  lemma EndpointAfterConcat(cfg: Config, ep: u64, pieces: seq<Segment>, i: nat, n: nat)
    requires i + n <= |pieces|
    ensures EndpointAfter(cfg, EndpointAfter(cfg, ep, pieces[..i]), pieces[i..i + n]) ==
      EndpointAfter(cfg, ep, pieces[..i + n])
  {
    assert pieces[..i] + pieces[i..i + n] == pieces[..i + n];
    PlannedConcat(cfg, pieces[..i], pieces[i..i + n], ep);
  }

  // ---- The code.

  /** How many descriptors of its transfer the hardware gets through. */
  function Limit(o: Outcome): nat
  {
    match o
    case Completed(_) => RING
    case Failed(k) => k
    case TimedOut(k) => k
    case Refused => 0
  }

  /** One turn of the loop up to the wait: build the next transfer and let the hardware run. */
  method BuildAndRun(engine: Engine, req: Request, ghost ep: u64, limit: nat, made: seq<Move>)
    returns (xfer: Transfer, moves: seq<Move>)
    requires engine.Valid() && req.swDescIdx < |req.sdesc|
    requires req.epAddr == EndpointAfter(engine.cfg, ep, req.sdesc[..req.swDescIdx])
    requires Made(engine.cfg, req.sdesc, req.swDescIdx, ep, made)
    modifies engine, engine.desc, req
    ensures engine.Valid()
    ensures xfer.descNum == ChainLength(old(engine.descIdx), |req.sdesc| - old(req.swDescIdx))
    ensures engine.descIdx == (old(engine.descIdx) + xfer.descNum) % RING
    ensures engine.descUsed == old(engine.descUsed) + xfer.descNum
    ensures req.swDescIdx == old(req.swDescIdx) + xfer.descNum
    ensures xfer.len == Wrap32(TotalLen(req.sdesc[old(req.swDescIdx)..req.swDescIdx]))
    ensures req.epAddr == EndpointAfter(engine.cfg, ep, req.sdesc[..req.swDescIdx])
    ensures Made(engine.cfg, req.sdesc, old(req.swDescIdx) + Min(xfer.descNum, limit), ep, moves)
  {
    hide Made, HardwareRun, Chain, EndpointAfter, TotalLen, Wrap32, Planned;
    ghost var before, i, start, ep1 := engine.desc[..], req.swDescIdx, engine.descIdx, req.epAddr;
    ghost var part;
    xfer, part := engine.TransferInit(req);
    var ring := engine.desc[..];
    ChainEffect(engine.cfg, before, ring, start, part, ep1, limit);
    var more := HardwareRun(engine.cfg, ring, xfer.descBus, limit);
    EndpointAfterConcat(engine.cfg, ep, req.sdesc, i, xfer.descNum);
    MadeMore(engine.cfg, req.sdesc, part, i, Min(xfer.descNum, limit), ep, made, more);
    moves := made + more;
  }

  ghost predicate AllCompleted(outcome: nat -> Outcome, n: nat)
  {
    forall k :: 0 <= k < n ==> outcome(k).Completed?
  }

  /** The error code of a transfer that did not complete. */
  function ErrorCode(o: Outcome): int
  {
    match o
    case Completed(_) => 0
    case Failed(_) => -EIO
    case TimedOut(_) => -ERESTARTSYS
    case Refused => -EBUSY
  }

  /** What the loop has done once `built` transfers have completed. */
  ghost predicate Progress(idx0: nat, idx: nat, pieces: seq<Segment>, outcome: nat -> Outcome, built: seq<nat>)
    requires idx0 < RING && idx < RING
  {
    && Sum(built) <= |pieces|
    && (forall k :: 0 <= k < |built| ==> built[k] > 0)
    && AllCompleted(outcome, |built|)
    && |built| + TransferCount(idx, |pieces| - Sum(built)) == TransferCount(idx0, |pieces|)
  }

  /** What the result records of the first n transfers say, all completed. */
  function Received(outcome: nat -> Outcome, n: nat): (r: nat)
  {
    if n == 0 then 0
    else Received(outcome, n - 1) + if outcome(n - 1).Completed? then outcome(n - 1).received else 0
  }

  /**
    The count after n completed transfers. For C2H streaming it is what their result records say. Otherwise it
    never exceeds the length of their pieces and agrees with it modulo 2^32: each length is kept in 32 bits.
   */
  ghost predicate Counted(cfg: Config, pieces: seq<Segment>, outcome: nat -> Outcome, n: nat, moved: nat, done: int)
  {
    && done >= 0 && moved <= |pieces|
    && (if cfg.streaming && !cfg.toDevice then done == Received(outcome, n)
        else done <= TotalLen(pieces[..moved]) && done % 0x1_0000_0000 == TotalLen(pieces[..moved]) % 0x1_0000_0000)
  }

  /** The count of bytes if there is one; else the error: -EIO, -ERESTARTSYS or -EBUSY. */
  ghost predicate Reports(ret: int, done: int, o: Outcome)
  {
    if done != 0 then ret == done
    else match o
      case Completed(_) => ret == 0
      case Failed(_) => ret == -5
      case TimedOut(_) => ret == -512
      case Refused => ret == -16
  }

  /** The transfers `before` completed; the next one, of n descriptors, did not. */
  ghost predicate StoppedAt(cfg: Config, pieces: seq<Segment>, outcome: nat -> Outcome,
                            before: seq<nat>, n: nat, moved: nat, usedMore: int, ret: int)
  {
    var o := outcome(|before|);
    && AllCompleted(outcome, |before|) && !o.Completed?
    && Sum(before) <= |pieces|
    && moved == Sum(before) + Min(n, Limit(o))
    && usedMore == (if o.Refused? then n else 0)
    && exists done :: Counted(cfg, pieces, outcome, |before|, Sum(before), done) && Reports(ret, done, o)
  }

  /**
    How the loop ended: after completing everything, or the first transfer if a flushed C2H stream ends the
    request with it; or at the first transfer that did not complete.
   */
  ghost predicate Ended(cfg: Config, idx0: nat, pieces: seq<Segment>, outcome: nat -> Outcome,
                        built: seq<nat>, moved: nat, usedMore: int, ret: int)
    requires idx0 < RING
  {
    && (forall k :: 0 <= k < |built| ==> built[k] > 0)
    && (AllCompleted(outcome, |built|) ==>
          && Sum(built) == moved && usedMore == 0 && Counted(cfg, pieces, outcome, |built|, moved, ret)
          && if cfg.streaming && !cfg.toDevice && cfg.eopFlush then |built| == if pieces == [] then 0 else 1
             else moved == |pieces| && |built| == TransferCount(idx0, |pieces|))
    && (!AllCompleted(outcome, |built|) ==>
          && built != []
          && StoppedAt(cfg, pieces, outcome, built[..|built| - 1], built[|built| - 1], moved, usedMore, ret))
  }

  lemma LoopStart(cfg: Config, idx: nat, pieces: seq<Segment>, outcome: nat -> Outcome, ep: u64)
    requires idx < RING
    ensures Progress(idx, idx, pieces, outcome, []) && Sum([]) == 0
    ensures EndpointAfter(cfg, ep, pieces[..0]) == ep
    ensures Made(cfg, pieces, 0, ep, []) && Counted(cfg, pieces, outcome, 0, 0, 0)
  {
    assert pieces[..0] == [];
  }

  lemma CountStep(idx: nat, left: nat)
    requires idx < RING && 0 < left
    ensures var n := ChainLength(idx, left);
      TransferCount(idx, left) == 1 + TransferCount((idx + n) % RING, left - n)
  {
    hide ChainLength;
  }

  lemma NoCount(idx: nat)
    requires idx < RING
    ensures TransferCount(idx, 0) == 0
  {
  }

  lemma SumMore(built: seq<nat>, n: nat)
    ensures Sum(built + [n]) == Sum(built) + n
  {
    assert (built + [n])[..|built|] == built;
  }

  lemma ProgressSum(idx0: nat, idx: nat, pieces: seq<Segment>, outcome: nat -> Outcome, built: seq<nat>)
    requires idx0 < RING && idx < RING && Progress(idx0, idx, pieces, outcome, built)
    ensures Sum(built) <= |pieces|
  {
  }

  lemma ProgressMore(idx0: nat, idx: nat, next: nat, pieces: seq<Segment>, outcome: nat -> Outcome, built: seq<nat>,
                     n: nat)
    requires idx0 < RING && idx < RING && next < RING && Progress(idx0, idx, pieces, outcome, built)
    requires 0 < n && Sum(built + [n]) == Sum(built) + n <= |pieces| && outcome(|built|).Completed?
    requires TransferCount(idx, |pieces| - Sum(built)) == 1 + TransferCount(next, |pieces| - Sum(built) - n)
    ensures Progress(idx0, next, pieces, outcome, built + [n])
  {
    hide TransferCount, Sum;
  }

  lemma ProgressStep(idx0: nat, idx: nat, pieces: seq<Segment>, outcome: nat -> Outcome, built: seq<nat>, n: nat)
    requires idx0 < RING && idx < RING && Progress(idx0, idx, pieces, outcome, built)
    requires Sum(built) < |pieces| && n == ChainLength(idx, |pieces| - Sum(built))
    ensures Sum(built + [n]) == Sum(built) + n <= |pieces|
    ensures outcome(|built|).Completed? ==> Progress(idx0, (idx + n) % RING, pieces, outcome, built + [n])
  {
    hide Progress, TransferCount, Sum;
    ProgressSum(idx0, idx, pieces, outcome, built);
    CountStep(idx, |pieces| - Sum(built));
    SumMore(built, n);
    if outcome(|built|).Completed? { ProgressMore(idx0, idx, (idx + n) % RING, pieces, outcome, built, n); }
  }

  lemma ReportsIs(done: int, o: Outcome)
    ensures Reports(if done != 0 then done else ErrorCode(o), done, o)
  {
  }

  lemma EndedEarly(cfg: Config, idx0: nat, idx: nat, pieces: seq<Segment>, outcome: nat -> Outcome, built: seq<nat>,
                   n: nat, moved: nat, usedMore: int, done: int)
    requires idx0 < RING && idx < RING && Progress(idx0, idx, pieces, outcome, built)
    requires n > 0 && !outcome(|built|).Completed? && moved == Sum(built) + Min(n, Limit(outcome(|built|)))
    requires usedMore == if outcome(|built|).Refused? then n else 0
    requires Counted(cfg, pieces, outcome, |built|, Sum(built), done)
    ensures Ended(cfg, idx0, pieces, outcome, built + [n], moved, usedMore,
                  if done != 0 then done else ErrorCode(outcome(|built|)))
  {
    hide TransferCount, Sum, Counted, ErrorCode, Reports;
    var ret := if done != 0 then done else ErrorCode(outcome(|built|));
    ReportsIs(done, outcome(|built|));
    var all := built + [n];
    assert all[..|all| - 1] == built && all[|all| - 1] == n;
    assert !AllCompleted(outcome, |all|);
    assert AllCompleted(outcome, |built|);
    hide AllCompleted;
    assert StoppedAt(cfg, pieces, outcome, built, n, moved, usedMore, ret);
    hide StoppedAt;
  }

  /** Below 4 GiB the count is exact. */
  lemma CountedExactly(cfg: Config, pieces: seq<Segment>, outcome: nat -> Outcome, n: nat, moved: nat, done: int)
    requires Counted(cfg, pieces, outcome, n, moved, done) && !cfg.StreamsToHost() && TotalLen(pieces[..moved]) < TWO32
    ensures done == TotalLen(pieces[..moved])
  {
  }

  lemma SameWrap(a: nat, b: nat, x: nat, y: nat)
    requires a <= x && Wrap32(a) == Wrap32(x) && b == Wrap32(y)
    ensures a + b <= x + y && Wrap32(a + b) == Wrap32(x + y)
  {
    WrapAdd32(a, b);
    WrapAdd32(x, b);
    WrapAdd32(y, x);
  }

  lemma {:induction false} PrefixTotals(pieces: seq<Segment>, i: nat, j: nat)
    requires i <= j <= |pieces|
    ensures TotalLen(pieces[..i]) + TotalLen(pieces[i..j]) == TotalLen(pieces[..j]) <= TotalLen(pieces)
  {
    hide Addresses, TotalLen;
    AddressesConcat(pieces[..i], pieces[i..j]);
    AddressesConcat(pieces[..j], pieces[j..]);
    assert pieces[..i] + pieces[i..j] == pieces[..j];
    assert pieces[..j] + pieces[j..] == pieces;
  }

  lemma CountedMore(cfg: Config, pieces: seq<Segment>, outcome: nat -> Outcome, n: nat, i: nat, j: nat, done: int,
                    credit: nat)
    requires i <= j <= |pieces| && Counted(cfg, pieces, outcome, n, i, done) && outcome(n).Completed?
    requires credit == if cfg.StreamsToHost() then outcome(n).received else Wrap32(TotalLen(pieces[i..j]))
    ensures Counted(cfg, pieces, outcome, n + 1, j, done + credit)
  {
    PrefixTotals(pieces, i, j);
    if !cfg.StreamsToHost() { SameWrap(done, credit, TotalLen(pieces[..i]), TotalLen(pieces[i..j])); }
  }

  lemma EndedWell(cfg: Config, idx0: nat, idx: nat, pieces: seq<Segment>, outcome: nat -> Outcome, built: seq<nat>,
                  moved: nat, ret: int)
    requires idx0 < RING && idx < RING && Progress(idx0, idx, pieces, outcome, built)
    requires moved == Sum(built) && Counted(cfg, pieces, outcome, |built|, moved, ret)
    requires if cfg.StreamsToHost() && cfg.eopFlush then |built| == if pieces == [] then 0 else 1 else moved == |pieces|
    ensures Ended(cfg, idx0, pieces, outcome, built, moved, 0, ret)
  {
    assert pieces[..|pieces|] == pieces;
  }

  /** What a completed transfer adds to the returned count. */
  function Credit(cfg: Config, o: Outcome, xfer: Transfer): (r: nat)
  {
    if !o.Completed? then 0 else if cfg.StreamsToHost() then o.received else xfer.len
  }

  /**
    The submit loop. built[k] is desc_num of the k-th transfer, whose fate is outcome(k); moved is
    how many software descriptors the hardware has executed.
   */
  method SubmitLoop(engine: Engine, req: Request, outcome: nat -> Outcome)
    returns (ret: int, moves: seq<Move>, built: seq<nat>, moved: nat)
    requires engine.Valid() && req.swDescIdx == 0
    modifies engine, engine.desc, req
    ensures engine.Valid()
    ensures Made(engine.cfg, req.sdesc, moved, old(req.epAddr), moves)
    ensures Ended(engine.cfg, old(engine.descIdx), req.sdesc, outcome, built, moved,
                  engine.descUsed - old(engine.descUsed), ret)
  {
    hide Made, Progress, Ended, Counted, Sum, ChainLength, EndpointAfter, TotalLen, Wrap32;
    moves, built, moved := [], [], 0;
    ghost var pieces, ep, flush := req.sdesc, req.epAddr, engine.cfg.StreamsToHost() && engine.cfg.eopFlush;
    LoopStart(engine.cfg, engine.descIdx, pieces, outcome, ep);
    var done, nents := 0, |req.sdesc|;
    while nents > 0
      invariant engine.Valid() && engine.descUsed == old(engine.descUsed)
      invariant req.swDescIdx == moved == Sum(built) <= |pieces| && done >= 0
      invariant Progress(old(engine.descIdx), engine.descIdx, pieces, outcome, built)
      invariant if flush && built != [] then nents == 0 && |built| == 1 && pieces != [] else nents == |pieces| - moved
      invariant req.epAddr == EndpointAfter(engine.cfg, ep, pieces[..moved])
      invariant Made(engine.cfg, pieces, moved, ep, moves)
      invariant Counted(engine.cfg, pieces, outcome, |built|, moved, done)
      decreases nents
    {
      var o := outcome(|built|);
      ghost var i, idx := req.swDescIdx, engine.descIdx;
      var xfer;
      xfer, moves := BuildAndRun(engine, req, ep, Limit(o), moves);
      ProgressStep(old(engine.descIdx), idx, pieces, outcome, built, xfer.descNum);
      nents := nents - xfer.descNum;
      moved := moved + Min(xfer.descNum, Limit(o));
      if !o.Refused? { engine.descUsed := engine.descUsed - xfer.descNum; }
      if !o.Completed? {
        ret := if done != 0 then done else ErrorCode(o);
        EndedEarly(engine.cfg, old(engine.descIdx), idx, pieces, outcome, built, xfer.descNum, moved,
                   engine.descUsed - old(engine.descUsed), done);
        built := built + [xfer.descNum];
        return;
      }
      CountedMore(engine.cfg, pieces, outcome, |built|, i, moved, done, Credit(engine.cfg, o, xfer));
      built := built + [xfer.descNum];
      done := done + Credit(engine.cfg, o, xfer);
      if engine.cfg.StreamsToHost() && engine.cfg.eopFlush { nents := 0; }
    }
    ret := done;
    EndedWell(engine.cfg, old(engine.descIdx), engine.descIdx, pieces, outcome, built, moved, ret);
  }

  /**
    What a whole request must do: the host's bytes in the order of the scatter list, against one fixed
    endpoint address or else, in any memories, as one plain copy of the list.
   */
  ghost predicate MovesList(cfg: Config, sgl: seq<Segment>, ep: u64, moves: seq<Move>)
  {
    && Addresses(HostSides(cfg.toDevice, moves)) == Addresses(sgl)
    && (cfg.nonIncr ==> forall m :: m in moves ==> DeviceSide(cfg.toDevice, m) == ep)
    && (!cfg.nonIncr ==> forall from, to :: Perform(from, to, moves) == PlainCopy(cfg.toDevice, from, to, sgl, ep))
  }

  method SubmitPieces(engine: Engine, pieces: seq<Segment>, ep: u64, outcome: nat -> Outcome)
    returns (ret: int, moves: seq<Move>, built: seq<nat>, moved: nat)
    requires engine.Valid()
    modifies engine, engine.desc
    ensures engine.Valid()
    ensures Made(engine.cfg, pieces, moved, ep, moves)
    ensures Ended(engine.cfg, old(engine.descIdx), pieces, outcome, built, moved,
                  engine.descUsed - old(engine.descUsed), ret)
  {
    hide Made, Ended;
    var req := new Request(pieces, ep);
    ret, moves, built, moved := SubmitLoop(engine, req, outcome);
  }

  lemma MovedAll(cfg: Config, idx0: nat, pieces: seq<Segment>, outcome: nat -> Outcome, built: seq<nat>,
                 moved: nat, usedMore: int, ret: int)
    requires idx0 < RING && Ended(cfg, idx0, pieces, outcome, built, moved, usedMore, ret)
    requires AllCompleted(outcome, |built|) && !(cfg.StreamsToHost() && cfg.eopFlush)
    ensures moved == |pieces|
  {
    hide AllCompleted, StoppedAt, Sum, TotalLen, TransferCount;
  }

  /** The whole request against its reference: the moves for the pieces are those of the original list. */
  lemma RequestMeaning(cfg: Config, sgl: seq<Segment>, blen: u32, ep: u64, moves: seq<Move>)
    requires 0 < blen && !cfg.StreamsToHost()
    requires Made(cfg, SplitList(sgl, blen), |SplitList(sgl, blen)|, ep, moves)
    ensures MovesList(cfg, sgl, ep, moves)
  {
    var pieces := SplitList(sgl, blen);
    assert moves == Planned(cfg, pieces, ep);
    SplitListTiles(sgl, blen);
    PlannedSides(cfg, pieces, ep);
    hide Planned, SplitList;
    if !cfg.nonIncr {
      forall from, to ensures Perform(from, to, moves) == PlainCopy(cfg.toDevice, from, to, sgl, ep) {
        PlannedCopies(cfg, pieces, ep, from, to);
      }
    }
  }

  lemma HostsOfList(cfg: Config, sgl: seq<Segment>, blen: u32, ep: u64, moves: seq<Move>)
    requires 0 < blen && Made(cfg, SplitList(sgl, blen), |SplitList(sgl, blen)|, ep, moves)
    ensures Addresses(HostSides(cfg.toDevice, moves)) == Addresses(sgl)
  {
    var pieces := SplitList(sgl, blen);
    assert pieces[..|pieces|] == pieces;
    SplitListTiles(sgl, blen);
  }

  /** xdma_xfer_submit, for a list the splitting step has room for. */
  method XferSubmit(engine: Engine, sgl: seq<Segment>, ep: u64, blen: u32, outcome: nat -> Outcome)
    returns (ret: int, moves: seq<Move>, built: seq<nat>, moved: nat)
    requires engine.Valid() && 0 < blen && |SplitList(sgl, blen)| <= Capacity(sgl, blen)
    modifies engine, engine.desc
    ensures engine.Valid()
    ensures sgl == [] ==> ret == -5 && moves == []
    ensures sgl != [] ==>
      && Made(engine.cfg, SplitList(sgl, blen), moved, ep, moves)
      && Ended(engine.cfg, old(engine.descIdx), SplitList(sgl, blen), outcome, built, moved,
               engine.descUsed - old(engine.descUsed), ret)
    ensures sgl != [] && AllCompleted(outcome, |built|) ==>
      && (engine.cfg.toDevice || !engine.cfg.streaming ==> MovesList(engine.cfg, sgl, ep, moves))
      && (engine.cfg.streaming && !engine.cfg.toDevice && !engine.cfg.eopFlush ==>
        Addresses(HostSides(false, moves)) == Addresses(sgl))
  {
    hide Made, Ended, MovesList, SplitList, Capacity, TotalLen, AllCompleted, Wrap32, Addresses;
    if sgl == [] { return -EIO, [], [], 0; }
    var r := InitRequest(sgl, blen);
    ret, moves, built, moved := SubmitPieces(engine, r.sdesc, ep, outcome);
    if AllCompleted(outcome, |built|) && !(engine.cfg.StreamsToHost() && engine.cfg.eopFlush) {
      MovedAll(engine.cfg, old(engine.descIdx), r.sdesc, outcome, built, moved,
               engine.descUsed - old(engine.descUsed), ret);
      HostsOfList(engine.cfg, sgl, blen, ep, moves);
      if !engine.cfg.StreamsToHost() { RequestMeaning(engine.cfg, sgl, blen, ep, moves); }
    }
  }

  lemma RefusedEnds(cfg: Config, idx0: nat, pieces: seq<Segment>, outcome: nat -> Outcome, built: seq<nat>,
                    moved: nat, usedMore: int, ret: int)
    requires idx0 < RING && Ended(cfg, idx0, pieces, outcome, built, moved, usedMore, ret)
    requires |pieces| == 1 && !cfg.StreamsToHost() && forall k :: outcome(k) == Refused
    ensures usedMore > 0 && ret == -16
  {
    hide TransferCount, Wrap32;
    assert outcome(0) == Refused;
    assert built != [];
    assert built[..|built| - 1] == [];
    assert pieces[..0] == [];
  }

  /** One piece whose transfer is refused: its descriptors stay counted. */
  method RefusedExample(engine: Engine, piece: Segment, ep: u64) returns (ret: int)
    requires engine.Valid() && !engine.cfg.StreamsToHost()
    modifies engine, engine.desc
    ensures engine.Valid() && engine.descUsed > old(engine.descUsed) && ret == -16
  {
    var moves, built, moved;
    ret, moves, built, moved := SubmitPieces(engine, [piece], ep, _ => Refused);
    RefusedEnds(engine.cfg, old(engine.descIdx), [piece], _ => Refused, built, moved,
                engine.descUsed - old(engine.descUsed), ret);
  }

  /** Outside C2H streaming the caller is never told of more bytes than the hardware has moved. */
  lemma NeverOverstates(cfg: Config, idx0: nat, pieces: seq<Segment>, outcome: nat -> Outcome, built: seq<nat>,
                        moved: nat, usedMore: int, ret: int)
    requires idx0 < RING && Ended(cfg, idx0, pieces, outcome, built, moved, usedMore, ret)
    requires !cfg.StreamsToHost() && moved <= |pieces|
    ensures ret <= TotalLen(pieces[..moved])
  {
    hide Sum, TotalLen, TransferCount, Wrap32;
    if !AllCompleted(outcome, |built|) {
      var before, n := built[..|built| - 1], built[|built| - 1];
      var done :| Counted(cfg, pieces, outcome, |before|, Sum(before), done) && Reports(ret, done, outcome(|before|));
      PrefixTotals(pieces, Sum(before), moved);
    }
  }

  lemma AllCounted(cfg: Config, idx0: nat, pieces: seq<Segment>, outcome: nat -> Outcome, built: seq<nat>,
                   moved: nat, usedMore: int, ret: int)
    requires idx0 < RING && Ended(cfg, idx0, pieces, outcome, built, moved, usedMore, ret)
    requires AllCompleted(outcome, |built|) && !cfg.StreamsToHost() && TotalLen(pieces) < TWO32
    ensures ret == TotalLen(pieces)
  {
    hide AllCompleted, StoppedAt, Sum, TransferCount, TotalLen;
    assert pieces[..|pieces|] == pieces;
    CountedExactly(cfg, pieces, outcome, |built|, moved, ret);
  }

  /** A full ring's start away from its end, a request can need a third transfer. */
  lemma ThirdTransferExample()
    ensures TransferCount(2047, 2050) == 3
  {
    TransferCountIs(2047, 2050);
  }

  datatype NowaitResult = Queued | Declined | NoRoom

  /** What becomes of a request of n transfers when accepts(k) says whether the k-th can be queued. */
  function NowaitFate(n: nat, accepts: nat -> bool): NowaitResult
  {
    if n > 0 && !accepts(0) then Declined
    else if n > 1 && !accepts(1) then Declined
    else if n > 2 then NoRoom
    else Queued
  }

  /**
    xdma_xfer_submit_nowait builds and queues all transfers at once, in an array of two. NoRoom: it goes
    on to a third. A refusal ends it with what was built before still queued.
   */
  method SubmitNowait(engine: Engine, req: Request, accepts: nat -> bool)
    returns (r: NowaitResult, tfer: seq<Transfer>)
    requires engine.Valid() && req.swDescIdx == 0
    modifies engine, engine.desc, req
    ensures engine.Valid()
    ensures r == NowaitFate(TransferCount(old(engine.descIdx), |req.sdesc|), accepts)
    ensures r.NoRoom? ==> old(engine.descIdx) + |req.sdesc| > 2 * RING
    ensures r.Queued? ==> old(engine.descIdx) + |req.sdesc| <= 2 * RING && req.swDescIdx == |req.sdesc|
    ensures |tfer| == match r
      case Queued => TransferCount(old(engine.descIdx), |req.sdesc|)
      case Declined => if accepts(0) then 2 else 1
      case NoRoom => 2
    ensures engine.descUsed == old(engine.descUsed) + req.swDescIdx
  {
    tfer := [];
    hide TransferCount, ChainLength, Chain, EndpointAfter, TotalLen, Wrap32;
    ghost var n := TransferCount(engine.descIdx, |req.sdesc|);
    TwoTransfersSufficeIff(engine.descIdx, |req.sdesc|);
    var nents := |req.sdesc|;
    while nents > 0
      invariant engine.Valid() && |tfer| <= 2 && 0 <= nents == |req.sdesc| - req.swDescIdx
      invariant |tfer| + TransferCount(engine.descIdx, nents) == n
      invariant forall k :: 0 <= k < |tfer| ==> accepts(k)
      invariant engine.descUsed == old(engine.descUsed) + req.swDescIdx
      decreases nents
    {
      CountStep(engine.descIdx, nents);
      if |tfer| == 2 { return NoRoom, tfer; }
      var xfer, _ := engine.TransferInit(req);
      nents := nents - xfer.descNum;
      tfer := tfer + [xfer];
      if !accepts(|tfer| - 1) { return Declined, tfer; }
    }
    NoCount(engine.descIdx);
    r := Queued;
  }
}
