/** What every run of the bring-up controller keeps, for any behaviour of the AXI slave. */
module FlowControlProofs {
  import opened FlowControl

  // ---- The channels and the monitor.

  predicate ReadQuiet(d: Rd) { !d.arvalid && !d.st0 && !d.rready && !d.st1 }
  predicate WriteQuiet(w: Wr) { !w.awvalid && !w.st2 && !w.wvalid && !w.st3 && !w.bready && !w.st4 }
  predicate NoWriteSeen(m: Monitor) { m.aw == None && m.w == None && !m.b }
  predicate NoReadSeen(m: Monitor) { m.ar == None && m.r == None }

  function When(b: bool, v: nat): Opt { if b then Some(v) else None }

  /** A read is under way: what is valid is what was asked for, and each channel that has
      shaken hands has a status bit, which the monitor has seen too. */
  predicate Reading(s: Sys)
  {
    var d := s.r.rd;
    && (d.arvalid ==> !d.st0 && d.araddr == s.r.main.addr) && (d.rready ==> !d.st1)
    && (if ReadDone(d) then NoReadSeen(s.mon)
        else s.mon.ar == When(d.st0, s.r.main.addr) && s.mon.r == When(d.st1, d.data))
  }

  predicate Writing(s: Sys)
  {
    var w := s.r.wr;
    && (w.awvalid ==> !w.st2 && w.awaddr == AwSelect(s.r)) && (w.wvalid ==> !w.st3 && w.wdata == WSelect(s.r))
    && (w.bready ==> !w.st4)
    && (if WriteDone(w) then NoWriteSeen(s.mon)
        else s.mon.aw == When(w.st2, AwSelect(s.r)) && s.mon.w == When(w.st3, WSelect(s.r)) && s.mon.b == w.st4)
  }

  predicate Channels(s: Sys)
  {
    match s.r.acc
    case IDLE => ReadQuiet(s.r.rd) && WriteQuiet(s.r.wr) && NoReadSeen(s.mon) && NoWriteSeen(s.mon)
    case READ => WriteQuiet(s.r.wr) && NoWriteSeen(s.mon) && Reading(s)
    case WRITE => ReadQuiet(s.r.rd) && NoReadSeen(s.mon) && Writing(s)
    case DONE =>
      && !s.r.rd.arvalid && !s.r.rd.rready && !s.r.wr.awvalid && !s.r.wr.wvalid && !s.r.wr.bready
      && NoReadSeen(s.mon) && NoWriteSeen(s.mon)
  }

  /** The MDIO machine does not move under a write in progress. */
  predicate WriteUndisturbed(r: Regs) { r.acc == WRITE ==> !(r.mdio == POLL && r.rd.mdioReady) }

  /** The event that the edge completes, if any. */
  function Completes(s: Sys, i: Inputs): seq<Event>
  {
    var d, w := NextRd(s.r, i), NextWr(s.r, i);
    if s.r.acc == READ && ReadDone(d) && !ReadDone(s.r.rd) then [Read(s.r.main.addr, d.data)]
    else if s.r.acc == WRITE && WriteDone(w) && !WriteDone(s.r.wr) then [Write(AwSelect(s.r), WSelect(s.r))]
    else []
  }

  lemma ReadEdge(s: Sys, i: Inputs)
    requires i.resetN && s.r.acc == READ && Channels(s)
    ensures Channels(SysEdge(s, i)) && SysEdge(s, i).mon.log == s.mon.log + Completes(s, i)
  {
  }

  lemma WriteEdge(s: Sys, i: Inputs)
    requires i.resetN && s.r.acc == WRITE && Channels(s) && WriteUndisturbed(s.r)
    ensures Channels(SysEdge(s, i)) && SysEdge(s, i).mon.log == s.mon.log + Completes(s, i)
  {
  }

  lemma RestEdge(s: Sys, i: Inputs)
    requires i.resetN && (s.r.acc == IDLE || s.r.acc == DONE) && Channels(s)
    ensures Channels(SysEdge(s, i)) && SysEdge(s, i).mon.log == s.mon.log + Completes(s, i) == s.mon.log
  {
  }

  lemma ChannelsEdge(s: Sys, i: Inputs)
    requires i.resetN && Channels(s) && WriteUndisturbed(s.r)
    ensures Channels(SysEdge(s, i)) && SysEdge(s, i).mon.log == s.mon.log + Completes(s, i)
  {
    match s.r.acc
    case READ => ReadEdge(s, i);
    case WRITE => WriteEdge(s, i);
    case IDLE => RestEdge(s, i);
    case DONE => RestEdge(s, i);
  }

  // ---- What the main machine's last step has put on the bus so far.

  /** The event of a direct access. */
  function AccessEvent(r: Regs): Event
  {
    if r.main.writeNread then Write(r.main.addr, r.main.wrData) else Read(r.main.addr, r.rd.data)
  }

  predicate AccessOver(r: Regs)
  {
    match r.acc
    case IDLE => !r.main.startAccess
    case WRITE => WriteDone(r.wr)
    case READ => ReadDone(r.rd)
    case DONE => true
  }

  predicate AccessOk(s: Sys, op: seq<Event>)
  {
    var r := s.r;
    && !r.main.driveMdio && !r.main.startMdio && r.mdio == MIDLE
    && (r.main.startAccess ==> r.acc == IDLE) && (!r.main.startAccess ==> !r.rd.mdioReady)
    && (!r.main.startAccess && r.main.writeNread ==> r.rd.data == 0)
    && (r.acc == WRITE ==> r.main.writeNread) && (r.acc == READ ==> !r.main.writeNread)
    && op == if AccessOver(r) then [AccessEvent(r)] else []
  }

  function TxEvent(m: Main): Event { Write(MDIO_TX_DATA, m.wrData) }
  function CtlEvent(m: Main): Event { Write(MDIO_CONTROL, ControlData(m.regAddr, m.mdioOp)) }

  /** Data and control written, then reads of the polled register that were not ready. */
  ghost predicate Polling(m: Main, op: seq<Event>)
  {
    && |op| >= 2 && op[0] == TxEvent(m) && op[1] == CtlEvent(m)
    && forall k :: 2 <= k < |op| ==> op[k].Read? && op[k].addr == m.addr && !ReadyBit(m.addr, op[k].data)
  }

  /** The same, then a read that was ready, whose data is d. */
  ghost predicate Polled(m: Main, op: seq<Event>, d: nat)
  {
    && |op| >= 3 && Polling(m, op[..|op| - 1])
    && op[|op| - 1] == Read(m.addr, d) && ReadyBit(m.addr, d)
  }

  predicate KnownOp(op: nat) { op == OP_ADDR || op == OP_WR || op == OP_RD }

  ghost predicate MdioOk(s: Sys, op: seq<Event>)
  {
    var r, m, d := s.r, s.r.main, s.r.rd;
    && m.driveMdio && !m.startAccess && KnownOp(m.mdioOp)
    && (m.startMdio ==> r.acc == IDLE && r.mdio == MIDLE)
    && match r.mdio
       case SET_DATA =>
         && (r.acc == WRITE || r.acc == DONE) && r.mdioWr == m.wrData && !d.mdioReady
         && op == if r.acc == DONE || WriteDone(r.wr) then [TxEvent(m)] else []
       case INIT =>
         r.acc == IDLE && r.mdioWr == ControlData(m.regAddr, m.mdioOp) && !d.mdioReady && op == [TxEvent(m)]
       case POLL =>
         (match r.acc
          case WRITE =>
            && r.mdioWr == ControlData(m.regAddr, m.mdioOp) && !d.mdioReady
            && op == if WriteDone(r.wr) then [TxEvent(m), CtlEvent(m)] else [TxEvent(m)]
          case READ =>
            && (d.st1 ==> d.mdioReady == ReadyBit(m.addr, d.data)) && (d.mdioReady ==> d.st1)
            && (if d.mdioReady && d.st0 then Polled(m, op, d.data) else Polling(m, op))
            && (ReadDone(d) ==> op[|op| - 1] == Read(m.addr, d.data))
          case IDLE => !d.mdioReady && Polling(m, op)
          case DONE => !d.mdioReady && Polling(m, op))
       case MIDLE =>
         if m.startMdio then op == []
         else
           && d.mdioReady && ReadyBit(m.addr, d.data) && r.acc != WRITE && (r.acc == READ ==> d.st1)
           && (if r.acc == READ && !d.st0 then Polling(m, op) else Polled(m, op, d.data))
  }

  ghost predicate OpOk(s: Sys)
  {
    && s.mark <= |s.mon.log|
    && match s.kind
       case Quiet => MainEnabled(s.r) && !s.r.main.driveMdio && Op(s) == []
       case Access => AccessOk(s, Op(s))
       case Mdio => MdioOk(s, Op(s))
  }

  lemma OpOkUndisturbed(s: Sys)
    requires OpOk(s)
    ensures WriteUndisturbed(s.r)
  {
  }

  /** Between steps of the main machine its registers hold still, start bits aside. */
  lemma MainStalls(r: Regs, i: Inputs)
    requires i.resetN && !MainEnabled(r)
    ensures Edge(r, i).main == r.main.(startAccess := false, startMdio := false)
  {
  }

  lemma OpGrows(s: Sys, i: Inputs)
    requires s.mark <= |s.mon.log| && !MainEnabled(s.r) && SysEdge(s, i).mon.log == s.mon.log + Completes(s, i)
    ensures var t := SysEdge(s, i); t.mark == s.mark && t.kind == s.kind && Op(t) == Op(s) + Completes(s, i)
  {
  }

  lemma AccessEdge(s: Sys, i: Inputs)
    requires i.resetN && s.kind == Access && OpOk(s) && Channels(s) && !MainEnabled(s.r)
    ensures OpOk(SysEdge(s, i))
  {
    OpOkUndisturbed(s);
    ChannelsEdge(s, i);
    OpGrows(s, i);
    MainStalls(s.r, i);
    var t := SysEdge(s, i);
    hide Observe;
    assert AccessOk(t, Op(s) + Completes(s, i));
  }

  // ---- An MDIO operation, phase by phase.

  lemma PollingGrows(m: Main, n: Main, op: seq<Event>, d: nat)
    requires Polling(m, op) && n == m.(startAccess := false, startMdio := false)
    ensures Polling(n, op)
    ensures if ReadyBit(m.addr, d) then Polled(n, op + [Read(m.addr, d)], d) else Polling(n, op + [Read(m.addr, d)])
  {
    assert (op + [Read(m.addr, d)])[..|op|] == op;
  }

  lemma PolledStays(m: Main, n: Main, op: seq<Event>, d: nat)
    requires Polled(m, op, d) && n == m.(startAccess := false, startMdio := false)
    ensures Polled(n, op, d)
  {
  }

  /** What any edge during an MDIO operation does to the history. */
  lemma MdioCommon(s: Sys, i: Inputs)
    requires i.resetN && s.kind == Mdio && OpOk(s) && Channels(s) && !MainEnabled(s.r)
    ensures var t := SysEdge(s, i);
      && t.r == Edge(s.r, i) && t.r.main == s.r.main.(startAccess := false, startMdio := false)
      && t.kind == Mdio && t.mark == s.mark <= |t.mon.log| && Op(t) == Op(s) + Completes(s, i)
  {
    OpOkUndisturbed(s);
    ChannelsEdge(s, i);
    OpGrows(s, i);
    MainStalls(s.r, i);
  }

  lemma MdioStarts(s: Sys, i: Inputs)
    requires i.resetN && s.kind == Mdio && OpOk(s) && Channels(s) && !MainEnabled(s.r)
    requires s.r.mdio == MIDLE && s.r.main.startMdio
    ensures OpOk(SysEdge(s, i))
  {
    MdioCommon(s, i);
    hide SysEdge, Observe;
    assert Completes(s, i) == [];
  }

  lemma MdioSetsData(s: Sys, i: Inputs)
    requires i.resetN && s.kind == Mdio && OpOk(s) && Channels(s) && !MainEnabled(s.r) && s.r.mdio == SET_DATA
    ensures OpOk(SysEdge(s, i))
  {
    MdioCommon(s, i);
    hide SysEdge, Observe;
  }

  lemma MdioInits(s: Sys, i: Inputs)
    requires i.resetN && s.kind == Mdio && OpOk(s) && Channels(s) && !MainEnabled(s.r) && s.r.mdio == INIT
    ensures OpOk(SysEdge(s, i))
  {
    MdioCommon(s, i);
    hide SysEdge, Observe;
    assert Completes(s, i) == [];
  }

  lemma ControlWriteEdge(s: Sys, i: Inputs)
    requires i.resetN && s.r.acc == WRITE && s.r.mdio == POLL && !s.r.rd.mdioReady && s.r.main.driveMdio
    requires s.r.mdioWr == ControlData(s.r.main.regAddr, s.r.main.mdioOp)
    ensures var t := Edge(s.r, i);
      && t.mdio == POLL && t.mdioWr == s.r.mdioWr && !t.rd.mdioReady
      && t.acc == (if WriteDone(s.r.wr) then DONE else WRITE) && (WriteDone(s.r.wr) ==> WriteDone(t.wr))
      && Completes(s, i) == if WriteDone(t.wr) && !WriteDone(s.r.wr) then [CtlEvent(s.r.main)] else []
  {
    hide ControlData;
  }

  lemma MdioWritesControl(s: Sys, i: Inputs)
    requires i.resetN && s.kind == Mdio && OpOk(s) && Channels(s) && !MainEnabled(s.r)
    requires s.r.mdio == POLL && s.r.acc == WRITE
    ensures OpOk(SysEdge(s, i))
  {
    MdioCommon(s, i);
    ControlWriteEdge(s, i);
    var t, m := SysEdge(s, i), s.r.main;
    hide SysEdge, ControlData, ReadyBit, Edge, Completes, Channels, WriteDone, MainEnabled;
    assert TxEvent(t.r.main) == TxEvent(m) && CtlEvent(t.r.main) == CtlEvent(m);
    hide TxEvent, CtlEvent;
    assert [TxEvent(m)] + [CtlEvent(m)] == [TxEvent(m), CtlEvent(m)];
    assert Op(s) + [] == Op(s);
  }

  lemma MdioWaits(s: Sys, i: Inputs)
    requires i.resetN && s.kind == Mdio && OpOk(s) && Channels(s) && !MainEnabled(s.r)
    requires s.r.mdio == POLL && (s.r.acc == IDLE || s.r.acc == DONE)
    ensures OpOk(SysEdge(s, i))
  {
    MdioCommon(s, i);
    hide SysEdge, Observe;
    assert Completes(s, i) == [];
    PollingGrows(s.r.main, Edge(s.r, i).main, Op(s), 0);
  }

  /** An edge of a poll: the ready bit is taken with the data, and the read is logged with its last handshake. */
  lemma PollEdge(s: Sys, i: Inputs)
    requires i.resetN && s.r.acc == READ && s.r.mdio == POLL && s.r.main.driveMdio
    requires var d := s.r.rd; (d.st1 ==> d.mdioReady == ReadyBit(s.r.main.addr, d.data)) && (d.mdioReady ==> d.st1)
    ensures var d, t := s.r.rd, Edge(s.r, i);
      && t.mdio == (if d.mdioReady then MIDLE else POLL) && t.acc == (if ReadDone(d) then DONE else READ)
      && (t.rd.st1 ==> t.rd.mdioReady == ReadyBit(s.r.main.addr, t.rd.data)) && (t.rd.mdioReady ==> t.rd.st1)
      && (d.st1 ==> t.rd.st1 && t.rd.data == d.data && t.rd.mdioReady == d.mdioReady) && (d.st0 ==> t.rd.st0)
      && Completes(s, i) == if ReadDone(t.rd) && !ReadDone(d) then [Read(s.r.main.addr, t.rd.data)] else []
  {
    hide ReadyBit, ControlData;
  }

  lemma PollsReady(s: Sys, i: Inputs)
    requires i.resetN && s.kind == Mdio && OpOk(s) && Channels(s) && !MainEnabled(s.r)
    requires s.r.mdio == POLL && s.r.acc == READ && s.r.rd.mdioReady
    ensures OpOk(SysEdge(s, i))
  {
    hide SysEdge, Observe, Polling, Polled, ReadyBit, Channels, Edge, Completes, ControlData, MainEnabled;
    MdioCommon(s, i);
    PollEdge(s, i);
    var t := Edge(s.r, i);
    assert Op(s) + [] == Op(s);
    if s.r.rd.st0 {
      PolledStays(s.r.main, t.main, Op(s), t.rd.data);
    } else {
      PollingGrows(s.r.main, t.main, Op(s), t.rd.data);
    }
  }

  lemma PollsOn(s: Sys, i: Inputs)
    requires i.resetN && s.kind == Mdio && OpOk(s) && Channels(s) && !MainEnabled(s.r)
    requires s.r.mdio == POLL && s.r.acc == READ && !s.r.rd.mdioReady
    ensures OpOk(SysEdge(s, i))
  {
    hide SysEdge, Observe, Polling, Polled, ReadyBit, Channels, Edge, Completes, ControlData, MainEnabled;
    MdioCommon(s, i);
    PollEdge(s, i);
    var t := Edge(s.r, i);
    assert Op(s) + [] == Op(s);
    PollingGrows(s.r.main, t.main, Op(s), t.rd.data);
  }

  lemma MdioPolls(s: Sys, i: Inputs)
    requires i.resetN && s.kind == Mdio && OpOk(s) && Channels(s) && !MainEnabled(s.r)
    requires s.r.mdio == POLL && s.r.acc == READ
    ensures OpOk(SysEdge(s, i))
  {
    hide OpOk, SysEdge, Channels, MainEnabled;
    if s.r.rd.mdioReady { PollsReady(s, i); } else { PollsOn(s, i); }
  }

  /** The edge of an MDIO operation whose ready bit has been seen: the read, if still open, goes on. */
  lemma FinishEdge(s: Sys, i: Inputs)
    requires i.resetN && s.r.mdio == MIDLE && !s.r.main.startMdio && !s.r.main.startAccess && s.r.rd.mdioReady
    requires s.r.acc != WRITE && (s.r.acc == READ ==> s.r.rd.st1)
    ensures var t, waits := Edge(s.r, i), s.r.acc == READ && !s.r.rd.st0;
      && t.mdio == MIDLE && t.rd.mdioReady && t.rd.data == s.r.rd.data
      && t.acc == (if waits then READ else if s.r.acc == READ then DONE else IDLE)
      && (s.r.acc == READ ==> t.rd.st1)
      && Completes(s, i) == if waits && t.rd.st0 then [Read(s.r.main.addr, s.r.rd.data)] else []
  {
    hide ReadyBit;
  }

  /** The read of a finished operation is still open. */
  lemma FinishWaits(s: Sys, i: Inputs)
    requires i.resetN && s.kind == Mdio && OpOk(s) && Channels(s) && !MainEnabled(s.r)
    requires s.r.mdio == MIDLE && !s.r.main.startMdio && s.r.acc == READ && !s.r.rd.st0
    ensures OpOk(SysEdge(s, i))
  {
    hide SysEdge, Polling, Polled, ReadyBit, ControlData, Edge, Completes, Channels, MainEnabled;
    MdioCommon(s, i);
    FinishEdge(s, i);
    assert Op(s) + [] == Op(s);
    PollingGrows(s.r.main, Edge(s.r, i).main, Op(s), s.r.rd.data);
  }

  lemma FinishDone(s: Sys, i: Inputs)
    requires i.resetN && s.kind == Mdio && OpOk(s) && Channels(s) && !MainEnabled(s.r)
    requires s.r.mdio == MIDLE && !s.r.main.startMdio && !(s.r.acc == READ && !s.r.rd.st0)
    ensures OpOk(SysEdge(s, i))
  {
    hide SysEdge, Polling, Polled, ReadyBit, ControlData, Edge, Completes, Channels, MainEnabled;
    MdioCommon(s, i);
    FinishEdge(s, i);
    assert Op(s) + [] == Op(s);
    PolledStays(s.r.main, Edge(s.r, i).main, Op(s), s.r.rd.data);
  }

  lemma MdioFinishes(s: Sys, i: Inputs)
    requires i.resetN && s.kind == Mdio && OpOk(s) && Channels(s) && !MainEnabled(s.r)
    requires s.r.mdio == MIDLE && !s.r.main.startMdio
    ensures OpOk(SysEdge(s, i))
  {
    hide OpOk, SysEdge, Channels, MainEnabled;
    if s.r.acc == READ && !s.r.rd.st0 { FinishWaits(s, i); } else { FinishDone(s, i); }
  }

  lemma MdioEdge(s: Sys, i: Inputs)
    requires i.resetN && s.kind == Mdio && OpOk(s) && Channels(s) && !MainEnabled(s.r)
    ensures OpOk(SysEdge(s, i))
  {
    hide SysEdge, Channels;
    match s.r.mdio
    case SET_DATA => MdioSetsData(s, i);
    case INIT => MdioInits(s, i);
    case POLL =>
      if s.r.acc == WRITE { MdioWritesControl(s, i); }
      else if s.r.acc == READ { MdioPolls(s, i); }
      else { MdioWaits(s, i); }
    case MIDLE =>
      if s.r.main.startMdio { MdioStarts(s, i); } else { MdioFinishes(s, i); }
  }

  // ---- The order of the bring-up.

  /** Words for the receiver and the transmitter: bits 31 and 28, bit 27 for VLAN, bit 26 or 23 for the preamble. */
  function RxWord(t: Took): nat
  {
    0x9000_0000 + (if t.vlan then 0x0800_0000 else 0) + if t.preamble then 0x0400_0000 else 0
  }
  function TxWord(t: Took): nat
  {
    0x9000_0000 + (if t.vlan then 0x0800_0000 else 0) + if t.preamble then 0x0080_0000 else 0
  }

  /**
    The first three accesses are the writes to 0x500, 0x404 and 0x408, the k-th with the data that the
    switches called for at the k-th step.
   */
  ghost predicate Begins(log: seq<Event>, past: seq<Took>)
  {
    && (|log| > 0 ==> |past| > 0 && log[0] == Write(0x500, 0x45))
    && (|log| > 1 ==> |past| > 1 && log[1] == Write(0x404, RxWord(past[1])))
    && (|log| > 2 ==> |past| > 2 && log[2] == Write(0x408, TxWord(past[2])))
  }

  /** A read of the PCS status through 0x50C that shows the link up and in block lock. */
  predicate InLock(e: Event) { e.Read? && e.addr == 0x50C && e.data % 0x2_0000 == 0x1_1005 }

  /** The PCS control word that selects loopback, or does not. */
  function LoopData(loop: bool): nat { if loop then 0x4000 else 0x2000 }

  /** From entering MDIO_WR to the first step in MDIO_RD_1 the operation is the PCS write chosen on entry. */
  predicate WriteChosen(m: Main, picked: bool)
  {
    m.state == MDIO_WR || (m.state == MDIO_RD_1 && m.loopDone && !m.enableGen) ==>
      m.mdioOp == OP_WR && m.regAddr == DEV_ADDR && m.wrData == LoopData(picked)
  }

  predicate KindFits(state: MainState, kind: Kind)
  {
    match state
    case STARTUP => kind == Quiet
    case CONFIG_DONE => kind == Quiet
    case RESET_MAC_RX => kind == Access
    case RESET_MAC_TX => kind == Access
    case MDIO_ADDR_1 => kind != Quiet
    case UNDEFINED => false
    case _ => kind == Mdio
  }

  /** Where in the log the main machine can be in each state. */
  predicate MarkFits(m: Main, kind: Kind, mark: nat, past: seq<Took>)
  {
    match m.state
    case STARTUP => mark == 0
    case RESET_MAC_RX => mark == 0 && |past| == 1 && m.writeNread && m.addr == 0x500 && m.wrData == 0x45
    case RESET_MAC_TX =>
      mark >= 3 || (mark == 1 && |past| == 2 && m.writeNread && m.addr == 0x404 && m.wrData == RxWord(past[1]))
    case MDIO_ADDR_1 =>
      || mark >= 3
      || (mark == 2 && |past| == 3 && kind == Access && m.writeNread && m.addr == 0x408 && m.wrData == TxWord(past[2]))
    case _ => mark >= 3
  }

  ghost predicate Ordered(s: Sys)
  {
    var m := s.r.main;
    && s.mark <= |s.mon.log| && KnownOp(m.mdioOp) && KindFits(m.state, s.kind) && MarkFits(m, s.kind, s.mark, s.past)
    && Begins(s.mon.log[..s.mark], s.past) && (m.enableGen ==> s.mark >= 3) && (s.kind == Mdio ==> m.regAddr == 3)
    && (m.state == STARTUP ==> s.past == [])
    && (m.state == MDIO_POLL_CHECK || m.state == MDIO_CHECK_DATA ==> m.addr == MDIO_RX_DATA)
    && (m.state == CONFIG_DONE ==> m.blockLock && s.mark > 0 && InLock(s.mon.log[s.mark - 1]))
    && WriteChosen(m, s.picked)
  }

  ghost predicate Inv(s: Sys) { Channels(s) && OpOk(s) && Ordered(s) }

  /** An edge on which the main machine does not step only adds to the log. */
  lemma StalledHistory(s: Sys, i: Inputs)
    requires i.resetN && Inv(s) && !MainEnabled(s.r)
    ensures var t := SysEdge(s, i);
      && t.r.main == s.r.main.(startAccess := false, startMdio := false)
      && t.mark == s.mark && t.kind == s.kind && t.picked == s.picked && t.past == s.past
      && |s.mon.log| <= |t.mon.log| && t.mon.log[..|s.mon.log|] == s.mon.log
  {
    OpOkUndisturbed(s);
    ChannelsEdge(s, i);
    OpGrows(s, i);
    MainStalls(s.r, i);
  }

  lemma OrderedKept(s: Sys, t: Sys)
    requires Ordered(s) && t.r.main == s.r.main.(startAccess := false, startMdio := false)
    requires t.mark == s.mark && t.kind == s.kind && t.picked == s.picked && t.past == s.past
    requires |s.mon.log| <= |t.mon.log| && t.mon.log[..|s.mon.log|] == s.mon.log
    ensures Ordered(t)
  {
    hide Begins, InLock, KnownOp, KindFits;
    assert t.mon.log[..s.mark] == s.mon.log[..s.mark];
    assert s.mark > 0 ==> t.mon.log[s.mark - 1] == s.mon.log[s.mark - 1];
  }

  lemma StalledOrdered(s: Sys, i: Inputs)
    requires i.resetN && Inv(s) && !MainEnabled(s.r)
    ensures Ordered(SysEdge(s, i))
  {
    StalledHistory(s, i);
    hide SysEdge, Channels, OpOk, Ordered;
    OrderedKept(s, SysEdge(s, i));
  }

  // ---- A step of the main machine.

  function Taken(m: Main, ready: bool, d: nat, loop: bool, i: Inputs): Took
  {
    Took(i.enableVlan, i.enablePreamble, loop, ready, d, MainStep(m, ready, d, loop, i))
  }

  /** At a main step the last access or operation is complete, and the log is as long as the next mark. */
  lemma MainStepHistory(s: Sys, i: Inputs)
    requires i.resetN && Inv(s) && MainEnabled(s.r)
    ensures var t := SysEdge(s, i);
      && t.mon.log == s.mon.log && t.mark == |s.mon.log| && Op(t) == [] && t.kind == KindOf(t.r.main)
      && t.r.main == MainStep(s.r.main, s.r.rd.mdioReady, s.r.rd.data, s.r.loopReg, i)
      && t.picked == Picked(s.r.main, t.r.main, s.r.loopReg, s.picked)
        && t.past == s.past + [Taken(s.r.main, s.r.rd.mdioReady, s.r.rd.data, s.r.loopReg, i)]
      && t.r.acc == IDLE && t.r.mdio == MIDLE
    ensures s.kind == Access ==> |s.mon.log| == s.mark + 1 && s.mon.log[s.mark] == AccessEvent(s.r)
    ensures s.kind == Mdio ==> |s.mon.log| >= s.mark + 3 && Polled(s.r.main, Op(s), s.r.rd.data)
    ensures s.kind == Quiet ==> |s.mon.log| == s.mark
    ensures s.r.main.driveMdio <==> s.kind == Mdio
  {
    RestEdge(s, i);
    if s.kind == Access { assert Op(s)[0] == s.mon.log[s.mark]; }
  }

  /** At every main step the log so far begins with the three start-up writes. */
  lemma LogBegins(s: Sys, i: Inputs)
    requires i.resetN && Inv(s) && MainEnabled(s.r)
    ensures Begins(s.mon.log, s.past)
  {
    hide SysEdge, MainStep, Polled, Channels, OpOk, InLock, WriteChosen;
    MainStepHistory(s, i);
    if s.mark > 0 { assert s.mon.log[..s.mark][0] == s.mon.log[0]; }
    if s.mark > 1 { assert s.mon.log[..s.mark][1] == s.mon.log[1]; }
    if s.mark > 2 { assert s.mon.log[..s.mark][2] == s.mon.log[2]; }
  }

  lemma BegunStays(log: seq<Event>, past: seq<Took>, now: Took)
    requires Begins(log, past)
    ensures Begins(log, past + [now])
  {
  }

  /** The register half of Ordered. */
  predicate MainFits(m: Main, kind: Kind, mark: nat, picked: bool, past: seq<Took>)
  {
    && KnownOp(m.mdioOp) && KindFits(m.state, kind) && MarkFits(m, kind, mark, past)
    && (kind == Mdio ==> m.regAddr == 3) && (m.state == STARTUP ==> past == [])
    && (m.enableGen ==> mark >= 3)
    && (m.state == MDIO_POLL_CHECK || m.state == MDIO_CHECK_DATA ==> m.addr == MDIO_RX_DATA)
    && (m.state == CONFIG_DONE ==> m.blockLock)
    && WriteChosen(m, picked)
  }

  predicate Grown(kind: Kind, mark: nat, len: nat)
  {
    match kind case Quiet => len == mark case Access => len == mark + 1 case Mdio => len >= mark + 3
  }

  /** n is what a main step may make of m. */
  predicate Follows(m: Main, n: Main, d: nat, len: nat, loop: bool, picked: bool, past: seq<Took>, now: Took)
  {
    && MainFits(n, KindOf(n), len, Picked(m, n, loop, picked), past + [now]) && (n.driveMdio <==> KindOf(n) == Mdio)
      && !(n.startAccess && n.startMdio)
    && (n.state == CONFIG_DONE ==> m.state == CONFIG_DONE || (m.state == MDIO_CHECK_DATA && d % 0x2_0000 == 0x1_1005))
  }

  predicate BeforeStep(m: Main, kind: Kind, mark: nat, len: nat, picked: bool, past: seq<Took>)
  {
    && MainFits(m, kind, mark, picked, past) && Grown(kind, mark, len) && !m.startAccess && !m.startMdio
    && (m.driveMdio <==> kind == Mdio)
  }

  lemma DirectStepFits(m: Main, kind: Kind, mark: nat, len: nat, ready: bool, d: nat, loop: bool, picked: bool,
                       past: seq<Took>, i: Inputs)
    requires BeforeStep(m, kind, mark, len, picked, past)
    requires m.state in {STARTUP, RESET_MAC_RX, RESET_MAC_TX, CONFIG_DONE}
    ensures Follows(m, MainStep(m, ready, d, loop, i), d, len, loop, picked, past,
                    Taken(m, ready, d, loop, i))
  {
  }

  lemma ResetStepFits(m: Main, kind: Kind, mark: nat, len: nat, ready: bool, d: nat, loop: bool, picked: bool,
                      past: seq<Took>, i: Inputs)
    requires BeforeStep(m, kind, mark, len, picked, past)
    requires m.state in {MDIO_ADDR_1, MDIO_READ_PCS_RESET, MDIO_READ_PCS_RESET_POLL, MDIO_READ_PCS_RESET_READ,
        MDIO_RESET_CHECK, MDIO_ADDR_2}
    ensures Follows(m, MainStep(m, ready, d, loop, i), d, len, loop, picked, past,
                    Taken(m, ready, d, loop, i))
  {
  }

  lemma WriteStepFits(m: Main, kind: Kind, mark: nat, len: nat, ready: bool, d: nat, loop: bool, picked: bool,
                      past: seq<Took>, i: Inputs)
    requires BeforeStep(m, kind, mark, len, picked, past) && m.state in {MDIO_WR, MDIO_RD_1}
    ensures Follows(m, MainStep(m, ready, d, loop, i), d, len, loop, picked, past,
                    Taken(m, ready, d, loop, i))
  {
  }

  lemma StatusStepFits(m: Main, kind: Kind, mark: nat, len: nat, ready: bool, d: nat, loop: bool, picked: bool,
                       past: seq<Took>, i: Inputs)
    requires BeforeStep(m, kind, mark, len, picked, past)
    requires m.state in {MDIO_ADDR, MDIO_RD, MDIO_POLL_CHECK}
    ensures Follows(m, MainStep(m, ready, d, loop, i), d, len, loop, picked, past,
                    Taken(m, ready, d, loop, i))
  {
  }

  lemma CheckStepFits(m: Main, kind: Kind, mark: nat, len: nat, ready: bool, d: nat, loop: bool, picked: bool,
                      past: seq<Took>, i: Inputs)
    requires BeforeStep(m, kind, mark, len, picked, past) && m.state == MDIO_CHECK_DATA
    ensures Follows(m, MainStep(m, ready, d, loop, i), d, len, loop, picked, past,
                    Taken(m, ready, d, loop, i))
  {
  }

  lemma MainStepFits(m: Main, kind: Kind, mark: nat, len: nat, ready: bool, d: nat, loop: bool, picked: bool,
                     past: seq<Took>, i: Inputs)
    requires BeforeStep(m, kind, mark, len, picked, past)
    ensures Follows(m, MainStep(m, ready, d, loop, i), d, len, loop, picked, past,
                    Taken(m, ready, d, loop, i))
  {
    hide MainStep, Follows, MarkFits;
    match m.state
    case STARTUP | RESET_MAC_RX | RESET_MAC_TX | CONFIG_DONE =>
      DirectStepFits(m, kind, mark, len, ready, d, loop, picked, past, i);
    case MDIO_WR | MDIO_RD_1 => WriteStepFits(m, kind, mark, len, ready, d, loop, picked, past, i);
    case MDIO_ADDR | MDIO_RD | MDIO_POLL_CHECK => StatusStepFits(m, kind, mark, len, ready, d, loop, picked, past, i);
    case MDIO_CHECK_DATA => CheckStepFits(m, kind, mark, len, ready, d, loop, picked, past, i);
    case UNDEFINED =>
    case _ => ResetStepFits(m, kind, mark, len, ready, d, loop, picked, past, i);
  }

  /** What MainStepFits needs of the state. */
  lemma StepReady(s: Sys, i: Inputs)
    requires i.resetN && Inv(s) && MainEnabled(s.r)
    ensures BeforeStep(s.r.main, s.kind, s.mark, |s.mon.log|, s.picked, s.past)
  {
    MainStepHistory(s, i);
    hide SysEdge, MainStep, Channels, OpOk, Begins, MarkFits, KindFits, KnownOp, Polled, InLock, AccessEvent;
  }

  lemma LockRead(d: nat)
    requires d % 0x2_0000 == 0x1_1005
    ensures InLock(Read(MDIO_RX_DATA, d))
  {
  }

  /** Where block lock is or is about to be claimed, the last access shows it. */
  lemma LockSeen(s: Sys, i: Inputs)
    requires i.resetN && Inv(s) && MainEnabled(s.r)
    ensures s.r.main.state == MDIO_CHECK_DATA && s.r.rd.data % 0x2_0000 == 0x1_1005 ==>
      s.mon.log != [] && InLock(s.mon.log[|s.mon.log| - 1])
    ensures s.r.main.state == CONFIG_DONE ==> s.mon.log != [] && InLock(s.mon.log[|s.mon.log| - 1])
  {
    hide SysEdge, MainStep, Channels, OpOk, Begins, MarkFits, Polling, ReadyBit, InLock;
    MainStepHistory(s, i);
    if s.r.main.state == MDIO_CHECK_DATA && s.r.rd.data % 0x2_0000 == 0x1_1005 {
      var last := s.mon.log[|s.mon.log| - 1];
      assert last == Op(s)[|Op(s)| - 1] == Read(MDIO_RX_DATA, s.r.rd.data);
      LockRead(s.r.rd.data);
    }
  }

  lemma MainOrdered(s: Sys, i: Inputs)
    requires i.resetN && Inv(s) && MainEnabled(s.r)
    ensures Ordered(SysEdge(s, i))
  {
    hide SysEdge, Inv, Begins, MainStep, InLock, MainEnabled, Polled, AccessEvent;
    MainStepHistory(s, i);
    LogBegins(s, i);
    StepReady(s, i);
    LockSeen(s, i);
    var t := SysEdge(s, i);
    assert t.mon.log[..t.mark] == s.mon.log;
    BegunStays(s.mon.log, s.past, t.past[|s.past|]);
    MainStepFits(s.r.main, s.kind, s.mark, |s.mon.log|, s.r.rd.mdioReady, s.r.rd.data, s.r.loopReg, s.picked, s.past,
        i);
  }

  lemma FreshOpOk(t: Sys)
    requires t.mark <= |t.mon.log| && Op(t) == [] && t.kind == KindOf(t.r.main)
    requires t.r.acc == IDLE && t.r.mdio == MIDLE && KnownOp(t.r.main.mdioOp)
    requires (t.r.main.driveMdio <==> t.kind == Mdio) && !(t.r.main.startAccess && t.r.main.startMdio)
    ensures OpOk(t)
  {
  }

  lemma MainOpOk(s: Sys, i: Inputs)
    requires i.resetN && Inv(s) && MainEnabled(s.r)
    ensures OpOk(SysEdge(s, i))
  {
    MainStepHistory(s, i);
    StepReady(s, i);
    MainStepFits(s.r.main, s.kind, s.mark, |s.mon.log|, s.r.rd.mdioReady, s.r.rd.data, s.r.loopReg, s.picked, s.past,
        i);
    hide SysEdge, Inv, MainStep, MarkFits, KindFits, OpOk, BeforeStep, KnownOp;
    FreshOpOk(SysEdge(s, i));
  }

  /** Every edge outside reset keeps the invariant, whatever the slave does. */
  lemma EdgeKeeps(s: Sys, i: Inputs)
    requires i.resetN && Inv(s)
    ensures Inv(SysEdge(s, i))
  {
    OpOkUndisturbed(s);
    ChannelsEdge(s, i);
    if MainEnabled(s.r) {
      MainOpOk(s, i);
      MainOrdered(s, i);
    } else {
      StalledOrdered(s, i);
      if s.kind == Access { AccessEdge(s, i); }
      if s.kind == Mdio { MdioEdge(s, i); }
    }
    hide SysEdge, Channels, OpOk, Ordered;
  }

  // ---- Reset, and every run after it.

  /** The registers after these edges. */
  function Edges(r: Regs, ins: seq<Inputs>): Regs
  {
    if ins == [] then r else Edge(Edges(r, ins[..|ins| - 1]), ins[|ins| - 1])
  }

  /** Two edges in reset bring any power-up state to a good one, before the first edge out of it. */
  lemma {:induction false} ResetEstablishes(power: Regs, resets: seq<Inputs>)
    requires |resets| >= 2 && forall k :: 0 <= k < |resets| ==> !resets[k].resetN
    ensures Inv(Sys(Edges(power, resets), NO_MONITOR, 0, Quiet, false, []))
  {
    var n := |resets| - 1;
    var before := Edges(power, resets[..n - 1]);
    var mid := Edge(before, resets[n - 1]);
    assert resets[..n][..n - 1] == resets[..n - 1];
    assert Edges(power, resets) == Edge(mid, resets[n]);
    assert mid.acc == IDLE;
    var s := Sys(Edge(mid, resets[n]), NO_MONITOR, 0, Quiet, false, []);
    assert s.mon.log[..0] == [] && Op(s) == [];
  }

  /**
    One edge is not enough: the channel processes have no reset of their own. After a single reset edge
    an address or write data is left valid exactly if it was still to be accepted, and all of them fall
    on the next edge even if the slave has not taken them.
   */
  lemma OneResetEdge(s: Sys, resetEdge: Inputs, next: Inputs)
    requires Inv(s) && !resetEdge.resetN
    ensures var r1 := Edge(s.r, resetEdge); var r2 := Edge(r1, next);
      && (r1.rd.arvalid <==> s.r.acc == READ && !s.r.rd.st0 && !(s.r.rd.arvalid && resetEdge.arready))
      && (r1.wr.awvalid <==> s.r.acc == WRITE && !s.r.wr.st2 && !(s.r.wr.awvalid && resetEdge.awready))
      && (r1.wr.wvalid <==> s.r.acc == WRITE && !s.r.wr.st3 && !(s.r.wr.wvalid && resetEdge.wready))
      && !r2.rd.arvalid && !r2.wr.awvalid && !r2.wr.wvalid
  {
    hide OpOk, Ordered, MainStep;
  }

  /** A slave that takes nothing, and the reset line. */
  function Deaf(resetN: bool): Inputs
  {
    Inputs(resetN, false, false, false, false, false, false, false, false, 0)
  }

  /** A bring-up that starts: reset has been seen, whatever the channel processes hold. */
  predicate JustReset(r: Regs) { r.main == MAIN_RESET && r.acc == IDLE && r.mdio == MIDLE }

  /** After a reset, three edges out of it and one in it, a write address is valid; then it falls, never taken. */
  lemma ResetDropsValid(r: Regs)
    requires JustReset(r)
    ensures var three := Edge(Edge(Edge(r, Deaf(true)), Deaf(true)), Deaf(true));
      var reset := Edge(three, Deaf(false));
      && three.wr.awvalid && reset.wr.awvalid && reset.wr.awaddr == three.wr.awaddr == CONFIG_MANAGEMENT_ADDR
      && !Edge(reset, Deaf(true)).wr.awvalid
  {
    var one := Edge(r, Deaf(true));
    assert one.acc == IDLE && one.mdio == MIDLE && !one.wr.awvalid && !one.wr.st2;
    var two := Edge(one, Deaf(true));
    assert two.acc == WRITE && two.mdio == MIDLE && !two.wr.awvalid && !two.wr.st2 && !two.main.driveMdio;
  }

  /** The system after the first edge out of reset, observed from there on. */
  function AfterFirst(r: Regs, first: Inputs): Sys
  {
    Sys(Edge(r, first), NO_MONITOR, 0, Access, false, [TookAt(r, first)])
  }

  /** One edge in reset and one out of it are enough for all that follows. */
  lemma FirstEdge(r: Regs, first: Inputs)
    requires JustReset(r) && first.resetN
    ensures Inv(AfterFirst(r, first))
  {
    var s := AfterFirst(r, first);
    assert s.mon.log[..0] == [] && Op(s) == [];
  }

  /** The system after these edges outside reset. */
  function Run(s: Sys, ins: seq<Inputs>): Sys
  {
    if ins == [] then s else SysEdge(Run(s, ins[..|ins| - 1]), ins[|ins| - 1])
  }

  /** In every run after a reset, of one edge or more, the invariant holds from the first edge out of it on. */
  lemma {:induction false} EveryRun(power: Regs, resets: seq<Inputs>, first: Inputs, ins: seq<Inputs>)
    requires resets != [] && forall k :: 0 <= k < |resets| ==> !resets[k].resetN
    requires first.resetN && forall k :: 0 <= k < |ins| ==> ins[k].resetN
    ensures Inv(Run(AfterFirst(Edges(power, resets), first), ins))
  {
    hide Inv, SysEdge;
    if ins == [] {
      FirstEdge(Edges(power, resets), first);
    } else {
      var n := |ins| - 1;
      EveryRun(power, resets, first, ins[..n]);
      EdgeKeeps(Run(AfterFirst(Edges(power, resets), first), ins[..n]), ins[n]);
    }
  }

  // ---- What the invariant says, at any point of any run.

  /**
    The AXI handshake rule: a VALID stays high with its address or data until READY; a read
    address is never valid together with a write address or write data.
   */
  lemma HandshakeRule(s: Sys, i: Inputs)
    requires Inv(s) && i.resetN
    ensures var r, t := s.r, Edge(s.r, i);
      && (r.rd.arvalid && !i.arready ==> t.rd.arvalid && t.rd.araddr == r.rd.araddr)
      && (r.wr.awvalid && !i.awready ==> t.wr.awvalid && t.wr.awaddr == r.wr.awaddr)
      && (r.wr.wvalid && !i.wready ==> t.wr.wvalid && t.wr.wdata == r.wr.wdata)
      && !(r.rd.arvalid && (r.wr.awvalid || r.wr.wvalid))
  {
  }

  /** The word that starts an operation on device 3: start bit, operation, device, and nothing else. */
  predicate Commands(w: nat, op: nat)
  {
    && w / 0x800 % 2 == 1 && w / 0x4000 % 4 == op && w / 0x1_0000 % 32 == 3
    && w == 0x800 + 0x4000 * (w / 0x4000 % 4) + 0x1_0000 * (w / 0x1_0000 % 32)
  }

  lemma ControlCommands(op: nat)
    requires KnownOp(op)
    ensures (op == 0 || op == 1 || op == 3) && Commands(ControlData(3, op), op)
    ensures ControlData(3, op) == if op == 0 then 0x3_0800 else if op == 1 then 0x3_4800 else 0x3_C800
  {
  }

  /** The polled register says it is ready: bit 16 of 0x50C, bit 7 of any other. */
  predicate Ready(addr: nat, d: nat) { if addr == 0x50C then d / 0x1_0000 % 2 == 1 else d / 0x80 % 2 == 1 }

  /**
    An MDIO operation on the bus: exactly one write of the data to 0x508, one write to 0x504 of the word that
    starts the operation on device 3, and reads of the polled register of which the last and only the last
    was ready.
   */
  ghost predicate IsOperation(op: seq<Event>, opcode: nat, data: nat, polled: nat)
  {
    && |op| >= 3 && op[0] == Write(0x508, data)
    && op[1].Write? && op[1].addr == 0x504 && Commands(op[1].data, opcode)
    && forall k :: 2 <= k < |op| ==>
         op[k].Read? && op[k].addr == polled && (Ready(polled, op[k].data) <==> k == |op| - 1)
  }

  lemma ReadyIs(addr: nat, d: nat)
    ensures ReadyBit(addr, d) == Ready(addr, d)
  {
  }

  lemma PolledIs(m: Main, op: seq<Event>, d: nat)
    requires Polled(m, op, d) && KnownOp(m.mdioOp) && m.regAddr == 3
    ensures IsOperation(op, m.mdioOp, m.wrData, m.addr)
  {
    hide ControlData, Commands, ReadyBit, Ready;
    ControlCommands(m.mdioOp);
    var front := op[..|op| - 1];
    forall k | 2 <= k < |op|
      ensures op[k].Read? && op[k].addr == m.addr && (Ready(m.addr, op[k].data) <==> k == |op| - 1)
    {
      if k < |op| - 1 { assert op[k] == front[k]; }
      ReadyIs(m.addr, op[k].data);
    }
    assert op[0] == front[0] && op[1] == front[1];
  }

  lemma OperationOver(s: Sys)
    requires Inv(s) && MainEnabled(s.r) && s.kind == Mdio
    ensures s.mark <= |s.mon.log| && Polled(s.r.main, Op(s), s.r.rd.data) && KnownOp(s.r.main.mdioOp)
    ensures s.r.main.regAddr == 3
  {
    hide Polled, Polling, Channels, ReadyBit, Op, Begins;
  }

  /** When the main machine steps again after starting an MDIO operation, this is what the bus has carried since. */
  lemma MdioOperation(s: Sys)
    requires Inv(s) && MainEnabled(s.r) && s.kind == Mdio
    ensures var m := s.r.main; (m.mdioOp == 0 || m.mdioOp == 1 || m.mdioOp == 3) && m.regAddr == 3
    ensures IsOperation(Op(s), s.r.main.mdioOp, s.r.main.wrData, s.r.main.addr)
    ensures Op(s)[|Op(s)| - 1] == Read(s.r.main.addr, s.r.rd.data)
  {
    hide Inv, MainEnabled, Polling, IsOperation, ControlData, Commands, ReadyBit;
    OperationOver(s);
    PolledIs(s.r.main, Op(s), s.r.rd.data);
  }


  lemma EnableStep(m: Main, ready: bool, d: nat, loop: bool, i: Inputs)
    requires !m.enableGen && MainStep(m, ready, d, loop, i).enableGen
    ensures (m.state == CONFIG_DONE && !loop) || (m.state == MDIO_RD_1 && m.loopDone && loop)
  {
  }

  /**
    enable_gen rises only with the three start-up writes done, and then either in CONFIG_DONE, with
    block_lock set and a status read showing lock as the last access, or in MDIO_RD_1 in loopback mode
    right after an MDIO write of the PCS control register. That write selected loopback if and only if
    loopback was already selected when MDIO_WR was entered.
   */
  lemma EnableRises(s: Sys, i: Inputs)
    requires Inv(s) && i.resetN && !s.r.main.enableGen && Edge(s.r, i).main.enableGen
    ensures |s.mon.log| >= 3 && Begins(s.mon.log, s.past)
    ensures
      || (s.r.main.state == CONFIG_DONE && !s.r.loopReg && s.r.main.blockLock && InLock(s.mon.log[|s.mon.log| - 1]))
      || (&& s.r.main.state == MDIO_RD_1 && s.r.loopReg && s.kind == Mdio && |Op(s)| >= 3
          && IsOperation(Op(s), 1, if s.picked then 0x4000 else 0x2000, s.r.main.addr))
  {
    assert MainEnabled(s.r);
    EnableStep(s.r.main, s.r.rd.mdioReady, s.r.rd.data, s.r.loopReg, i);
    hide MainStep;
    LogBegins(s, i);
    StepReady(s, i);
    LockSeen(s, i);
    if s.r.main.state == MDIO_RD_1 { MdioOperation(s); }
    hide Begins, InLock, Channels, OpOk, BeforeStep;
  }
}
