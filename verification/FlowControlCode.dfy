/** The always blocks of ethernet_flow_cntrl.v as statements, and what a clock edge means for the bus. */
module FlowControlCode {
  import opened FlowControl
  import opened FlowControlProofs

  // ---- The blocks. Each starts from its own registers and assigns to them, the last assignment winning; what
  // it reads are the values r from before the edge, as non-blocking assignment has it.

  /** The two case statements over config_mode. */
  method ReceiverWord(i: Inputs) returns (data: nat)
    ensures data == ReceiverData(i)
  {
    match (i.enableVlan, i.enablePreamble)
    case (false, false) => data := 0x9000_0000;
    case (false, true) => data := 0x9400_0000;
    case (true, false) => data := 0x9800_0000;
    case (true, true) => data := 0x9C00_0000;
  }

  method TransmitterWord(i: Inputs) returns (data: nat)
    ensures data == TransmitterData(i)
  {
    match (i.enableVlan, i.enablePreamble)
    case (false, false) => data := 0x9000_0000;
    case (false, true) => data := 0x9080_0000;
    case (true, false) => data := 0x9800_0000;
    case (true, true) => data := 0x9880_0000;
  }

  /** The start-up states of the management process. */
  method StartUpCase(r: Regs, i: Inputs) returns (n: Main)
    requires r.main.state in {STARTUP, RESET_MAC_RX, RESET_MAC_TX}
    ensures n == MainStep(r.main, r.rd.mdioReady, r.rd.data, r.loopReg, i)
  {
    hide ReceiverData, TransmitterData;
    n := r.main;
    n := n.(startAccess := true, writeNread := true);
    match r.main.state {
      case STARTUP =>
        n := n.(addr := CONFIG_MANAGEMENT_ADDR);
        n := n.(wrData := 0x45);
        n := n.(state := RESET_MAC_RX);
      case RESET_MAC_RX =>
        n := n.(addr := RECEIVER_ADDR);
        var data := ReceiverWord(i);
        n := n.(wrData := data);
        n := n.(state := RESET_MAC_TX);
      case RESET_MAC_TX =>
        n := n.(addr := TRANSMITTER_ADDR);
        var data := TransmitterWord(i);
        n := n.(wrData := data);
        n := n.(state := MDIO_ADDR_1);
    }
  }

  /** The states that reset the PCS for loopback. */
  method PcsResetCase(r: Regs, i: Inputs) returns (n: Main)
    requires r.main.state in {MDIO_ADDR_1, MDIO_READ_PCS_RESET, MDIO_READ_PCS_RESET_POLL, MDIO_READ_PCS_RESET_READ,
                            MDIO_RESET_CHECK, MDIO_ADDR_2}
    ensures n == MainStep(r.main, r.rd.mdioReady, r.rd.data, r.loopReg, i)
  {
    n := r.main;
    n := n.(startMdio := true, driveMdio := true);
    match r.main.state {
      case MDIO_ADDR_1 =>
        n := n.(writeNread := true, addr := MDIO_CONTROL, regAddr := DEV_ADDR);
        if r.rd.mdioReady {
          n := n.(mdioOp := OP_WR);
          if r.loopReg { n := n.(wrData := 0x8000, state := MDIO_READ_PCS_RESET); }
          else { n := n.(wrData := 0x2000, state := MDIO_WR); }
        }
      case MDIO_READ_PCS_RESET =>
        n := n.(regAddr := DEV_ADDR);
        if r.rd.mdioReady { n := n.(mdioOp := OP_RD, state := MDIO_READ_PCS_RESET_POLL); }
      case MDIO_READ_PCS_RESET_POLL =>
        n := n.(writeNread := false, mdioOp := OP_RD, regAddr := DEV_ADDR);
        if r.rd.mdioReady { n := n.(state := MDIO_READ_PCS_RESET_READ); }
      case MDIO_READ_PCS_RESET_READ =>
        n := n.(mdioOp := OP_RD, regAddr := DEV_ADDR);
        if r.rd.mdioReady { n := n.(addr := MDIO_RX_DATA, state := MDIO_RESET_CHECK); }
      case MDIO_RESET_CHECK =>
        if r.rd.mdioReady {
          if r.rd.data % 0x1_0000 == 0x2040 { n := n.(state := MDIO_ADDR_2); }
        }
      case MDIO_ADDR_2 =>
        n := n.(writeNread := true, addr := MDIO_CONTROL, regAddr := DEV_ADDR);
        if r.rd.mdioReady {
          n := n.(mdioOp := OP_WR, state := MDIO_WR);
          if r.loopReg { n := n.(wrData := 0x4000); } else { n := n.(wrData := 0x2000); }
        }
    }
  }

  /** Writing the PCS control register. */
  method PcsWriteCase(r: Regs, i: Inputs) returns (n: Main)
    requires r.main.state == MDIO_WR
    ensures n == MainStep(r.main, r.rd.mdioReady, r.rd.data, r.loopReg, i)
  {
    n := r.main;
    n := n.(startMdio := true, driveMdio := true, writeNread := true, mdioOp := OP_WR, regAddr := DEV_ADDR);
    if r.rd.mdioReady {
      if r.loopReg { n := n.(loopDone := true); } else { n := n.(defaultDone := true); }
      n := n.(state := MDIO_RD_1);
    }
  }

  /** Reading it back, or enabling the generator in loopback. */
  method PcsReadCase(r: Regs, i: Inputs) returns (n: Main)
    requires r.main.state == MDIO_RD_1
    ensures n == MainStep(r.main, r.rd.mdioReady, r.rd.data, r.loopReg, i)
  {
    n := r.main;
    n := n.(startMdio := true, driveMdio := true, writeNread := true, mdioOp := OP_RD, regAddr := DEV_ADDR);
    n := n.(blockLock := false);
    if r.main.loopDone && r.loopReg {
      n := n.(enableGen := true);
    } else {
      n := n.(loopDone := false);
      if r.rd.mdioReady {
        if r.main.defaultDone { n := n.(state := MDIO_ADDR, wrData := 0x20); }
        else { n := n.(state := MDIO_ADDR_1, wrData := 0); }
      }
    }
  }

  /** Polling the PCS status. */
  method StatusCase(r: Regs, i: Inputs) returns (n: Main)
    requires r.main.state in {MDIO_ADDR, MDIO_RD, MDIO_POLL_CHECK}
    ensures n == MainStep(r.main, r.rd.mdioReady, r.rd.data, r.loopReg, i)
  {
    n := r.main;
    n := n.(startMdio := true, driveMdio := true);
    match r.main.state {
      case MDIO_ADDR =>
        n := n.(writeNread := false, mdioOp := OP_ADDR);
        n := n.(addr := MDIO_CONTROL, regAddr := DEV_ADDR, wrData := 0x20);
        if r.rd.mdioReady { n := n.(state := MDIO_RD); }
      case MDIO_RD =>
        n := n.(writeNread := false, mdioOp := OP_RD, regAddr := DEV_ADDR);
        if r.rd.mdioReady { n := n.(state := MDIO_POLL_CHECK, addr := MDIO_RX_DATA); }
      case MDIO_POLL_CHECK =>
        if r.rd.mdioReady { n := n.(state := MDIO_CHECK_DATA); }
    }
  }

  /** Checking it until the link is up, and the end of the bring-up. */
  method CheckCase(r: Regs, i: Inputs) returns (n: Main)
    requires r.main.state in {MDIO_CHECK_DATA, CONFIG_DONE, UNDEFINED}
    ensures n == MainStep(r.main, r.rd.mdioReady, r.rd.data, r.loopReg, i)
  {
    n := r.main;
    match r.main.state {
      case MDIO_CHECK_DATA =>
        n := n.(startMdio := true, driveMdio := true);
        if r.rd.mdioReady {
          if r.rd.data % 0x2_0000 == 0x1_1005 {
            n := n.(startAccess := false, startMdio := false, driveMdio := false, mdioOp := 0, regAddr := 0);
            n := n.(writeNread := false, addr := 0, state := CONFIG_DONE, blockLock := true);
          } else {
            n := n.(state := MDIO_ADDR);
          }
        }
      case CONFIG_DONE =>
        if r.loopReg { n := n.(startAccess := true, state := RESET_MAC_TX, defaultDone := false); }
        else { n := n.(enableGen := true); }
      case UNDEFINED =>
        n := n.(state := STARTUP);
    }
  }

  /** The management process. */
  method Management(r: Regs, i: Inputs) returns (n: Main)
    ensures n == NextMain(r, i)
  {
    hide MainStep;
    if !i.resetN {
      n := MAIN_RESET;
    } else if r.acc == IDLE && r.mdio == MIDLE && !r.main.startAccess && !r.main.startMdio {
      match r.main.state
      case STARTUP | RESET_MAC_RX | RESET_MAC_TX => n := StartUpCase(r, i);
      case MDIO_WR => n := PcsWriteCase(r, i);
      case MDIO_RD_1 => n := PcsReadCase(r, i);
      case MDIO_ADDR | MDIO_RD | MDIO_POLL_CHECK => n := StatusCase(r, i);
      case MDIO_CHECK_DATA | CONFIG_DONE | UNDEFINED => n := CheckCase(r, i);
      case _ => n := PcsResetCase(r, i);
    } else {
      n := r.main.(startAccess := false, startMdio := false);
    }
  }

  /** The MDIO access machine. */
  method MdioAccess(r: Regs, i: Inputs)
    returns (mdio: MdioState, mdioWr: nat)
    ensures mdio == NextMdio(r, i) && mdioWr == NextMdioWr(r, i)
  {
    mdio, mdioWr := r.mdio, r.mdioWr;
    if !i.resetN {
      mdio := MIDLE;
    } else if r.acc == IDLE || r.acc == DONE {
      match r.mdio
      case MIDLE =>
        if r.main.startMdio {
          if r.main.mdioOp == OP_ADDR || r.main.mdioOp == OP_WR || r.main.mdioOp == OP_RD {
            mdio := SET_DATA;
            mdioWr := r.main.wrData;
          } else {
            mdio := INIT;
            mdioWr := ControlData(r.main.regAddr, r.main.mdioOp);
          }
        }
      case SET_DATA =>
        mdio := INIT;
        mdioWr := ControlData(r.main.regAddr, r.main.mdioOp);
      case INIT =>
        mdio := POLL;
      case POLL =>
        if r.rd.mdioReady { mdio := MIDLE; }
    } else if r.mdio == POLL && r.rd.mdioReady {
      mdio := MIDLE;
    }
  }

  /** The AXI access machine. */
  method AxiAccess(r: Regs, i: Inputs)
    returns (acc: AccState)
    ensures acc == NextAcc(r, i)
  {
    acc := r.acc;
    if !i.resetN {
      acc := IDLE;
    } else {
      match r.acc
      case IDLE =>
        if r.main.startAccess || r.main.startMdio || r.mdio != MIDLE {
          if r.mdio == POLL {
            acc := READ;
          } else if r.main.startMdio || r.mdio == SET_DATA || r.mdio == INIT ||
                    (r.main.startAccess && r.main.writeNread) {
            acc := WRITE;
          } else {
            acc := READ;
          }
        }
      case WRITE =>
        if r.wr.st2 && r.wr.st3 && r.wr.st4 { acc := DONE; }
      case READ =>
        if r.rd.st0 && r.rd.st1 { acc := DONE; }
      case DONE =>
        acc := IDLE;
    }
  }

  method ReadAddress(r: Regs, i: Inputs)
    returns (araddr: nat, arvalid: bool, st0: bool)
    ensures var next := NextRd(r, i); araddr == next.araddr && arvalid == next.arvalid && st0 == next.st0
  {
    araddr, arvalid, st0 := r.rd.araddr, r.rd.arvalid, r.rd.st0;
    if r.acc == READ {
      if !r.rd.st0 {
        araddr := r.main.addr;
        arvalid := true;
        if i.arready && r.rd.arvalid {
          st0 := true;
          araddr := 0;
          arvalid := false;
        }
      }
    } else {
      st0 := false;
      araddr := 0;
      arvalid := false;
    }
  }

  method ReadData(r: Regs, i: Inputs)
    returns (rready: bool, st1: bool, rdData: nat, mdioReady: bool)
    ensures var next := NextRd(r, i);
      rready == next.rready && st1 == next.st1 && rdData == next.data && mdioReady == next.mdioReady
  {
    rready, st1, rdData, mdioReady := r.rd.rready, r.rd.st1, r.rd.data, r.rd.mdioReady;
    if r.acc == READ {
      if !r.rd.st1 {
        rready := true;
        if i.rvalid && r.rd.rready {
          st1 := true;
          rready := false;
          rdData := i.rdata;
          if r.main.addr == MDIO_RX_DATA {
            if r.main.driveMdio && Bit(i.rdata, 0x1_0000) { mdioReady := true; }
          } else {
            if r.main.driveMdio && Bit(i.rdata, 0x80) { mdioReady := true; }
          }
        }
      }
    } else {
      rready := false;
      st1 := false;
      if r.acc == IDLE && (r.main.startAccess || r.main.startMdio) {
        mdioReady := false;
        rdData := 0;
      }
    }
  }

  method WriteAddress(r: Regs, i: Inputs)
    returns (awaddr: nat, awvalid: bool, st2: bool)
    ensures var next := NextWr(r, i); awaddr == next.awaddr && awvalid == next.awvalid && st2 == next.st2
  {
    awaddr, awvalid, st2 := r.wr.awaddr, r.wr.awvalid, r.wr.st2;
    if r.acc == WRITE {
      if !r.wr.st2 {
        if r.main.driveMdio {
          if r.mdio == SET_DATA { awaddr := MDIO_TX_DATA; } else { awaddr := MDIO_CONTROL; }
        } else {
          awaddr := r.main.addr;
        }
        awvalid := true;
        if i.awready && r.wr.awvalid {
          st2 := true;
          awaddr := 0;
          awvalid := false;
        }
      }
    } else {
      awaddr := 0;
      awvalid := false;
      st2 := false;
    }
  }

  method WriteData(r: Regs, i: Inputs)
    returns (wdata: nat, wvalid: bool, st3: bool)
    ensures var next := NextWr(r, i); wdata == next.wdata && wvalid == next.wvalid && st3 == next.st3
  {
    wdata, wvalid, st3 := r.wr.wdata, r.wr.wvalid, r.wr.st3;
    if r.acc == WRITE {
      if !r.wr.st3 {
        if r.main.driveMdio { wdata := r.mdioWr; } else { wdata := r.main.wrData; }
        wvalid := true;
        if i.wready && r.wr.wvalid {
          st3 := true;
          wdata := 0;
          wvalid := false;
        }
      }
    } else {
      wdata := 0;
      wvalid := false;
      st3 := false;
    }
  }

  method WriteResponse(r: Regs, i: Inputs)
    returns (bready: bool, st4: bool)
    ensures var next := NextWr(r, i); bready == next.bready && st4 == next.st4
  {
    bready, st4 := r.wr.bready, r.wr.st4;
    if r.acc == WRITE {
      if !r.wr.st4 {
        bready := true;
        if i.bvalid && r.wr.bready {
          st4 := true;
          bready := false;
        }
      }
    } else {
      bready := false;
      st4 := false;
    }
  }

  method ReadChannels(r: Regs, i: Inputs) returns (d: Rd)
    ensures d == NextRd(r, i)
  {
    hide NextRd;
    var araddr, arvalid, st0 := ReadAddress(r, i);
    var rready, st1, rdData, mdioReady := ReadData(r, i);
    d := Rd(araddr, arvalid, st0, rready, st1, rdData, mdioReady);
  }

  method WriteChannels(r: Regs, i: Inputs) returns (w: Wr)
    ensures w == NextWr(r, i)
  {
    hide NextWr;
    var awaddr, awvalid, st2 := WriteAddress(r, i);
    var wdata, wvalid, st3 := WriteData(r, i);
    var bready, st4 := WriteResponse(r, i);
    w := Wr(awaddr, awvalid, st2, wdata, wvalid, st3, bready, st4);
  }

  lemma HistoryEdge(s: Sys, i: Inputs)
    ensures SysEdge(s, i).r == Edge(s.r, i)
  {
  }

  lemma ResetEdge(r: Regs, i: Inputs)
    requires !i.resetN
    ensures JustReset(Edge(r, i))
  {
  }

  /** The registers of the controller. `hist` is the history that the invariant speaks of. */
  class Controller {
    var main: Main
    var loopReg: bool
    var mdio: MdioState
    var mdioWr: nat
    var acc: AccState
    var rd: Rd
    var wr: Wr
    ghost var hist: Sys

    ghost function View(): Regs
      reads this
    {
      Regs(main, loopReg, mdio, mdioWr, acc, rd, wr)
    }

    ghost predicate Valid()
      reads this
    {
      hist.r == View() && Inv(hist)
    }

    /** All blocks read the registers, then all registers change together. */
    method Blocks(i: Inputs)
      modifies this
      ensures View() == Edge(old(View()), i) && hist == old(hist)
    {
      var r := Regs(main, loopReg, mdio, mdioWr, acc, rd, wr);
      main := Management(r, i);
      loopReg := i.pcsLoopback;
      mdio, mdioWr := MdioAccess(r, i);
      acc := AxiAccess(r, i);
      rd := ReadChannels(r, i);
      wr := WriteChannels(r, i);
    }

    /**
      One clock edge, seen from the bus. Outside reset a VALID that was not taken stays, with its address or
      data; a read and a write never overlap; and the invariant of the bring-up is kept. The invariant
      holds from the first edge out of a reset on.
     */
    method ClockEdge(i: Inputs)
      modifies this
      ensures View() == Edge(old(View()), i)
      ensures !i.resetN ==> JustReset(View())
      ensures i.resetN && old(JustReset(View())) ==> Valid()
      ensures i.resetN && old(Valid()) ==>
        && Valid() && hist == SysEdge(old(hist), i)
        && (old(rd.arvalid) && !i.arready ==> rd.arvalid && rd.araddr == old(rd.araddr))
        && (old(wr.awvalid) && !i.awready ==> wr.awvalid && wr.awaddr == old(wr.awaddr))
        && (old(wr.wvalid) && !i.wready ==> wr.wvalid && wr.wdata == old(wr.wdata))
        && !(rd.arvalid && (wr.awvalid || wr.wvalid))
    {
      hide Inv, Edge, SysEdge;
      ghost var before, h := View(), hist;
      Blocks(i);
      if i.resetN && h.r == before && Inv(h) {
        EdgeKeeps(h, i);
        HandshakeRule(h, i);
        HandshakeRule(SysEdge(h, i), i);
        HistoryEdge(h, i);
        hist := SysEdge(h, i);
      } else if i.resetN && JustReset(before) {
        FirstEdge(before, i);
        hist := AfterFirst(before, i);
      }
      if !i.resetN { ResetEdge(before, i); }
    }
  }
}
