/**
  The bring-up controller of the 10G Ethernet design, ethernet_flow_cntrl.v: a main state machine,
  an MDIO access machine, an AXI access machine and five AXI-Lite channel processes. All registers
  change together on a clock edge; the AXI slave may answer in any way.
 */
module FlowControl {

  datatype MainState =
    | STARTUP | RESET_MAC_TX | RESET_MAC_RX | MDIO_ADDR | MDIO_RD | MDIO_RD_1 | MDIO_WR | MDIO_ADDR_1
    | MDIO_ADDR_2 | MDIO_POLL_CHECK | MDIO_CHECK_DATA | CONFIG_DONE | MDIO_READ_PCS_RESET
    | MDIO_READ_PCS_RESET_POLL | MDIO_READ_PCS_RESET_READ | MDIO_RESET_CHECK
    | UNDEFINED                     // the sixteen codes the case statement does not name

  datatype MdioState = MIDLE | SET_DATA | INIT | POLL
  datatype AccState = IDLE | READ | WRITE | DONE

  const CONFIG_MANAGEMENT_ADDR: nat := 0x500
  const RECEIVER_ADDR: nat := 0x404
  const TRANSMITTER_ADDR: nat := 0x408
  const MDIO_CONTROL: nat := 0x504
  const MDIO_TX_DATA: nat := 0x508
  const MDIO_RX_DATA: nat := 0x50C
  const OP_ADDR: nat := 0
  const OP_WR: nat := 1
  const OP_RD: nat := 3
  const DEV_ADDR: nat := 3

  /** The registers of the management process. */
  datatype Main = Main(
    state: MainState, enableGen: bool, blockLock: bool, startAccess: bool, startMdio: bool, driveMdio: bool,
    mdioOp: nat, regAddr: nat, writeNread: bool, addr: nat, wrData: nat, loopDone: bool, defaultDone: bool)

  /** Read channels: address, data; st0 and st1 are axi_status[0] and [1]. */
  datatype Rd = Rd(araddr: nat, arvalid: bool, st0: bool, rready: bool, st1: bool, data: nat, mdioReady: bool)

  /** Write channels: address, data, response; st2, st3, st4 are axi_status[2], [3], [4]. */
  datatype Wr = Wr(awaddr: nat, awvalid: bool, st2: bool, wdata: nat, wvalid: bool, st3: bool, bready: bool, st4: bool)

  datatype Regs = Regs(main: Main, loopReg: bool, mdio: MdioState, mdioWr: nat, acc: AccState, rd: Rd, wr: Wr)

  datatype Inputs = Inputs(
    resetN: bool, pcsLoopback: bool, enableVlan: bool, enablePreamble: bool,
    awready: bool, wready: bool, bvalid: bool, arready: bool, rvalid: bool, rdata: nat)

  predicate Bit(d: nat, weight: nat)
    requires weight > 0
  {
    (d / weight) % 2 == 1
  }

  // ---- The processes.

  const MAIN_RESET := Main(STARTUP, false, false, false, false, false, 0, 0, false, 0, 0, false, false)

  /** The main machine takes a step only when no access is in progress or requested. */
  predicate MainEnabled(r: Regs)
  {
    r.acc == IDLE && r.mdio == MIDLE && !r.main.startAccess && !r.main.startMdio
  }

  function DirectWrite(m: Main, addr: nat, data: nat, next: MainState): Main
  {
    m.(startAccess := true, writeNread := true, addr := addr, wrData := data, state := next)
  }

  /** Start the MDIO machine on the current operation. */
  function StartMdio(m: Main): Main { m.(startMdio := true, driveMdio := true) }

  function ReceiverData(i: Inputs): nat
  {
    if i.enableVlan then (if i.enablePreamble then 0x9C00_0000 else 0x9800_0000)
    else (if i.enablePreamble then 0x9400_0000 else 0x9000_0000)
  }

  function TransmitterData(i: Inputs): nat
  {
    if i.enableVlan then (if i.enablePreamble then 0x9880_0000 else 0x9800_0000)
    else (if i.enablePreamble then 0x9080_0000 else 0x9000_0000)
  }

  function MainStep(m: Main, ready: bool, rdData: nat, loop: bool, i: Inputs): Main
  {
    match m.state
    case STARTUP => DirectWrite(m, CONFIG_MANAGEMENT_ADDR, 0x45, RESET_MAC_RX)
    case RESET_MAC_RX => DirectWrite(m, RECEIVER_ADDR, ReceiverData(i), RESET_MAC_TX)
    case RESET_MAC_TX => DirectWrite(m, TRANSMITTER_ADDR, TransmitterData(i), MDIO_ADDR_1)
    case MDIO_ADDR_1 =>
      var n := StartMdio(m).(writeNread := true, addr := MDIO_CONTROL, regAddr := DEV_ADDR);
      if !ready then n
      else if loop then n.(mdioOp := OP_WR, wrData := 0x8000, state := MDIO_READ_PCS_RESET)
      else n.(mdioOp := OP_WR, wrData := 0x2000, state := MDIO_WR)
    case MDIO_READ_PCS_RESET =>
      var n := StartMdio(m).(regAddr := DEV_ADDR);
      if ready then n.(mdioOp := OP_RD, state := MDIO_READ_PCS_RESET_POLL) else n
    case MDIO_READ_PCS_RESET_POLL =>
      var n := StartMdio(m).(writeNread := false, mdioOp := OP_RD, regAddr := DEV_ADDR);
      if ready then n.(state := MDIO_READ_PCS_RESET_READ) else n
    case MDIO_READ_PCS_RESET_READ =>
      var n := StartMdio(m).(mdioOp := OP_RD, regAddr := DEV_ADDR);
      if ready then n.(addr := MDIO_RX_DATA, state := MDIO_RESET_CHECK) else n
    case MDIO_RESET_CHECK =>
      var n := StartMdio(m);
      if ready && rdData % 0x1_0000 == 0x2040 then n.(state := MDIO_ADDR_2) else n
    case MDIO_ADDR_2 =>
      var n := StartMdio(m).(writeNread := true, addr := MDIO_CONTROL, regAddr := DEV_ADDR);
      if ready then n.(mdioOp := OP_WR, state := MDIO_WR, wrData := if loop then 0x4000 else 0x2000) else n
    case MDIO_WR =>
      var n := StartMdio(m).(writeNread := true, mdioOp := OP_WR, regAddr := DEV_ADDR);
      if !ready then n
      else if loop then n.(loopDone := true, state := MDIO_RD_1)
      else n.(defaultDone := true, state := MDIO_RD_1)
    case MDIO_RD_1 =>
      var n := StartMdio(m).(writeNread := true, mdioOp := OP_RD, regAddr := DEV_ADDR, blockLock := false);
      if m.loopDone && loop then n.(enableGen := true)
      else
        var k := n.(loopDone := false);
        if !ready then k
        else if m.defaultDone then k.(state := MDIO_ADDR, wrData := 0x20)
        else k.(state := MDIO_ADDR_1, wrData := 0)
    case MDIO_ADDR =>
      var n := StartMdio(m).(writeNread := false, mdioOp := OP_ADDR, addr := MDIO_CONTROL, regAddr := DEV_ADDR,
          wrData := 0x20);
      if ready then n.(state := MDIO_RD) else n
    case MDIO_RD =>
      var n := StartMdio(m).(writeNread := false, mdioOp := OP_RD, regAddr := DEV_ADDR);
      if ready then n.(state := MDIO_POLL_CHECK, addr := MDIO_RX_DATA) else n
    case MDIO_POLL_CHECK =>
      var n := StartMdio(m);
      if ready then n.(state := MDIO_CHECK_DATA) else n
    case MDIO_CHECK_DATA =>
      if ready && rdData % 0x2_0000 == 0x1_1005 then
        m.(startAccess := false, startMdio := false, driveMdio := false, mdioOp := 0, regAddr := 0,
           writeNread := false, addr := 0, state := CONFIG_DONE, blockLock := true)
      else if ready then StartMdio(m).(state := MDIO_ADDR)
      else StartMdio(m)
    case CONFIG_DONE =>
      if loop then m.(startAccess := true, state := RESET_MAC_TX, defaultDone := false)
      else m.(enableGen := true)
    case UNDEFINED => m.(state := STARTUP)
  }

  function NextMain(r: Regs, i: Inputs): Main
  {
    if !i.resetN then MAIN_RESET
    else if MainEnabled(r) then MainStep(r.main, r.rd.mdioReady, r.rd.data, r.loopReg, i)
    else r.main.(startAccess := false, startMdio := false)
  }

  /** The MDIO control word: port 0, the device, the operation and the start bit. */
  function ControlData(regAddr: nat, op: nat): nat { regAddr * 0x1_0000 + op * 0x4000 + 0x800 }

  function NextMdio(r: Regs, i: Inputs): MdioState
  {
    if !i.resetN then MIDLE
    else if r.acc == IDLE || r.acc == DONE then
      match r.mdio
      case MIDLE =>
        if !r.main.startMdio then MIDLE
        else if r.main.mdioOp == OP_ADDR || r.main.mdioOp == OP_WR || r.main.mdioOp == OP_RD then SET_DATA
        else INIT
      case SET_DATA => INIT
      case INIT => POLL
      case POLL => if r.rd.mdioReady then MIDLE else POLL
    else if r.mdio == POLL && r.rd.mdioReady then MIDLE
    else r.mdio
  }

  function NextMdioWr(r: Regs, i: Inputs): nat
  {
    if !i.resetN || !(r.acc == IDLE || r.acc == DONE) then r.mdioWr
    else if r.mdio == MIDLE && r.main.startMdio then
      if r.main.mdioOp == OP_ADDR || r.main.mdioOp == OP_WR || r.main.mdioOp == OP_RD then r.main.wrData
      else ControlData(r.main.regAddr, r.main.mdioOp)
    else if r.mdio == SET_DATA then ControlData(r.main.regAddr, r.main.mdioOp)
    else r.mdioWr
  }

  predicate WriteDone(w: Wr) { w.st2 && w.st3 && w.st4 }
  predicate ReadDone(d: Rd) { d.st0 && d.st1 }

  function NextAcc(r: Regs, i: Inputs): AccState
  {
    if !i.resetN then IDLE
    else
      match r.acc
      case IDLE =>
        if r.main.startAccess || r.main.startMdio || r.mdio != MIDLE then
          if r.mdio == POLL then READ
          else if (r.main.startAccess && r.main.writeNread) || r.mdio == SET_DATA || r.mdio == INIT || r.main.startMdio
          then WRITE
          else READ
        else IDLE
      case WRITE => if WriteDone(r.wr) then DONE else WRITE
      case READ => if ReadDone(r.rd) then DONE else READ
      case DONE => IDLE
  }

  /** The bit of a polled register that says the MDIO operation is over. */
  predicate ReadyBit(addr: nat, d: nat) { if addr == MDIO_RX_DATA then Bit(d, 0x1_0000) else Bit(d, 0x80) }

  /** READ ADDR and READ DATA/RESP; they have no reset. */
  function NextRd(r: Regs, i: Inputs): Rd
  {
    var d := r.rd;
    if r.acc == READ then
      var took := i.arready && d.arvalid;
      var got := i.rvalid && d.rready;
      Rd(if d.st0 then d.araddr else if took then 0 else r.main.addr,
         if d.st0 then d.arvalid else !took,
         d.st0 || took,
         if d.st1 then d.rready else !got,
         d.st1 || got,
         if !d.st1 && got then i.rdata else d.data,
         d.mdioReady || (!d.st1 && got && r.main.driveMdio && ReadyBit(r.main.addr, i.rdata)))
    else
      var clear := r.acc == IDLE && (r.main.startAccess || r.main.startMdio);
      Rd(0, false, false, false, false, if clear then 0 else d.data, if clear then false else d.mdioReady)
  }

  /** What the write address and write data processes drive. */
  function AwSelect(r: Regs): nat
  {
    if r.main.driveMdio then (if r.mdio == SET_DATA then MDIO_TX_DATA else MDIO_CONTROL) else r.main.addr
  }
  function WSelect(r: Regs): nat { if r.main.driveMdio then r.mdioWr else r.main.wrData }

  /** WRITE ADDR, WRITE DATA and WRITE RESP; they have no reset. */
  function NextWr(r: Regs, i: Inputs): Wr
  {
    var w := r.wr;
    if r.acc == WRITE then
      var tookA := i.awready && w.awvalid;
      var tookD := i.wready && w.wvalid;
      var gotB := i.bvalid && w.bready;
      Wr(if w.st2 then w.awaddr else if tookA then 0 else AwSelect(r),
         if w.st2 then w.awvalid else !tookA,
         w.st2 || tookA,
         if w.st3 then w.wdata else if tookD then 0 else WSelect(r),
         if w.st3 then w.wvalid else !tookD,
         w.st3 || tookD,
         if w.st4 then w.bready else !gotB,
         w.st4 || gotB)
    else Wr(0, false, false, 0, false, false, false, false)
  }

  /** One clock edge. */
  function Edge(r: Regs, i: Inputs): Regs
  {
    Regs(NextMain(r, i), i.pcsLoopback, NextMdio(r, i), NextMdioWr(r, i), NextAcc(r, i), NextRd(r, i), NextWr(r, i))
  }

  // ---- A monitor on the bus, which sees only the AXI signals.

  datatype Opt = None | Some(v: nat)

  datatype Event = Write(addr: nat, data: nat) | Read(addr: nat, data: nat)

  /** The handshakes of the access in progress, and the accesses completed so far. */
  datatype Monitor = Monitor(aw: Opt, w: Opt, b: bool, ar: Opt, r: Opt, log: seq<Event>)

  function Observe(m: Monitor, r: Regs, i: Inputs): Monitor
  {
    var aw := if r.wr.awvalid && i.awready then Some(r.wr.awaddr) else m.aw;
    var w := if r.wr.wvalid && i.wready then Some(r.wr.wdata) else m.w;
    var b := m.b || (r.wr.bready && i.bvalid);
    var ar := if r.rd.arvalid && i.arready then Some(r.rd.araddr) else m.ar;
    var d := if r.rd.rready && i.rvalid then Some(i.rdata) else m.r;
    if aw.Some? && w.Some? && b then Monitor(None, None, false, ar, d, m.log + [Write(aw.v, w.v)])
    else if ar.Some? && d.Some? then Monitor(aw, w, b, None, None, m.log + [Read(ar.v, d.v)])
    else Monitor(aw, w, b, ar, d, m.log)
  }

  /** What the main machine's last step asked for. */
  datatype Kind = Quiet | Access | Mdio

  /** A step of the main machine: the switches and what it saw, and the registers it went to. */
  datatype Took = Took(vlan: bool, preamble: bool, loop: bool, ready: bool, data: nat, asked: Main)

  /**
    Controller, monitor, and the history of the main machine: where in the log its last step was, what
    that step asked for, whether loopback was selected when it last entered MDIO_WR, and all its steps.
   */
  datatype Sys = Sys(r: Regs, mon: Monitor, mark: nat, kind: Kind, picked: bool, past: seq<Took>)

  const NO_MONITOR := Monitor(None, None, false, None, None, [])

  function KindOf(m: Main): Kind { if m.startMdio then Mdio else if m.startAccess then Access else Quiet }

  function TookAt(r: Regs, i: Inputs): Took
  {
    Took(i.enableVlan, i.enablePreamble, r.loopReg, r.rd.mdioReady, r.rd.data, Edge(r, i).main)
  }

  function Picked(m: Main, n: Main, loop: bool, picked: bool): bool
  {
    if m.state != MDIO_WR && n.state == MDIO_WR then loop else picked
  }

  /** One clock edge outside reset, with its history. */
  function SysEdge(s: Sys, i: Inputs): Sys
  {
    var r := Edge(s.r, i);
    var mon := Observe(s.mon, s.r, i);
    if MainEnabled(s.r) then
      Sys(r, mon, |mon.log|, KindOf(r.main), Picked(s.r.main, r.main, s.r.loopReg, s.picked), s.past + [TookAt(s.r, i)])
    else Sys(r, mon, s.mark, s.kind, s.picked, s.past)
  }

  function Op(s: Sys): seq<Event>
    requires s.mark <= |s.mon.log|
  {
    s.mon.log[s.mark..]
  }
}
