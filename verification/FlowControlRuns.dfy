/** Runs of the bring-up controller with a slave that answers: it makes progress, and where that leads. */
module FlowControlRuns {
  import opened FlowControl
  import opened FlowControlProofs

  predicate OutOfReset(ins: seq<Inputs>) { forall k :: 0 <= k < |ins| ==> ins[k].resetN }

  // ---- One access.

  /** What the bus has seen of the access in progress: nothing, or the whole of it. */
  function SeenOf(r: Regs): seq<Event>
  {
    match r.acc
    case READ => if ReadDone(r.rd) then [Read(r.main.addr, r.rd.data)] else []
    case WRITE => if WriteDone(r.wr) then [Write(AwSelect(r), WSelect(r))] else []
    case _ => []
  }

  lemma SeenStep(s: Sys, i: Inputs)
    requires Inv(s) && i.resetN && s.r.acc != IDLE && s.r.acc != DONE && Edge(s.r, i).acc == s.r.acc
    ensures SeenOf(Edge(s.r, i)) == SeenOf(s.r) + Completes(s, i)
      && SysEdge(s, i).mon.log == s.mon.log + Completes(s, i)
  {
    OpOkUndisturbed(s);
    ChannelsEdge(s, i);
    MainStalls(s.r, i);
    hide Observe, SysEdge, OpOk, Ordered;
  }

  lemma SeenFirst(s: Sys, i: Inputs)
    requires Inv(s) && i.resetN && s.r.acc == IDLE
    ensures SeenOf(Edge(s.r, i)) == [] && SysEdge(s, i).mon.log == s.mon.log
  {
    RestEdge(s, i);
    hide SysEdge, OpOk, Ordered;
  }

  lemma EdgeOf(s: Sys, i: Inputs)
    ensures SysEdge(s, i).r == Edge(s.r, i)
  {
  }

  /** From the edge that enters READ or WRITE on, the log grows by the access in progress and by nothing else. */
  lemma {:induction false} AccessSeen(s: Sys, ins: seq<Inputs>, acc: AccState)
    requires Inv(s) && s.r.acc == IDLE && OutOfReset(ins) && ins != [] && (acc == READ || acc == WRITE)
    requires forall k :: 0 < k <= |ins| ==> Run(s, ins[..k]).r.acc == acc
    ensures var t := Run(s, ins); Inv(t) && t.mon.log == s.mon.log + SeenOf(t.r)
    decreases |ins|
  {
    hide Inv, SysEdge, SeenOf;
    var n := |ins| - 1;
    var t := Run(s, ins[..n]);
    assert ins[..|ins|] == ins;
    if n == 0 {
      assert ins[..0] == [];
      SeenFirst(s, ins[0]);
      EdgeKeeps(s, ins[0]);
      EdgeOf(s, ins[0]);
    } else {
      forall k | 0 < k <= n ensures Run(s, ins[..n][..k]).r.acc == acc { assert ins[..n][..k] == ins[..k]; }
      AccessSeen(s, ins[..n], acc);
      EdgeOf(t, ins[n]);
      assert Run(s, ins[..n]).r.acc == acc && Run(s, ins[..|ins|]).r.acc == acc;
      SeenStep(t, ins[n]);
      EdgeKeeps(t, ins[n]);
    }
  }

  /**
    The AXI machine leaves an access only when the bus has seen all its handshakes: since the access was
    entered the log has grown by exactly one event, with the address and data asked for.
   */
  lemma LeavesWhenSeen(s: Sys, ins: seq<Inputs>, acc: AccState, i: Inputs)
    requires Inv(s) && s.r.acc == IDLE && OutOfReset(ins) && ins != [] && (acc == READ || acc == WRITE)
    requires forall k :: 0 < k <= |ins| ==> Run(s, ins[..k]).r.acc == acc
    requires i.resetN && Edge(Run(s, ins).r, i).acc != acc
    ensures var r := Run(s, ins).r;
      Run(s, ins).mon.log == s.mon.log +
        [if acc == READ then Read(r.main.addr, r.rd.data) else Write(AwSelect(r), WSelect(r))]
  {
    AccessSeen(s, ins, acc);
    assert ins[..|ins|] == ins;
    hide Inv, Run, SysEdge;
  }

  // ---- One operation of the main machine.

  /** What a step of the main machine asks for: nothing, a direct access, or an MDIO operation and where to poll. */
  datatype Ask = Nothing | WriteTo(addr: nat, data: nat) | ReadFrom(addr: nat) | Operate(op: nat, data: nat,
      polled: nat)

  function AskOf(m: Main): Ask
  {
    if m.startMdio then Operate(m.mdioOp, m.wrData, m.addr)
    else if m.startAccess then (if m.writeNread then WriteTo(m.addr, m.wrData) else ReadFrom(m.addr))
    else Nothing
  }

  /** The bus events that carry out what was asked for; d is the data read last. */
  ghost predicate CarriesOut(ask: Ask, log: seq<Event>, d: nat)
  {
    match ask
    case Nothing => log == []
    case WriteTo(addr, data) => log == [Write(addr, data)]
    case ReadFrom(addr) => log == [Read(addr, d)]
    case Operate(op, data, polled) =>
      && (op == 0 || op == 1 || op == 3) && IsOperation(log, op, data, polled)
      && log[|log| - 1] == Read(polled, d)
  }

  function Dropped(m: Main): Main { m.(startAccess := false, startMdio := false) }

  /** The main machine stepped at s to registers m, and has not stepped since. */
  ghost predicate Since(s: Sys, m: Main, t: Sys)
  {
    && Inv(t) && Dropped(t.r.main) == Dropped(m) && t.kind == KindOf(m)
    && t.mark == |s.mon.log| <= |t.mon.log| && t.mon.log[..t.mark] == s.mon.log
  }

  lemma SinceStart(s: Sys, i: Inputs)
    requires Inv(s) && MainEnabled(s.r) && i.resetN
    ensures Since(s, SysEdge(s, i).r.main, SysEdge(s, i))
  {
    hide SysEdge, Inv, MainEnabled, MainStep, KindOf, Picked, Polled;
    EdgeKeeps(s, i);
    MainStepHistory(s, i);
  }

  lemma SinceStep(s: Sys, m: Main, t: Sys, i: Inputs)
    requires Since(s, m, t) && !MainEnabled(t.r) && i.resetN
    ensures Since(s, m, SysEdge(t, i)) && SysEdge(t, i).r.main == Dropped(m)
  {
    hide SysEdge, Inv, MainEnabled, KindOf;
    EdgeKeeps(t, i);
    StalledHistory(t, i);
    var u := SysEdge(t, i);
    assert u.mon.log[..t.mark] == u.mon.log[..|t.mon.log|][..t.mark];
  }

  lemma SinceMark(s: Sys, m: Main, t: Sys)
    requires Since(s, m, t)
    ensures t.mark == |s.mon.log| <= |t.mon.log| && Op(t) == t.mon.log[|s.mon.log|..]
  {
    hide Inv;
  }

  lemma AccessDone(t: Sys)
    requires Inv(t) && MainEnabled(t.r)
    ensures t.mark <= |t.mon.log|
    ensures t.kind == Access ==> Op(t) == [AccessEvent(t.r)]
    ensures t.kind == Quiet ==> Op(t) == []
  {
    hide Channels, Ordered, Polled, Polling, ReadyBit, AccessEvent, Op;
  }

  /** Where the main machine can step again, what was asked for with registers m has been carried out. */
  lemma OperationDone(t: Sys, m: Main)
    requires Inv(t) && MainEnabled(t.r) && Dropped(t.r.main) == Dropped(m) && t.kind == KindOf(m)
    ensures t.mark <= |t.mon.log| && CarriesOut(AskOf(m), Op(t), t.r.rd.data)
  {
    hide Inv, MainEnabled, IsOperation, Op;
    AccessDone(t);
    if t.kind == Mdio { MdioOperation(t); }
  }

  /** When it can step again, the operation is over. */
  lemma SinceOver(s: Sys, m: Main, t: Sys)
    requires Since(s, m, t) && MainEnabled(t.r)
    ensures CarriesOut(AskOf(m), Op(t), t.r.rd.data)
  {
    hide CarriesOut, Inv, MainEnabled, KindOf, Dropped, AskOf;
    OperationDone(t, m);
  }

  /**
    From the edge on which the main machine steps to the next state in which it can step again, however many
    edges that takes and whatever the slave does, its registers hold still but for the start bits, and the
    log grows by exactly the operation that was asked for.
   */
  lemma {:induction false} MainWaits(s: Sys, ins: seq<Inputs>)
    requires Inv(s) && MainEnabled(s.r) && OutOfReset(ins) && ins != []
    requires forall k :: 0 < k < |ins| ==> !MainEnabled(Run(s, ins[..k]).r)
    ensures var t, m := Run(s, ins), SysEdge(s, ins[0]).r.main;
      && Since(s, m, t) && (|ins| > 1 ==> t.r.main == Dropped(m))
      && (MainEnabled(t.r) ==> CarriesOut(AskOf(m), t.mon.log[|s.mon.log|..], t.r.rd.data))
    decreases |ins|
  {
    hide Inv, SysEdge, MainEnabled, CarriesOut, KindOf;
    var n := |ins| - 1;
    var t, m := Run(s, ins), SysEdge(s, ins[0]).r.main;
    if n == 0 {
      assert ins[..0] == [];
      SinceStart(s, ins[0]);
      assert t == SysEdge(s, ins[0]);
    } else {
      forall k | 0 < k < n ensures !MainEnabled(Run(s, ins[..n][..k]).r) { assert ins[..n][..k] == ins[..k]; }
      MainWaits(s, ins[..n]);
      SinceStep(s, m, Run(s, ins[..n]), ins[n]);
      assert t == SysEdge(Run(s, ins[..n]), ins[n]);
    }
    SinceMark(s, m, t);
    hide Since;
    if MainEnabled(t.r) { SinceOver(s, m, t); }
  }

  // ---- Progress.

  /** A slave that takes and answers everything at once, with both ready bits set. */
  predicate Responsive(i: Inputs)
  {
    && i.resetN && i.awready && i.wready && i.bvalid && i.arready && i.rvalid
    && Bit(i.rdata, 0x1_0000) && Bit(i.rdata, 0x80)
  }

  /** Edges until a write or read in progress can be left. */
  function WriteRank(w: Wr): nat
  {
    if WriteDone(w) then 1 else if (w.st2 || w.awvalid) && (w.st3 || w.wvalid) && (w.st4 || w.bready) then 2 else 3
  }
  function ReadRank(d: Rd): nat
  {
    if ReadDone(d) then 1 else if (d.st0 || d.arvalid) && (d.st1 || d.rready) then 2 else 3
  }

  /** Edges until the main machine can step again, with a responsive slave. */
  function Rank(s: Sys): nat
  {
    var r := s.r;
    if MainEnabled(r) then 0
    else if s.kind == Mdio then
      match r.mdio
      case SET_DATA => if r.acc == WRITE then WriteRank(r.wr) + 11 else 11
      case INIT => 10
      case POLL =>
        (match r.acc
         case WRITE => WriteRank(r.wr) + 6
         case READ => if r.rd.st1 && !r.rd.mdioReady then ReadRank(r.rd) + 6 else ReadRank(r.rd) + 1
         case IDLE => 5
         case DONE => 6)
      case MIDLE => if r.main.startMdio then 15 else if r.acc == READ then ReadRank(r.rd) + 1 else 1
    else
      match r.acc
      case WRITE => WriteRank(r.wr) + 1
      case READ => ReadRank(r.rd) + 1
      case IDLE => 5
      case DONE => 1
  }

  lemma AccessProgress(s: Sys, i: Inputs)
    requires Inv(s) && !MainEnabled(s.r) && Responsive(i) && s.kind != Mdio
    ensures Rank(SysEdge(s, i)) < Rank(s)
  {
    hide Observe, Ordered;
  }

  lemma MdioProgress(s: Sys, i: Inputs)
    requires Inv(s) && !MainEnabled(s.r) && Responsive(i) && s.kind == Mdio
    ensures Rank(SysEdge(s, i)) < Rank(s)
  {
    hide Observe, Ordered, Polling, Polled, ControlData;
  }

  /** t is s with the operation in progress carried on, and at least one edge later. */
  ghost predicate CarriedOn(s: Sys, t: Sys)
  {
    && t.r.main == s.r.main.(startAccess := false, startMdio := false)
    && t.mark == s.mark && t.kind == s.kind && t.picked == s.picked && t.past == s.past
    && |s.mon.log| <= |t.mon.log| && t.mon.log[..|s.mon.log|] == s.mon.log
  }

  lemma CarriedOnFurther(s: Sys, t: Sys, u: Sys)
    requires CarriedOn(s, t) && CarriedOn(t, u)
    ensures CarriedOn(s, u)
  {
    assert u.mon.log[..|t.mon.log|][..|s.mon.log|] == u.mon.log[..|s.mon.log|];
  }

  lemma OneEdge(s: Sys, i: Inputs)
    requires Inv(s) && i.resetN && !MainEnabled(s.r)
    ensures CarriedOn(s, SysEdge(s, i))
  {
    StalledHistory(s, i);
  }

  lemma LastLoop(s: Sys, ins: seq<Inputs>)
    requires ins != []
    ensures Run(s, ins).r.loopReg == ins[|ins| - 1].pcsLoopback
  {
  }

  lemma RankBound(s: Sys)
    ensures Rank(s) <= 15 && (Rank(s) == 0 ==> MainEnabled(s.r))
  {
  }

  lemma {:induction false} RunFromFirst(s: Sys, ins: seq<Inputs>, k: nat)
    requires 0 < k <= |ins|
    ensures Run(s, ins[..k]) == Run(SysEdge(s, ins[0]), ins[1..][..k - 1])
    decreases k
  {
    hide SysEdge;
    assert ins[..k][..k - 1] == ins[..k - 1];
    if k > 1 {
      RunFromFirst(s, ins, k - 1);
      assert ins[1..][..k - 1][..k - 2] == ins[1..][..k - 2];
    }
  }

  /**
    Whatever the slave did before, the controller is not stuck: once the slave is responsive, the
    operation in progress is over and the main machine can step within fifteen edges.
   */
  lemma {:induction false} OperationEnds(s: Sys, ins: seq<Inputs>) returns (k: nat)
    requires Inv(s) && |ins| >= Rank(s) && forall j :: 0 <= j < |ins| ==> Responsive(ins[j])
    ensures k <= Rank(s) <= 15 && k <= |ins|
    ensures var t := Run(s, ins[..k]); Inv(t) && MainEnabled(t.r) && (k == 0 || CarriedOn(s, t))
    ensures !MainEnabled(s.r) ==> 0 < k && Run(s, ins[..k]).r.loopReg == ins[k - 1].pcsLoopback
    decreases Rank(s)
  {
    hide Inv, SysEdge, Rank, MainEnabled, CarriedOn;
    RankBound(s);
    if MainEnabled(s.r) {
      k := 0;
      assert ins[..0] == [];
    } else {
      var t := SysEdge(s, ins[0]);
      if s.kind == Mdio { MdioProgress(s, ins[0]); } else { AccessProgress(s, ins[0]); }
      EdgeKeeps(s, ins[0]);
      OneEdge(s, ins[0]);
      var j := OperationEnds(t, ins[1..]);
      k := j + 1;
      RunFromFirst(s, ins, k);
      if j > 0 { CarriedOnFurther(s, t, Run(s, ins[..k])); }
      LastLoop(s, ins[..k]);
    }
  }

  lemma {:induction false} RunConcat(s: Sys, a: seq<Inputs>, b: seq<Inputs>)
    ensures Run(s, a + b) == Run(Run(s, a), b)
    decreases |b|
  {
    hide SysEdge;
    if b == [] {
      assert a + b == a;
    } else {
      assert (a + b)[..|a + b| - 1] == a + b[..|b| - 1];
      RunConcat(s, a, b[..|b| - 1]);
    }
  }

  // ---- A run in which the generator is enabled although loopback was never written.

  /** A responsive slave, with loopback selected or not. */
  function Prompt(loop: bool): Inputs { Inputs(true, loop, false, false, true, true, true, true, true, 0x1_0080) }

  /** No write of the word that selects loopback. */
  predicate NoLoopWrite(log: seq<Event>) { forall k :: 0 <= k < |log| ==> log[k] != Write(0x508, 0x4000) }

  lemma PromptResponds(loop: bool)
    ensures Responsive(Prompt(loop))
  {
  }

  lemma OperationReady(t: Sys)
    requires Inv(t) && MainEnabled(t.r) && t.kind == Mdio
    ensures t.r.rd.mdioReady
  {
    hide Polled, Polling, Channels, Ordered, ReadyBit, Op;
  }

  lemma OperationPlain(t: Sys, i: Inputs)
    requires i.resetN && Inv(t) && MainEnabled(t.r) && t.kind != Quiet
    requires t.r.main.wrData != 0x4000 && (t.kind == Access ==> t.r.main.addr != MDIO_TX_DATA)
    ensures t.mark <= |t.mon.log| && NoLoopWrite(Op(t))
  {
    hide Inv, MainEnabled, SysEdge, MainStep, Polled, ReadyBit, ControlData;
    MainStepHistory(t, i);
    if t.kind == Mdio { MdioOperation(t); } else { assert Op(t) == [AccessEvent(t.r)]; }
  }

  /** What the main machine finds when it can step again. */
  lemma OperationLog(s: Sys, t: Sys, i: Inputs)
    requires i.resetN && Inv(t) && MainEnabled(t.r) && t.kind != Quiet
    requires t.mark == |s.mon.log| <= |t.mon.log| && t.mon.log[..t.mark] == s.mon.log && NoLoopWrite(s.mon.log)
    requires t.r.main.wrData != 0x4000 && (t.kind == Access ==> t.r.main.addr != MDIO_TX_DATA)
    ensures NoLoopWrite(t.mon.log) && (t.kind == Mdio ==> t.r.rd.mdioReady)
  {
    hide Inv, MainEnabled;
    OperationPlain(t, i);
    if t.kind == Mdio { OperationReady(t); }
    assert t.mon.log == s.mon.log + Op(t);
  }

  /** What the next step of the main machine makes of its registers. */
  function Stepped(s: Sys, loop: bool): Main
  {
    MainStep(s.r.main, s.r.rd.mdioReady, s.r.rd.data, s.r.loopReg, Prompt(loop))
  }

  /** A step that starts something, and does not write the loopback word. */
  predicate StartsPlainly(n: Main)
  {
    KindOf(n) != Quiet && n.wrData != 0x4000 && (KindOf(n) == Access ==> n.addr != MDIO_TX_DATA)
  }

  lemma StepStarts(s: Sys, loop: bool)
    requires Inv(s) && MainEnabled(s.r) && StartsPlainly(Stepped(s, loop))
    ensures var t := SysEdge(s, Prompt(loop)); var n := Stepped(s, loop);
      && Inv(t) && !MainEnabled(t.r) && t.mon.log == s.mon.log && t.mark == |s.mon.log|
      && t.r.main == n && t.kind == KindOf(n) && t.picked == Picked(s.r.main, n, s.r.loopReg, s.picked)
  {
    EdgeKeeps(s, Prompt(loop));
    MainStepHistory(s, Prompt(loop));
    hide SysEdge, Inv, MainStep, Prompt;
  }

  /** s with the main machine's registers n is where the run arrives, nothing in progress. */
  ghost predicate ArrivesWith(t: Sys, n: Main, loop: bool, picked: bool)
  {
    && Inv(t) && MainEnabled(t.r) && NoLoopWrite(t.mon.log) && t.r.loopReg == loop && t.picked == picked
    && t.r.main == n.(startAccess := false, startMdio := false) && t.kind == KindOf(n)
    && (t.kind == Mdio ==> t.r.rd.mdioReady)
  }

  /** The operation started in a, to its end. */
  lemma Finish(s: Sys, a: Sys, loop: bool) returns (ins: seq<Inputs>)
    requires Inv(a) && !MainEnabled(a.r) && StartsPlainly(a.r.main) && a.kind == KindOf(a.r.main)
    requires a.mon.log == s.mon.log && a.mark == |s.mon.log| && NoLoopWrite(s.mon.log)
    ensures OutOfReset(ins) && ArrivesWith(Run(a, ins), a.r.main, loop, a.picked)
  {
    hide Inv, SysEdge, Rank, MainEnabled, NoLoopWrite, Responsive, Run;
    var i := Prompt(loop);
    PromptResponds(loop);
    RankBound(a);
    var rest := seq(15, _ => i);
    var k := OperationEnds(a, rest);
    ins := rest[..k];
    OperationLog(s, Run(a, ins), i);
  }

  lemma RunOne(s: Sys, i: Inputs)
    ensures Run(s, [i]) == SysEdge(s, i)
  {
    hide SysEdge;
    assert [i][..0] == [];
  }

  lemma OneMore(i: Inputs, rest: seq<Inputs>)
    requires OutOfReset(rest) && i.resetN
    ensures OutOfReset([i] + rest)
  {
  }

  /** One step of the main machine, and the operation it starts to its end. */
  lemma StepAndFinish(s: Sys, loop: bool) returns (ins: seq<Inputs>)
    requires Inv(s) && MainEnabled(s.r) && NoLoopWrite(s.mon.log) && StartsPlainly(Stepped(s, loop))
    ensures OutOfReset(ins)
    ensures ArrivesWith(Run(s, ins), Stepped(s, loop), loop, Picked(s.r.main, Stepped(s, loop), s.r.loopReg, s.picked))
  {
    var i := Prompt(loop);
    assert i.resetN;
    StepStarts(s, loop);
    RunOne(s, i);
    hide *;
    var rest := Finish(s, SysEdge(s, i), loop);
    ins := [i] + rest;
    RunConcat(s, [i], rest);
    OneMore(i, rest);
  }

  lemma EmptyLog(log: seq<Event>)
    requires log == []
    ensures NoLoopWrite(log)
  {
  }

  /** From reset through the three start-up writes, to the first address operation. */
  lemma BringUp(s: Sys) returns (ins: seq<Inputs>)
    requires Inv(s) && MainEnabled(s.r) && s.mon.log == [] && s.r.main == MAIN_RESET
    ensures OutOfReset(ins)
    ensures var t := Run(s, ins);
      && Inv(t) && MainEnabled(t.r) && NoLoopWrite(t.mon.log) && !t.r.loopReg && t.r.rd.mdioReady
      && t.r.main.state == MDIO_ADDR_1 && !t.r.main.enableGen && !t.r.main.startAccess
  {
    hide Inv, SysEdge, Run, MainEnabled, NoLoopWrite;
    EmptyLog(s.mon.log);
    var a := StepAndFinish(s, false);
    var s1 := Run(s, a);
    var b := StepAndFinish(s1, false);
    var s2 := Run(s1, b);
    var c := StepAndFinish(s2, false);
    var s3 := Run(s2, c);
    ins := a + b + c;
    RunConcat(s, a, b);
    RunConcat(s, a + b, c);
    if !s3.r.rd.mdioReady {
      var d := StepAndFinish(s3, false);
      RunConcat(s, ins, d);
      ins := ins + d;
    }
  }

  /** Loopback selected just after the plain PCS write was chosen. */
  lemma LateLoopback(s: Sys) returns (ins: seq<Inputs>)
    requires Inv(s) && MainEnabled(s.r) && NoLoopWrite(s.mon.log) && !s.r.loopReg && s.r.rd.mdioReady
    requires s.r.main.state == MDIO_ADDR_1 && !s.r.main.enableGen && !s.r.main.startAccess
    ensures OutOfReset(ins)
    ensures var t := Run(s, ins);
      && Inv(t) && MainEnabled(t.r) && NoLoopWrite(t.mon.log) && t.r.loopReg
      && t.r.main.state == MDIO_RD_1 && t.r.main.loopDone && !t.r.main.enableGen
  {
    hide Inv, SysEdge, Run, MainEnabled, NoLoopWrite;
    var a := StepAndFinish(s, true);
    var s1 := Run(s, a);
    var b := StepAndFinish(s1, true);
    ins := a + b;
    RunConcat(s, a, b);
  }

  lemma EnablesNow(s: Sys)
    requires MainEnabled(s.r) && s.r.main.loopDone && s.r.main.state == MDIO_RD_1 && s.r.loopReg
    ensures Edge(s.r, Prompt(true)).main.enableGen
  {
  }

  lemma AfterReset(power: Regs, resets: seq<Inputs>)
    requires |resets| >= 2 && forall k :: 0 <= k < |resets| ==> !resets[k].resetN
    ensures var r := Edges(power, resets); r.main == MAIN_RESET && MainEnabled(r)
  {
  }

  /**
    The generator can be enabled for loopback without loopback ever having been written: if pcs_loopback
    rises after the PCS write was chosen, the machine still records a loopback write as done.
   */
  lemma EnabledWithoutLoopback(power: Regs, resets: seq<Inputs>) returns (ins: seq<Inputs>)
    requires |resets| >= 2 && forall k :: 0 <= k < |resets| ==> !resets[k].resetN
    ensures OutOfReset(ins)
    ensures var s := Run(Sys(Edges(power, resets), NO_MONITOR, 0, Quiet, false, []), ins);
      && Inv(s) && NoLoopWrite(s.mon.log) && !s.r.main.enableGen
      && s.r.main.state == MDIO_RD_1 && Edge(s.r, Prompt(true)).main.enableGen
  {
    var s := Sys(Edges(power, resets), NO_MONITOR, 0, Quiet, false, []);
    ResetEstablishes(power, resets);
    AfterReset(power, resets);
    hide Inv, SysEdge, Run, MainEnabled, NoLoopWrite, Edges, Edge, Prompt;
    var a := BringUp(s);
    var b := LateLoopback(Run(s, a));
    ins := a + b;
    RunConcat(s, a, b);
    EnablesNow(Run(s, ins));
  }
}
