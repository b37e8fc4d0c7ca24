/** The whole bring-up, step by step: what the main machine asks for, and that the bus carries it out. */
module FlowControlScript {
  import opened FlowControl
  import opened FlowControlProofs
  import opened FlowControlRuns

  // ---- The log is what was asked for, in order.

  /** The log splits into one part for each step of the main machine, which carries out what that step asked for. */
  ghost predicate Carried(log: seq<Event>, past: seq<Took>)
    decreases |past|
  {
    if past == [] then log == []
    else
      var n := |past| - 1;
      exists cut, d :: 0 <= cut <= |log| && Carried(log[..cut], past[..n])
        && CarriesOut(AskOf(past[n].asked), log[cut..], d)
  }

  /** All steps but the last are carried out before the mark; the registers are those of the last step. */
  ghost predicate Told(s: Sys)
  {
    && s.mark <= |s.mon.log|
    && (s.past == [] ==> s.mark == 0 && s.kind == Quiet && s.r.main == MAIN_RESET)
    && (s.past != [] ==>
          var last := s.past[|s.past| - 1].asked;
          && Dropped(s.r.main) == Dropped(last) && s.kind == KindOf(last)
          && Carried(s.mon.log[..s.mark], s.past[..|s.past| - 1]))
  }

  lemma LastCarried(s: Sys)
    requires Inv(s) && MainEnabled(s.r) && s.past != []
    requires var last := s.past[|s.past| - 1].asked; Dropped(s.r.main) == Dropped(last) && s.kind == KindOf(last)
    ensures s.mark <= |s.mon.log| && CarriesOut(AskOf(s.past[|s.past| - 1].asked), Op(s), s.r.rd.data)
  {
    hide CarriesOut, Inv, MainEnabled, KindOf, Dropped, AskOf;
    OperationDone(s, s.past[|s.past| - 1].asked);
  }

  lemma CarriedMore(log: seq<Event>, cut: nat, past: seq<Took>, d: nat)
    requires past != [] && cut <= |log| && Carried(log[..cut], past[..|past| - 1])
    requires CarriesOut(AskOf(past[|past| - 1].asked), log[cut..], d)
    ensures Carried(log, past)
  {
    hide CarriesOut;
  }

  lemma NothingYet(s: Sys)
    requires Inv(s) && MainEnabled(s.r) && s.past == [] && s.mark == 0 && s.kind == Quiet
    ensures Carried(s.mon.log, s.past)
  {
  }

  /** When the main machine can step, everything asked for so far has been carried out. */
  lemma AllCarried(s: Sys)
    requires Inv(s) && Told(s) && MainEnabled(s.r)
    ensures Carried(s.mon.log, s.past)
  {
    hide Inv, MainEnabled, CarriesOut, Carried;
    if s.past == [] {
      NothingYet(s);
    } else {
      LastCarried(s);
      CarriedMore(s.mon.log, s.mark, s.past, s.r.rd.data);
    }
  }

  lemma ToldStep(s: Sys, i: Inputs)
    requires Inv(s) && Told(s) && i.resetN
    ensures Told(SysEdge(s, i))
  {
    hide Inv, CarriesOut, Carried;
    var t := SysEdge(s, i);
    if MainEnabled(s.r) {
      AllCarried(s);
      MainStepHistory(s, i);
      assert t.past[..|t.past| - 1] == s.past && t.mon.log[..t.mark] == s.mon.log;
    } else {
      StalledHistory(s, i);
      assert t.mon.log[..s.mark] == s.mon.log[..|s.mon.log|][..s.mark] == s.mon.log[..s.mark];
    }
    hide SysEdge, MainEnabled;
  }

  // ---- The asks in order, with loopback never and with loopback always selected.

  /** The status check of step k or an earlier one has found the link up and in block lock. */
  function Locked(past: seq<Took>, k: nat): bool
    requires k < |past|
  {
    k >= 10 && (Locked(past, k - 1) || ((k - 7) % 4 == 3 && past[k].data % 0x2_0000 == 0x1_1005))
  }

  /** Steps since the PCS reset was found cleared, up to step k. */
  function SinceCleared(past: seq<Took>, k: nat): nat
    requires k <= |past|
  {
    if k <= 8 then 0
    else if SinceCleared(past, k - 1) > 0 then SinceCleared(past, k - 1) + 1
    else if past[k - 1].data % 0x1_0000 == 0x2040 then 1 else 0
  }

  /** The three start-up writes, and an address operation that still carries the transmitter word. */
  function StartAsk(past: seq<Took>, k: nat): Ask
    requires k < |past| && k <= 3
  {
    if k == 0 then WriteTo(0x500, 0x45)
    else if k == 1 then WriteTo(0x404, RxWord(past[1]))
    else if k == 2 then WriteTo(0x408, TxWord(past[2]))
    else Operate(0, TxWord(past[2]), 0x504)
  }

  /**
    Without loopback: the PCS default is written twice and read back; then the status register 0x20 is
    addressed and read over and over, the data polled at 0x50C, until it shows lock.
   */
  function PlainAsk(past: seq<Took>, k: nat): Ask
    requires k < |past|
  {
    if k <= 3 then StartAsk(past, k)
    else if k <= 5 then Operate(1, 0x2000, 0x504)
    else if k == 6 then Operate(3, 0x20, 0x504)
    else if Locked(past, k) then Nothing
    else if (k - 7) % 4 == 0 then Operate(0, 0x20, 0x504)
    else Operate(3, 0x20, 0x50C)
  }

  /**
    With loopback: the PCS is reset and read until the reset has cleared, 0x2040; loopback is written twice,
    and read back for ever with the generator enabled.
   */
  function LoopAsk(past: seq<Took>, k: nat): Ask
    requires k < |past|
  {
    if k <= 3 then StartAsk(past, k)
    else if k == 4 then Operate(1, 0x8000, 0x504)
    else if k <= 6 then Operate(3, 0x8000, 0x504)
    else if SinceCleared(past, k) == 0 then Operate(3, 0x8000, 0x50C)
    else if SinceCleared(past, k) <= 2 then Operate(1, 0x4000, 0x504)
    else Operate(3, 0x4000, 0x504)
  }

  /**
    Step k asked as the script says; the generator is enabled exactly from the step it names on, and block lock
    claimed with the check that shows it; after a direct write nothing is ready and the data reads zero.
   */
  ghost predicate OnScript(loop: bool, past: seq<Took>, k: nat)
    requires k < |past|
  {
    && AskOf(past[k].asked) == (if loop then LoopAsk(past, k) else PlainAsk(past, k))
    && past[k].asked.enableGen == (if loop then SinceCleared(past, k) >= 3 else k >= 11 && Locked(past, k - 1))
    && past[k].asked.blockLock == (!loop && Locked(past, k))
    && (1 <= k <= 3 ==> past[k].data == 0 && !past[k].ready)
  }

  ghost predicate FollowsScript(loop: bool, past: seq<Took>)
  {
    forall k :: 0 <= k < |past| ==> OnScript(loop, past, k)
  }

  /** Where the main machine is after n steps without loopback. */
  predicate PlainAt(m: Main, n: nat, tx: nat, locked: bool)
  {
    && !m.loopDone && (n >= 4 && !locked ==> m.regAddr == 3) && (m.blockLock <==> locked)
    && if n == 0 then m.state == STARTUP && m.mdioOp == 0 && !m.enableGen
       else if n == 1 then m.state == RESET_MAC_RX && m.mdioOp == 0 && !m.enableGen
       else if n == 2 then m.state == RESET_MAC_TX && m.mdioOp == 0 && !m.enableGen
       else if n == 3 then m.state == MDIO_ADDR_1 && m.mdioOp == 0 && m.wrData == tx && !m.enableGen
       else if n == 4 then m.state == MDIO_ADDR_1 && m.mdioOp == 0 && !m.enableGen
       else if n == 5 then m.state == MDIO_WR && m.wrData == 0x2000 && m.addr == 0x504 && !m.enableGen
       else if n == 6 then m.state == MDIO_RD_1 && m.defaultDone && m.addr == 0x504 && !m.enableGen
       else if locked then m.state == CONFIG_DONE
       else
         && m.wrData == 0x20 && !m.enableGen
         && if (n - 7) % 4 == 0 then m.state == MDIO_ADDR
            else if (n - 7) % 4 == 1 then m.state == MDIO_RD
            else if (n - 7) % 4 == 2 then m.state == MDIO_POLL_CHECK && m.mdioOp == 3 && m.addr == 0x50C
            else m.state == MDIO_CHECK_DATA && m.mdioOp == 3 && m.addr == 0x50C
  }

  lemma PlainFirst(m: Main, n: nat, tx: nat, locked: bool, ready: bool, d: nat, i: Inputs)
    requires PlainAt(m, n, tx, locked) && n <= 6 && !locked && (n > 0 ==> ready == (n >= 4)) && !m.startMdio
      && !m.startAccess
    ensures var r := MainStep(m, ready, d, false, i); var t := Taken(m, ready, d, false, i);
      && PlainAt(r, n + 1, if n == 2 then TxWord(t) else tx, false)
      && AskOf(r) == if n == 0 then WriteTo(0x500, 0x45) else if n == 1 then WriteTo(0x404, RxWord(t))
                     else if n == 2 then WriteTo(0x408, TxWord(t)) else if n == 3 then Operate(0, tx, 0x504)
                     else if n <= 5 then Operate(1, 0x2000, 0x504) else Operate(3, 0x20, 0x504)
  {
  }

  lemma PlainLater(m: Main, n: nat, tx: nat, locked: bool, ready: bool, d: nat, i: Inputs)
    requires PlainAt(m, n, tx, locked) && n >= 7 && (!locked ==> ready) && !m.startMdio && !m.startAccess
    ensures var r := MainStep(m, ready, d, false, i);
      var now := locked || ((n - 7) % 4 == 3 && d % 0x2_0000 == 0x1_1005);
      && PlainAt(r, n + 1, tx, now) && (locked ==> r.enableGen) && (!locked ==> r.enableGen == m.enableGen)
      && AskOf(r) == if now then Nothing else if (n - 7) % 4 == 0 then Operate(0, 0x20, 0x504)
                     else Operate(3, 0x20, 0x50C)
  {
  }

  /** Where it is after n steps with loopback; `since` are the steps since the reset was found cleared. */
  predicate LoopAt(m: Main, n: nat, tx: nat, since: nat)
  {
    && (m.enableGen <==> since >= 4) && (n >= 4 ==> m.regAddr == 3) && !m.blockLock
    && if n == 0 then m.state == STARTUP && m.mdioOp == 0
       else if n == 1 then m.state == RESET_MAC_RX && m.mdioOp == 0
       else if n == 2 then m.state == RESET_MAC_TX && m.mdioOp == 0
       else if n == 3 then m.state == MDIO_ADDR_1 && m.mdioOp == 0 && m.wrData == tx
       else if n == 4 then m.state == MDIO_ADDR_1 && m.mdioOp == 0
       else if n == 5 then m.state == MDIO_READ_PCS_RESET && m.wrData == 0x8000 && m.addr == 0x504
       else if n == 6 then m.state == MDIO_READ_PCS_RESET_POLL && m.wrData == 0x8000 && m.addr == 0x504
       else if n == 7 then m.state == MDIO_READ_PCS_RESET_READ && m.wrData == 0x8000
       else if since == 0 then m.state == MDIO_RESET_CHECK && m.wrData == 0x8000 && m.mdioOp == 3 && m.addr == 0x50C
       else if since == 1 then m.state == MDIO_ADDR_2
       else m.wrData == 0x4000 && m.addr == 0x504 &&
            if since == 2 then m.state == MDIO_WR else m.state == MDIO_RD_1 && m.loopDone
  }

  lemma LoopFirst(m: Main, n: nat, tx: nat, ready: bool, d: nat, i: Inputs)
    requires LoopAt(m, n, tx, 0) && n <= 7 && (n > 0 ==> ready == (n >= 4)) && !m.startMdio && !m.startAccess
    ensures var r := MainStep(m, ready, d, true, i); var t := Taken(m, ready, d, true, i);
      && LoopAt(r, n + 1, if n == 2 then TxWord(t) else tx, 0) && !r.enableGen
      && AskOf(r) == if n == 0 then WriteTo(0x500, 0x45) else if n == 1 then WriteTo(0x404, RxWord(t))
                     else if n == 2 then WriteTo(0x408, TxWord(t)) else if n == 3 then Operate(0, tx, 0x504)
                     else if n == 4 then Operate(1, 0x8000, 0x504)
                     else if n <= 6 then Operate(3, 0x8000, 0x504) else Operate(3, 0x8000, 0x50C)
  {
  }

  lemma LoopLater(m: Main, n: nat, tx: nat, since: nat, ready: bool, d: nat, i: Inputs)
    requires LoopAt(m, n, tx, since) && n >= 8 && ready && !m.startMdio && !m.startAccess
    ensures var r := MainStep(m, ready, d, true, i);
      && LoopAt(r, n + 1, tx, if since > 0 then since + 1 else if d % 0x1_0000 == 0x2040 then 1 else 0)
      && (r.enableGen <==> since >= 3)
      && AskOf(r) == if since == 0 then Operate(3, 0x8000, 0x50C) else if since <= 2 then Operate(1, 0x4000, 0x504)
                     else Operate(3, 0x4000, 0x504)
  {
  }

  // ---- The scripts over whole runs.

  lemma {:induction false} LockedStays(past: seq<Took>, now: Took, k: nat)
    requires k < |past|
    ensures Locked(past + [now], k) == Locked(past, k)
    decreases k
  {
    if k >= 10 { LockedStays(past, now, k - 1); }
  }

  lemma {:induction false} ClearedStays(past: seq<Took>, now: Took, k: nat)
    requires k <= |past|
    ensures SinceCleared(past + [now], k) == SinceCleared(past, k)
    decreases k
  {
    if k > 8 {
      ClearedStays(past, now, k - 1);
      assert (past + [now])[k - 1] == past[k - 1];
    }
  }

  lemma OnScriptStays(loop: bool, past: seq<Took>, now: Took, k: nat)
    requires k < |past| && OnScript(loop, past, k)
    ensures OnScript(loop, past + [now], k)
  {
    LockedStays(past, now, k);
    if k > 0 { LockedStays(past, now, k - 1); }
    ClearedStays(past, now, k);
    assert forall j :: 0 <= j < |past| ==> (past + [now])[j] == past[j];
    hide Locked, SinceCleared;
  }

  lemma ScriptGrows(loop: bool, past: seq<Took>, now: Took)
    requires FollowsScript(loop, past) && OnScript(loop, past + [now], |past|)
    ensures FollowsScript(loop, past + [now])
  {
    hide OnScript;
    var more := past + [now];
    forall k | 0 <= k < |more| ensures OnScript(loop, more, k) {
      if k < |past| {
        assert OnScript(loop, past, k);
        OnScriptStays(loop, past, now, k);
      }
    }
  }

  function TxOf(past: seq<Took>): nat { if |past| >= 3 then TxWord(past[2]) else 0 }

  /** The main machine is where the script has it. */
  ghost predicate At(loop: bool, m: Main, past: seq<Took>)
  {
    var n := |past|;
    if loop then LoopAt(m, n, TxOf(past), SinceCleared(past, n))
    else PlainAt(m, n, TxOf(past), n > 0 && Locked(past, n - 1))
  }

  lemma AtDropped(loop: bool, m: Main, past: seq<Took>)
    requires At(loop, m, past)
    ensures At(loop, Dropped(m), past)
  {
  }

  lemma PlainStepFirst(m: Main, past: seq<Took>, ready: bool, d: nat, i: Inputs)
    requires At(false, m, past) && !m.startMdio && !m.startAccess && |past| <= 6
      && (|past| > 0 ==> ready == (|past| >= 4))
    requires 1 <= |past| <= 3 ==> d == 0
    ensures var t := Taken(m, ready, d, false, i);
      At(false, t.asked, past + [t]) && OnScript(false, past + [t], |past|)
  {
    var n, t := |past|, Taken(m, ready, d, false, i);
    assert (past + [t])[n] == t && (n > 2 ==> (past + [t])[2] == past[2]);
    PlainFirst(m, n, TxOf(past), false, ready, d, i);
    hide MainStep, AskOf;
  }

  lemma NotYet(past: seq<Took>, k: nat)
    requires k < |past| && k < 10
    ensures !Locked(past, k)
  {
  }

  /** The status check as it extends the history. */
  lemma LockedNext(past: seq<Took>, now: Took)
    requires |past| >= 7
    ensures var n, more := |past|, past + [now];
      && Locked(more, n) == (Locked(past, n - 1) || ((n - 7) % 4 == 3 && now.data % 0x2_0000 == 0x1_1005))
      && Locked(more, n - 1) == Locked(past, n - 1) && (Locked(past, n - 1) ==> n >= 11)
  {
    var n, more := |past|, past + [now];
    LockedStays(past, now, n - 1);
    assert more[n] == now;
    if n < 11 { NotYet(past, n - 1); }
  }

  lemma PlainStepLater(m: Main, past: seq<Took>, ready: bool, d: nat, i: Inputs)
    requires At(false, m, past) && !m.startMdio && !m.startAccess && |past| >= 7
    requires !Locked(past, |past| - 1) ==> ready
    ensures var t := Taken(m, ready, d, false, i);
      At(false, t.asked, past + [t]) && OnScript(false, past + [t], |past|)
  {
    hide MainStep, Locked, AskOf;
    var n, t := |past|, Taken(m, ready, d, false, i);
    var more, locked := past + [t], Locked(past, n - 1);
    assert more[n] == t && more[2] == past[2];
    LockedNext(past, t);
    PlainLater(m, n, TxOf(past), locked, ready, d, i);
    assert !locked ==> !m.enableGen;
    hide PlainAt, TxOf;
  }

  /** A step from where the script has the machine asks what the script says, and goes where it has it next. */
  lemma PlainStep(m: Main, past: seq<Took>, ready: bool, d: nat, i: Inputs)
    requires At(false, m, past) && !m.startMdio && !m.startAccess
    requires var n := |past|; if n <= 6 then n > 0 ==> ready == (n >= 4) else !Locked(past, n - 1) ==> ready
    requires 1 <= |past| <= 3 ==> d == 0
    ensures var t := Taken(m, ready, d, false, i);
      At(false, t.asked, past + [t]) && OnScript(false, past + [t], |past|)
  {
    hide At, OnScript, Taken;
    if |past| <= 6 { PlainStepFirst(m, past, ready, d, i); } else { PlainStepLater(m, past, ready, d, i); }
  }

  lemma LoopStep(m: Main, past: seq<Took>, ready: bool, d: nat, i: Inputs)
    requires At(true, m, past) && !m.startMdio && !m.startAccess
    requires var n := |past|; if n <= 6 then n > 0 ==> ready == (n >= 4) else ready
    requires 1 <= |past| <= 3 ==> d == 0
    ensures var t := Taken(m, ready, d, true, i);
      At(true, t.asked, past + [t]) && OnScript(true, past + [t], |past|)
  {
    var n, t := |past|, Taken(m, ready, d, true, i);
    var more := past + [t];
    assert more[n] == t && (n > 2 ==> more[2] == past[2]);
    ClearedStays(past, t, n);
    var since := SinceCleared(past, n);
    assert SinceCleared(more, n + 1) ==
      if n < 8 then 0 else if since > 0 then since + 1 else if d % 0x1_0000 == 0x2040 then 1 else 0;
    if n <= 7 {
      assert since == 0;
      LoopFirst(m, n, TxOf(past), ready, d, i);
    } else {
      LoopLater(m, n, TxOf(past), since, ready, d, i);
    }
    hide MainStep, SinceCleared, AskOf;
  }

  /** What holds at every point of a run with loopback never, or always, selected. */
  ghost predicate Scripted(loop: bool, s: Sys)
  {
    Inv(s) && Told(s) && s.r.loopReg == loop && FollowsScript(loop, s.past) && At(loop, s.r.main, s.past)
  }

  /** At a main step the ready bit is what the last ask makes it. */
  lemma ReadyAfter(loop: bool, s: Sys)
    requires Scripted(loop, s) && MainEnabled(s.r) && s.past != []
    ensures var last := AskOf(s.past[|s.past| - 1].asked);
      && (last.Operate? ==> s.r.rd.mdioReady) && (last.WriteTo? ==> !s.r.rd.mdioReady && s.r.rd.data == 0)
  {
    hide FollowsScript, At, Carried, Channels, Ordered, Polled, Polling, ReadyBit, Op;
    if s.kind == Mdio { OperationReady(s); }
  }

  lemma LastAsk(loop: bool, past: seq<Took>)
    requires FollowsScript(loop, past) && past != []
    ensures var n := |past|; var last := AskOf(past[n - 1].asked);
      && (n <= 3 ==> last.WriteTo?) && (4 <= n && (loop || n <= 7 || !Locked(past, n - 1)) ==> last.Operate?)
  {
    assert OnScript(loop, past, |past| - 1);
    hide Locked, SinceCleared, AskOf;
  }

  lemma ScriptMain(loop: bool, s: Sys, i: Inputs)
    requires Scripted(loop, s) && MainEnabled(s.r) && i.resetN
    ensures var t := SysEdge(s, i); FollowsScript(loop, t.past) && At(loop, t.r.main, t.past)
  {
    hide Told, SysEdge, At, OnScript, FollowsScript, MainStep, Locked, SinceCleared;
    MainStepHistory(s, i);
    var n, m, ready, d := |s.past|, s.r.main, s.r.rd.mdioReady, s.r.rd.data;
    var t := Taken(m, ready, d, loop, i);
    if n > 0 {
      ReadyAfter(loop, s);
      LastAsk(loop, s.past);
    }
    hide Inv, MainEnabled;
    if loop {
      LoopStep(m, s.past, ready, d, i);
    } else {
      PlainStep(m, s.past, ready, d, i);
    }
    ScriptGrows(loop, s.past, t);
  }

  lemma LoopRegIs(s: Sys, i: Inputs)
    ensures SysEdge(s, i).r.loopReg == i.pcsLoopback
  {
  }

  lemma ScriptEdge(loop: bool, s: Sys, i: Inputs)
    requires Scripted(loop, s) && i.resetN && i.pcsLoopback == loop
    ensures Scripted(loop, SysEdge(s, i))
  {
    EdgeKeeps(s, i);
    ToldStep(s, i);
    if MainEnabled(s.r) {
      ScriptMain(loop, s, i);
    } else {
      StalledHistory(s, i);
      AtDropped(loop, s.r.main, s.past);
    }
    LoopRegIs(s, i);
    hide Inv, Told, SysEdge, At, FollowsScript, MainEnabled;
  }

  lemma ScriptStarts(loop: bool, r: Regs, first: Inputs)
    requires JustReset(r) && r.loopReg == loop && first.resetN && first.pcsLoopback == loop
    ensures Scripted(loop, AfterFirst(r, first))
  {
    FirstEdge(r, first);
    var s := AfterFirst(r, first);
    var m, ready, d := r.main, r.rd.mdioReady, r.rd.data;
    var t := Taken(m, ready, d, loop, first);
    assert s.past == [] + [t] && s.past[..0] == [] && s.mon.log[..0] == [];
    if loop {
      LoopStep(m, [], ready, d, first);
    } else {
      PlainStep(m, [], ready, d, first);
    }
    ScriptGrows(loop, [], t);
    hide Inv, At, FollowsScript, OnScript;
  }

  /**
    The whole bring-up with loopback never, or always, selected, for any slave: after any reset the main
    machine asks what the script says, step by step, and whenever it can step the bus has carried out all
    that was asked and nothing else.
   */
  lemma {:induction false} BringUpScript(loop: bool, r: Regs, first: Inputs, ins: seq<Inputs>)
    requires JustReset(r) && r.loopReg == loop && first.resetN && first.pcsLoopback == loop
    requires forall k :: 0 <= k < |ins| ==> ins[k].resetN && ins[k].pcsLoopback == loop
    ensures var s := Run(AfterFirst(r, first), ins);
      Scripted(loop, s) && FollowsScript(loop, s.past) && (MainEnabled(s.r) ==> Carried(s.mon.log, s.past))
    decreases |ins|
  {
    hide Inv, SysEdge, At, FollowsScript, Told, MainEnabled, Carried;
    var s := Run(AfterFirst(r, first), ins);
    if ins == [] {
      ScriptStarts(loop, r, first);
    } else {
      var n := |ins| - 1;
      BringUpScript(loop, r, first, ins[..n]);
      ScriptEdge(loop, Run(AfterFirst(r, first), ins[..n]), ins[n]);
    }
    if MainEnabled(s.r) { AllCarried(s); }
  }

  // ---- Where switching loopback in between leads.

  /** Selected after the bring-up, it restarts the reset of the transmitter with a stray read. */
  lemma LoopbackAfterDone(m: Main, ready: bool, d: nat, i: Inputs)
    requires m.state == CONFIG_DONE
    ensures MainStep(m, ready, d, true, i) == m.(startAccess := true, state := RESET_MAC_TX, defaultDone := false)
  {
  }

  /** Dropped once the generator runs in loopback, it leads back to the address operation, or to the status check. */
  lemma LoopbackDropped(m: Main, d: nat, i: Inputs)
    requires m.state == MDIO_RD_1
    ensures var r := MainStep(m, true, d, false, i);
      && !r.loopDone && !r.blockLock && r.startMdio && r.driveMdio && r.mdioOp == 3
      && r.state == (if m.defaultDone then MDIO_ADDR else MDIO_ADDR_1)
        && r.wrData == (if m.defaultDone then 0x20 else 0)
      && r.enableGen == m.enableGen && r.defaultDone == m.defaultDone && r.addr == m.addr
  {
  }

  /** The write that follows the PCS reset goes by loopback as it is then, and is recorded as it is after it. */
  lemma LoopbackInBetween(m: Main, d: nat, loop: bool, i: Inputs)
    ensures m.state == MDIO_ADDR_2 ==>
      var r := MainStep(m, true, d, loop, i);
      r.state == MDIO_WR && AskOf(r) == Operate(1, if loop then 0x4000 else 0x2000, 0x504)
    ensures m.state == MDIO_WR ==>
      var r := MainStep(m, true, d, loop, i);
      && r.state == MDIO_RD_1 && r.loopDone == (loop || m.loopDone) && r.defaultDone == (!loop || m.defaultDone)
      && AskOf(r) == Operate(1, m.wrData, m.addr)
  {
  }
}
