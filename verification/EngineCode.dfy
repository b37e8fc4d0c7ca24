/**
  What a service call does in plain terms, bit by bit and count by count, and the engine as code: its fields
  and the driver functions that change them.
 */
module EngineCode {
  import opened Words
  import opened EngineQueue

  // ---- What is counted.

  /** The count ends on or in one of the queued transfers, and does not run past them all. */
  predicate EndsWithin(nums: seq<nat>, c: nat) { Leaves(nums, c) > 0 && c <= End(nums, Leaves(nums, c)) }

  /** The progress that the i-th transfer to leave records: the one in which the count ends, how far it got. */
  function Progress(nums: seq<nat>, c: nat, err: bool, i: nat, before: nat): int
    requires i < |nums|
  {
    if i == Leaves(nums, c) - 1 && EndsWithin(nums, c) && !err then c - End(nums, i) else before
  }

  /** The descriptors that are dequeued: of all that leave, but for the one an error fails. */
  function Dequeued(nums: seq<nat>, c: nat, err: bool): nat
  {
    End(nums, if EndsWithin(nums, c) && err then Leaves(nums, c) - 1 else Leaves(nums, c))
  }

  ghost predicate Accounted(s: Eng, c: nat, err: bool, r: Eng)
    requires Queued(s)
  {
    var nums := Nums(s);
    && |r.xfers| == |s.xfers|
    && r.dequeued == s.dequeued + Dequeued(nums, c, err)
    && (r.running <==> s.running && !(EndsWithin(nums, c) && err))
    && forall i :: 0 <= i < Leaves(nums, c) ==>
         r.xfers[s.list[i]].descCmpl == Progress(nums, c, err, i, s.xfers[s.list[i]].descCmpl)
  }

  lemma FinalAccounts(s: Eng, c: nat)
    requires Queued(s) && Distinct(s.list)
    requires s.list == [] || c <= s.xfers[s.list[0]].descNum
    ensures Accounted(s, c, HasError(s.toDevice, s.status), Final(s, c))
  {
    hide HasError;
    var nums := Nums(s);
    assert End(nums, 0) == 0;
    if s.list != [] {
      assert End(nums, 1) == End(nums, 0) + nums[0];
      assert Leaves(nums, c) == 1;
    } else {
      assert nums == [];
    }
  }

  lemma WithinTail(nums: seq<nat>, c: nat)
    requires nums != [] && c > nums[0]
    ensures Leaves(nums, c) == 1 + Leaves(nums[1..], c - nums[0])
    ensures EndsWithin(nums, c) == EndsWithin(nums[1..], c - nums[0])
    ensures forall k :: 0 < k <= |nums| ==> End(nums, k) == nums[0] + End(nums[1..], k - 1)
  {
    forall k | 0 < k <= |nums| ensures End(nums, k) == nums[0] + End(nums[1..], k - 1) { EndTail(nums, k); }
    assert End(nums[1..], 0) == 0;
  }

  lemma TailProgress(nums: seq<nat>, c: nat, err: bool, i: nat, before: nat)
    requires i < |nums| && c > nums[0]
    ensures i > 0 ==> Progress(nums, c, err, i, before) == Progress(nums[1..], c - nums[0], err, i - 1, before)
    ensures i == 0 ==> Progress(nums, c, err, i, before) == before
    ensures Dequeued(nums, c, err) == nums[0] + Dequeued(nums[1..], c - nums[0], err)
  {
    WithinTail(nums, c);
    hide Leaves;
  }

  lemma PopAccountsOne(s: Eng, c: nat, err: bool, t: Eng, r: Eng, i: nat)
    requires Popped(s, c, t, r) && Accounted(t, c - s.xfers[s.list[0]].descNum, err, r) && i < Leaves(Nums(s), c)
    ensures r.xfers[s.list[i]].descCmpl == Progress(Nums(s), c, err, i, s.xfers[s.list[i]].descCmpl)
  {
    hide HasError, Fate, EndsWithin;
    PoppedLeaves(s, c, t, r);
    TailProgress(Nums(s), c, err, i, s.xfers[s.list[i]].descCmpl);
    hide Progress, Leaves;
    if i > 0 { assert s.list[i] == t.list[i - 1] && s.list[i] != s.list[0]; }
  }

  lemma PopAccounts(s: Eng, c: nat, err: bool, t: Eng, r: Eng)
    requires Popped(s, c, t, r) && Accounted(t, c - s.xfers[s.list[0]].descNum, err, r)
    ensures Accounted(s, c, err, r)
  {
    hide HasError, Fate, Progress, Leaves, EndsWithin, Dequeued, End;
    assert Nums(s)[0] == s.xfers[s.list[0]].descNum;
    WithinTail(Nums(s), c);
    TailProgress(Nums(s), c, err, 0, 0);
    forall i | 0 <= i < Leaves(Nums(s), c)
      ensures r.xfers[s.list[i]].descCmpl == Progress(Nums(s), c, err, i, s.xfers[s.list[i]].descCmpl)
    {
      PopAccountsOne(s, c, err, t, r, i);
    }
    hide Settled;
  }

  lemma {:induction false} BatchAccounts(s: Eng, c: nat)
    requires Queued(s) && Distinct(s.list)
    ensures var (u, d) := PopDone(s, c); Accounted(s, c, HasError(s.toDevice, s.status), Final(u, d))
    decreases |s.list|
  {
    hide Accounted, Nums, Final, HasError, Settled;
    if s.list != [] && c > s.xfers[s.list[0]].descNum {
      var x := s.xfers[s.list[0]];
      var t := Finish(s, Completed, x.descCmpl, x.descNum);
      FinishHead(s, Completed, x.descCmpl, x.descNum);
      BatchAccounts(t, c - x.descNum);
      BatchSettles(t, c - x.descNum);
      var (u, d) := PopDone(t, c - x.descNum);
      PopAccounts(s, c, HasError(s.toDevice, s.status), t, Final(u, d));
    } else {
      FinalAccounts(s, c);
    }
  }

  // ---- The bits of the status register.

  /**
    Alignment, magic and length errors (bits 3 to 5), read errors (9, 10), descriptor read errors (19 to 23); to
    the device also the further read errors (11 to 13) and the write errors (14, 15).
   */
  predicate ShowsError(toDevice: bool, st: bv32)
  {
    || st & 0x0000_0008 != 0 || st & 0x0000_0010 != 0 || st & 0x0000_0020 != 0
    || st & 0x0000_0200 != 0 || st & 0x0000_0400 != 0
    || st & 0x0008_0000 != 0 || st & 0x0010_0000 != 0 || st & 0x0020_0000 != 0
    || st & 0x0040_0000 != 0 || st & 0x0080_0000 != 0
    || (toDevice && (|| st & 0x0000_0800 != 0 || st & 0x0000_1000 != 0 || st & 0x0000_2000 != 0
                     || st & 0x0000_4000 != 0 || st & 0x0000_8000 != 0))
  }

  lemma ErrorBits(toDevice: bool, st: bv32)
    ensures HasError(toDevice, st) <==> ShowsError(toDevice, st)
  {
  }

  // ---- A service call.

  /** The write-back word counts in its low 24 bits and shows an error in its top one. */
  function Counted(hw: Hw): nat { if hw.writeback % 0x100_0000 == 0 then hw.count else hw.writeback % 0x100_0000 }

  /** The status the call goes by: read anew unless the write-back word carries a count and no error. */
  function StatusSeen(s: Eng, hw: Hw): bv32
  {
    if hw.writeback % 0x100_0000 == 0 || hw.writeback >= 0x8000_0000 then hw.status else s.status
  }

  /** The hardware is still at work: busy, and no count was written back. */
  predicate StillBusy(s: Eng, hw: Hw) { StatusSeen(s, hw) & 1 != 0 && hw.writeback % 0x100_0000 == 0 }

  /** What is left of the queue is restarted, unless the engine is still at work. */
  ghost predicate Resumed(still: bool, st: bv32, restart: bv32, dequeued: nat, r: Eng)
  {
    if still then r.running == (r.list != []) && r.status == st && r.dequeued == dequeued
    else if r.list != [] then r.running && r.status == restart && r.dequeued == 0
    else !r.running && r.status == st && r.dequeued == dequeued
  }

  /** A service call on a running engine, in plain terms. */
  ghost predicate Serviced(s: Eng, hw: Hw, r: Eng)
    requires Queued(s)
  {
    var nums, st := Nums(s), StatusSeen(s, hw);
    var err := ShowsError(s.toDevice, st);
    var c := (Counted(hw) - s.dequeued) % 0x1_0000_0000;
    if Counted(hw) == 0 then r == s.(status := st, running := StillBusy(s, hw))
    else
      && r.list == s.list[Leaves(nums, c)..] && |r.xfers| == |s.xfers|
      && (forall i :: 0 <= i < |s.list| ==> r.xfers[s.list[i]].state == Fate(nums, c, err, i))
      && (forall i :: 0 <= i < Leaves(nums, c) ==>
            r.xfers[s.list[i]].descCmpl == Progress(nums, c, err, i, s.xfers[s.list[i]].descCmpl))
      && (forall id :: 0 <= id < |s.xfers| && (id !in s.list || id in r.list) ==> r.xfers[id] == s.xfers[id])
      && Resumed(StillBusy(s, hw) && !(EndsWithin(nums, c) && err), st, hw.restartStatus,
                 s.dequeued + Dequeued(nums, c, err), r)
  }

  lemma SampledIs(s: Eng, hw: Hw)
    requires s.running
    ensures Sampled(s, hw) == s.(status := StatusSeen(s, hw), running := StillBusy(s, hw))
    ensures RawCount(hw) == Counted(hw) && NewCount(s, hw) == (Counted(hw) - s.dequeued) % 0x1_0000_0000
  {
  }

  lemma ResumedBy(q: Eng, st: bv32, restart: bv32, dequeued: nat)
    requires q.status == st && q.dequeued == dequeued && !q.request
    ensures var r := Resume(q, restart);
      Resumed(q.running, st, restart, dequeued, r) && r.list == q.list && r.xfers == q.xfers
  {
  }

  lemma SettledPlainly(s: Eng, c: nat, r: Eng)
    requires Consistent(s) && Settled(s, c, r)
    ensures var nums := Nums(s);
      && r.list == s.list[Leaves(nums, c)..] && |r.xfers| == |s.xfers| && r.status == s.status && r.request == s.request
      && (forall i :: 0 <= i < |s.list| ==>
            r.xfers[s.list[i]].state == Fate(nums, c, HasError(s.toDevice, s.status), i))
      && (forall id :: 0 <= id < |s.xfers| && (id !in s.list || id in r.list) ==> r.xfers[id] == s.xfers[id])
  {
    SettledFates(s, c, r);
    hide HasError, Fate, Leaves, Nums, Consistent;
  }

  /** The state that loop and final step leave, with the status seen and the error read off its bits. */
  ghost predicate Settles(s: Eng, c: nat, st: bv32, still: bool, err: bool, q: Eng)
    requires Queued(s)
  {
    var nums := Nums(s);
    && q.list == s.list[Leaves(nums, c)..] && |q.xfers| == |s.xfers| && q.status == st && !q.request
    && (forall i :: 0 <= i < |s.list| ==> q.xfers[s.list[i]].state == Fate(nums, c, err, i))
    && (forall i :: 0 <= i < Leaves(nums, c) ==>
          q.xfers[s.list[i]].descCmpl == Progress(nums, c, err, i, s.xfers[s.list[i]].descCmpl))
    && (forall id :: 0 <= id < |s.xfers| && (id !in s.list || id in q.list) ==> q.xfers[id] == s.xfers[id])
    && q.dequeued == s.dequeued + Dequeued(nums, c, err) && q.running == (still && !(EndsWithin(nums, c) && err))
  }

  lemma SameQueue(s: Eng, t: Eng)
    requires Inv(s) && t == s.(status := t.status, running := t.running)
    ensures Queued(s) && Queued(t) && Nums(t) == Nums(s) && Consistent(t) && Distinct(t.list)
      && !s.request == !t.request
    ensures s.running ==> !t.request
  {
  }

  lemma SettlesBy(s: Eng, t: Eng, c: nat)
    requires Inv(s) && s.running && t == s.(status := t.status, running := t.running)
    ensures var (u, d) := PopDone(t, c);
      Queued(s) && Settles(s, c, t.status, t.running, ShowsError(s.toDevice, t.status), Final(u, d))
  {
    hide HasError, ShowsError, Fate, Leaves, Progress, Dequeued, EndsWithin, Settled, PopDone, Final;
    ErrorBits(t.toDevice, t.status);
    SameQueue(s, t);
    BatchSettles(t, c);
    BatchAccounts(t, c);
    var (u, d) := PopDone(t, c);
    SettledPlainly(t, c, Final(u, d));
    hide Nums, Consistent, Inv;
  }

  lemma Assembled(s: Eng, hw: Hw, c: nat, q: Eng)
    requires Queued(s) && Counted(hw) != 0 && c == (Counted(hw) - s.dequeued) % 0x1_0000_0000
    requires Settles(s, c, StatusSeen(s, hw), StillBusy(s, hw), ShowsError(s.toDevice, StatusSeen(s, hw)), q)
    ensures Serviced(s, hw, Resume(q, hw.restartStatus))
  {
    hide Resume, Resumed, Counted, StatusSeen, StillBusy, ShowsError, Fate, Leaves, Progress, Dequeued, EndsWithin,
        Nums;
    var err := ShowsError(s.toDevice, StatusSeen(s, hw));
    ResumedBy(q, StatusSeen(s, hw), hw.restartStatus, s.dequeued + Dequeued(Nums(s), c, err));
  }

  lemma ServicedBy(s: Eng, hw: Hw)
    requires Inv(s) && s.running
    ensures Queued(s) && Serviced(s, hw, Service(s, hw))
  {
    SampledIs(s, hw);
    var t, c := Sampled(s, hw), NewCount(s, hw);
    assert Queued(s);
    hide Sampled, RawCount, Counted, NewCount, StatusSeen, StillBusy, ShowsError, Settles, PopDone, Final, Resume, Inv;
    if RawCount(hw) != 0 {
      SettlesBy(s, t, c);
      var (u, d) := PopDone(t, c);
      Assembled(s, hw, c, Final(u, d));
      hide Serviced;
    }
  }

  lemma FateOfError(nums: seq<nat>, c: nat, i: nat)
    requires i < |nums| && (i == 0 || End(nums, i) < c) && c <= End(nums, i + 1)
    ensures Fate(nums, c, true, i) == Failed
  {
  }

  lemma ServicedState(s: Eng, hw: Hw, r: Eng, i: nat)
    requires Queued(s) && Serviced(s, hw, r) && Counted(hw) != 0 && i < |s.list|
    ensures |r.xfers| == |s.xfers|
    ensures r.xfers[s.list[i]].state ==
      Fate(Nums(s), (Counted(hw) - s.dequeued) % 0x1_0000_0000, ShowsError(s.toDevice, StatusSeen(s, hw)), i)
  {
    hide ShowsError, StatusSeen, Counted, Fate, Progress, Resumed, Leaves, Dequeued, EndsWithin, StillBusy;
  }

  /** A transfer in which the count ends fails if the status shows any one error bit. */
  lemma ErrorFails(s: Eng, hw: Hw, i: nat)
    requires Inv(s) && s.running && Counted(hw) != 0 && ShowsError(s.toDevice, StatusSeen(s, hw)) && i < |s.list|
    requires var c := (Counted(hw) - s.dequeued) % 0x1_0000_0000;
      (i == 0 || End(Nums(s), i) < c) && c <= End(Nums(s), i + 1)
    ensures var r := Service(s, hw); |r.xfers| == |s.xfers| && r.xfers[s.list[i]].state == Failed
  {
    hide ShowsError, StatusSeen, Service, Counted, Fate, Serviced, End, Nums, Inv;
    ServicedBy(s, hw);
    ServicedState(s, hw, Service(s, hw), i);
    FateOfError(Nums(s), (Counted(hw) - s.dequeued) % 0x1_0000_0000, i);
  }

  /** Some transfers have left the front of the queue, and what is left of the count is not past the next one. */
  ghost predicate PopsDone(s: Eng, r: Eng, left: nat)
    requires Queued(s)
  {
    && |r.list| <= |s.list| && r.list == s.list[|s.list| - |r.list|..] && |r.xfers| == |s.xfers|
    && r == s.(list := r.list, xfers := r.xfers, dequeued := r.dequeued)
    && (r.list != [] ==> r.list[0] < |r.xfers| && left <= r.xfers[r.list[0]].descNum)
  }

  lemma PopsMore(s: Eng, t: Eng, r: Eng, left: nat)
    requires Queued(s) && Queued(t) && s.list != [] && t.list == s.list[1..] && |t.xfers| == |s.xfers|
    requires t == s.(list := t.list, xfers := t.xfers, dequeued := t.dequeued) && PopsDone(t, r, left)
    ensures PopsDone(s, r, left)
  {
    assert t.list[|t.list| - |r.list|..] == s.list[|s.list| - |r.list|..];
  }

  lemma PopsNone(s: Eng, c: nat)
    requires Queued(s) && (s.list == [] || c <= s.xfers[s.list[0]].descNum)
    ensures PopsDone(s, s, c)
  {
    assert s.list[0..] == s.list;
  }

  lemma {:induction false} PopShape(s: Eng, c: nat)
    requires Queued(s)
    ensures var (u, d) := PopDone(s, c); PopsDone(s, u, d)
    decreases |s.list|
  {
    hide PopsDone;
    if s.list != [] && c > s.xfers[s.list[0]].descNum {
      var x := s.xfers[s.list[0]];
      var t := Finish(s, Completed, x.descCmpl, x.descNum);
      assert t == s.(list := t.list, xfers := t.xfers, dequeued := t.dequeued) && |t.xfers| == |s.xfers|;
      hide Finish, Queued;
      PopShape(t, c - x.descNum);
      var (u, d) := PopDone(t, c - x.descNum);
      PopsMore(s, t, u, d);
    } else {
      PopsNone(s, c);
    }
  }

  // ---- The code.

  class XdmaEngine {
    const toDevice: bool
    var running: bool
    var request: bool
    var idle: bool
    var dequeued: nat
    var status: bv32
    var list: seq<nat>
    var xfers: seq<Xfer>

    ghost function View(): Eng
      reads this
    {
      Eng(toDevice, running, request, idle, dequeued, status, list, xfers)
    }

    constructor (toDevice: bool)
      ensures View() == Fresh(toDevice) && Inv(View())
    {
      this.toDevice := toDevice;
      running, request, idle, dequeued, status, list, xfers := false, false, false, 0, 0, [], [];
    }

    /** engine_start; hwStatus is what the status register reads. */
    method Start(hwStatus: bv32) returns (ok: bool)
      modifies this
      ensures ok <==> !old(running) && old(list) != []
      ensures View() == if ok then Started(old(View()), hwStatus) else old(View())
      ensures ok ==> running && !request && !idle && dequeued == 0 && status == hwStatus
      ensures list == old(list) && xfers == old(xfers)
    {
      if running { return false; }
      if list == [] { return false; }
      request, idle := false, false;
      dequeued := 0;
      status := hwStatus;
      running := true;
      ok := true;
    }

    /** transfer_queue; flagSeen is the device's OFFLINE flag as read before the lock was taken. */
    method TransferQueue(descNum: nat, flagSeen: bool, hwStatus: bv32) returns (rv: int)
      requires Inv(View())
      modifies this
      ensures Inv(View()) && Evolves(old(View()), View())
      ensures View() == Queue(old(View()), descNum, flagSeen, hwStatus)
      ensures rv == if descNum == 0 then -22 else if flagSeen || old(request) then -16 else 0
      ensures rv != 0 ==> View() == old(View())
      ensures rv == 0 ==>
        && list == old(list) + [|old(xfers)|] && xfers == old(xfers) + [Xfer(descNum, Submitted, 0)] && running
        && (old(running) ==> View() == old(View()).(list := list, xfers := xfers))
        && (!old(running) ==> !request && !idle && dequeued == 0 && status == hwStatus)
    {
      QueueKeeps(View(), descNum, flagSeen, hwStatus);
      if descNum == 0 { return -EINVAL; }
      if flagSeen { return -EBUSY; }
      if request { return -EBUSY; }
      xfers, list := xfers + [Xfer(descNum, Submitted, 0)], list + [|xfers|];
      if !running {
        var ok := Start(hwStatus);
      }
      rv := 0;
    }

    /** engine_service_transfer_list: complete all transfers before the one the count ends in. */
    method ServiceTransferList(count: nat) returns (left: nat)
      requires Queued(View())
      modifies this
      ensures (View(), left) == PopDone(old(View()), count)
      ensures PopsDone(old(View()), View(), left)
    {
      ghost var s := View();
      hide PopsDone;
      left := count;
      while list != [] && left > xfers[list[0]].descNum
        invariant Queued(View())
        invariant PopDone(View(), left) == PopDone(old(View()), count)
        decreases |list|
      {
        var id := list[0];
        var n := xfers[id].descNum;
        left := left - n;
        list := list[1..];
        dequeued := dequeued + n;
        xfers := xfers[id := xfers[id].(state := Completed)];
      }
      PopShape(s, count);
      hide PopDone;
    }

    /** engine_service_final_transfer: the transfer the count ends in. */
    method ServiceFinal(count: nat)
      requires Queued(View())
      modifies this
      ensures View() == Final(old(View()), count)
      ensures old(list) == [] ==> View() == old(View())
      ensures old(list) != [] ==>
        var id := old(list)[0]; var n := old(xfers)[id].descNum; var err := ShowsError(toDevice, old(status));
        && list == old(list)[1..] && running == (old(running) && !err)
        && dequeued == old(dequeued) + (if err then 0 else n)
        && xfers == old(xfers)[id := Xfer(n, if err || count < n then Failed else Completed,
                                          if err then old(xfers)[id].descCmpl else if count < n then count else n)]
        && View() == old(View()).(list := list, xfers := xfers, dequeued := dequeued, running := running)
    {
      if list == [] { return; }
      hide ShowsError, HasError;
      ErrorBits(toDevice, status);
      var id := list[0];
      if HasError(toDevice, status) {
        xfers := xfers[id := xfers[id].(state := Failed)];
        running := false;
      } else if count < xfers[id].descNum {
        dequeued := dequeued + xfers[id].descNum;
        xfers := xfers[id := xfers[id].(state := Failed, descCmpl := count)];
      } else {
        dequeued := dequeued + xfers[id].descNum;
        xfers := xfers[id := xfers[id].(state := Completed, descCmpl := xfers[id].descNum)];
      }
      list := list[1..];
    }

    /** engine_service_resume: restart on what is left, or stop. */
    method ServiceResume(hwStatus: bv32)
      modifies this
      ensures View() == Resume(old(View()), hwStatus)
      ensures list == old(list) && xfers == old(xfers)
      ensures !old(running) && list != [] ==> running && !request && !idle && dequeued == 0 && status == hwStatus
      ensures old(running) || list == [] ==>
        && running == (old(running) && list != []) && idle == (old(idle) || (!old(running) && old(request)))
        && request == old(request) && dequeued == old(dequeued) && status == old(status)
    {
      if !running {
        if list != [] {
          var ok := Start(hwStatus);
        } else if request {
          idle := true;
        }
      } else if list == [] {
        running := false;
      }
    }

    /** The first half of engine_service: read the status, decide whether the engine has stopped. */
    method Sample(hw: Hw)
      requires running
      modifies this
      ensures View() == Sampled(old(View()), hw) && dequeued == old(dequeued)
      ensures Queued(old(View())) ==> Queued(View())
      ensures View() == old(View()).(status := StatusSeen(old(View()), hw), running := StillBusy(old(View()), hw))
    {
      SampledIs(View(), hw);
      var count := hw.WbCount();
      if count == 0 || hw.WbErr() { status := hw.status; }
      if !Busy(status) || count != 0 { running := false; }
    }

    /** The steps of engine_service, against its specification. */
    method ServiceSteps(hw: Hw) returns (rv: int)
      requires Queued(View())
      modifies this
      ensures View() == Service(old(View()), hw)
      ensures rv == if old(running) && hw.writeback >= 0x8000_0000 then -1 else 0
    {
      ghost var s := View();
      assert hw.WbErr() == (hw.writeback >= 0x8000_0000);
      hide Queued, Sampled, PopDone, Final, Resume, Wrap32, Hw.WbCount, Hw.WbErr;
      rv := if running && hw.WbErr() then -1 else 0;
      if !running {
        status := hw.status;
        return;
      }
      Sample(hw);
      var count := if hw.WbCount() == 0 then hw.count else hw.WbCount();
      if count == 0 { return; }
      var added := Wrap32(count - dequeued);
      assert added == NewCount(s, hw);
      hide RawCount, NewCount;
      var left := ServiceTransferList(added);
      ghost var u := View();
      assert PopDone(Sampled(s, hw), NewCount(s, hw)) == (u, left);
      ServiceFinal(left);
      ServiceResume(hw.restartStatus);
      assert View() == Resume(Final(u, left), hw.restartStatus);
    }

    /** engine_service. */
    method EngineService(hw: Hw) returns (rv: int)
      requires Inv(View())
      modifies this
      ensures Inv(View()) && Evolves(old(View()), View())
      ensures Queued(old(View())) && (old(running) ==> Serviced(old(View()), hw, View()))
      ensures View() == Service(old(View()), hw)
      ensures !old(running) ==> View() == old(View()).(status := hw.status)
      ensures rv == if old(running) && hw.writeback >= 0x8000_0000 then -1 else 0
    {
      ServiceKeeps(View(), hw);
      if running { ServicedBy(View(), hw); }
      hide Serviced, Inv, Evolves, Service;
      rv := ServiceSteps(hw);
    }

    /** transfer_abort on a timeout, then xdma_engine_stop. */
    method TransferAbort(id: nat)
      requires id < |xfers| && Inv(View())
      modifies this
      ensures View() == Abort(old(View()), id)
      ensures View() == old(View()).(list := list, xfers := xfers, running := false)
      ensures list == if old(list) != [] && old(list)[0] == id then old(list)[1..] else old(list)
      ensures xfers == if old(xfers)[id].state == Submitted
        then old(xfers)[id := old(xfers)[id].(state := Aborted)] else old(xfers)
      ensures AbortsSafely(old(View()), StepAbort(id)) <==> Inv(View())
    {
      AbortKeepsIff(View(), id);
      if list != [] && list[0] == id { list := list[1..]; }
      if xfers[id].state == Submitted { xfers := xfers[id := xfers[id].(state := Aborted)]; }
      running := false;
    }

    /** xdma_device_offline, for this engine. */
    method Offline()
      requires Inv(View())
      modifies this
      ensures Inv(View()) && View() == old(View()).(request := true, running := false)
    {
      request := true;
      running := false;
    }

    /** xdma_device_online, for this engine. */
    method Online()
      requires Inv(View())
      modifies this
      ensures Inv(View()) && View() == old(View()).(request := false)
    {
      request := false;
    }
  }
}
