/**
  The engine's transfer queue: transfer_queue, engine_start, engine_service and what it calls,
  transfer_abort, offline and online. Each section under the engine spinlock is one step; the
  status register, the completed-descriptor count and the write-back word are inputs.
  Transfers are non-cyclic and eop_flush is off.
 */
module EngineQueue {
  import opened Words

  const EINVAL: int := 22
  const EBUSY: int := 16

  const STAT_BUSY: bv32 := 0x0000_0001
  const H2C_ERR_MASK: bv32 := 0x00F8_FE38   // common, descriptor, H2C read and H2C write errors
  const C2H_ERR_MASK: bv32 := 0x00F8_0638   // common, descriptor and C2H read errors

  predicate Busy(status: bv32) { status & STAT_BUSY != 0 }
  predicate HasError(toDevice: bool, status: bv32)
  {
    status & (if toDevice then H2C_ERR_MASK else C2H_ERR_MASK) != 0
  }

  datatype TransferState = Submitted | Completed | Failed | Aborted

  datatype Xfer = Xfer(descNum: nat, state: TransferState, descCmpl: nat)

  /** The engine. A transfer is known by its place in the order of submission. */
  datatype Eng = Eng(
    toDevice: bool, running: bool, request: bool, idle: bool, dequeued: nat, status: bv32,
    list: seq<nat>, xfers: seq<Xfer>)

  function Fresh(toDevice: bool): Eng { Eng(toDevice, false, false, false, 0, 0, [], []) }

  /** What the hardware shows during one service call. */
  datatype Hw = Hw(writeback: u32, status: bv32, count: u32, restartStatus: bv32)
  {
    function WbCount(): nat { writeback % 0x0100_0000 }        // WB_COUNT_MASK
    predicate WbErr() { writeback >= 0x8000_0000 }             // WB_ERR_MASK
  }

  ghost predicate Queued(s: Eng) { forall i :: 0 <= i < |s.list| ==> s.list[i] < |s.xfers| }

  // ---- The steps as functions of the state.

  /** engine_start, on an idle engine with a queue. */
  function Started(s: Eng, status: bv32): Eng
  {
    s.(request := false, idle := false, dequeued := 0, status := status, running := true)
  }

  function Queue(s: Eng, descNum: nat, flagSeen: bool, status: bv32): Eng
  {
    if descNum == 0 || flagSeen || s.request then s
    else
      var t := s.(list := s.list + [|s.xfers|], xfers := s.xfers + [Xfer(descNum, Submitted, 0)]);
      if s.running then t else Started(t, status)
  }

  /** Take the head off the queue with this state and completed count. */
  function Finish(s: Eng, state: TransferState, cmpl: nat, dequeue: nat): (r: Eng)
    requires Queued(s) && s.list != []
    ensures Queued(r) && r.list == s.list[1..]
  {
    var id := s.list[0];
    s.(list := s.list[1..], xfers := s.xfers[id := s.xfers[id].(state := state, descCmpl := cmpl)],
       dequeued := s.dequeued + dequeue)
  }

  /** engine_service_transfer_list: what the loop leaves of the state and of the count. */
  function PopDone(s: Eng, c: nat): (r: (Eng, nat))
    requires Queued(s)
    ensures Queued(r.0)
    decreases |s.list|
  {
    if s.list != [] && c > s.xfers[s.list[0]].descNum then
      var x := s.xfers[s.list[0]];
      PopDone(Finish(s, Completed, x.descCmpl, x.descNum), c - x.descNum)
    else (s, c)
  }

  /** engine_service_final_transfer. */
  function Final(s: Eng, c: nat): (r: Eng)
    requires Queued(s)
    ensures Queued(r)
  {
    if s.list == [] then s
    else
      var x := s.xfers[s.list[0]];
      if HasError(s.toDevice, s.status) then Finish(s, Failed, x.descCmpl, 0).(running := false)
      else if c < x.descNum then Finish(s, Failed, c, x.descNum)
      else Finish(s, Completed, x.descNum, x.descNum)
  }

  /** engine_service_resume. */
  function Resume(s: Eng, status: bv32): Eng
  {
    if !s.running then
      if s.list != [] then Started(s, status)
      else if s.request then s.(idle := true)
      else s
    else if s.list == [] then s.(running := false)
    else s
  }

  /** The state after the status read and the shut-down decision of engine_service. */
  function Sampled(s: Eng, hw: Hw): Eng
  {
    var t := if hw.WbCount() == 0 || hw.WbErr() then s.(status := hw.status) else s;
    if !Busy(t.status) || hw.WbCount() != 0 then t.(running := false) else t
  }

  function RawCount(hw: Hw): nat { if hw.WbCount() == 0 then hw.count else hw.WbCount() }

  /** Newly completed descriptors: 32-bit subtraction. */
  function NewCount(s: Eng, hw: Hw): nat { Wrap32(RawCount(hw) - s.dequeued) }

  /** engine_service. */
  function Service(s: Eng, hw: Hw): (r: Eng)
    requires Queued(s)
    ensures Queued(r)
  {
    if !s.running then s.(status := hw.status)
    else
      var t := Sampled(s, hw);
      if RawCount(hw) == 0 then t
      else
        var (u, c) := PopDone(t, NewCount(s, hw));
        Resume(Final(u, c), hw.restartStatus)
  }

  /** transfer_abort and the engine stop that follows it on a timeout. */
  function Abort(s: Eng, id: nat): Eng
  {
    if id >= |s.xfers| || s.xfers[id].descNum == 0 then s
    else
      s.(list := if s.list != [] && s.list[0] == id then s.list[1..] else s.list,
         xfers := if s.xfers[id].state == Submitted then s.xfers[id := s.xfers[id].(state := Aborted)] else s.xfers,
         running := false)
  }

  datatype Step =
    | StepQueue(descNum: nat, flagSeen: bool, status: bv32)
    | StepService(hw: Hw)
    | StepAbort(id: nat)
    | StepOffline
    | StepOnline

  function Next(s: Eng, step: Step): (r: Eng)
    requires Queued(s)
    ensures Queued(r)
  {
    match step
    case StepQueue(n, seen, status) => Queue(s, n, seen, status)
    case StepService(hw) => Service(s, hw)
    case StepAbort(id) => Abort(s, id)
    case StepOffline => s.(request := true, running := false)
    case StepOnline => s.(request := false)
  }

  // ---- Batched completion against prefix sums.

  function Nums(s: Eng): (r: seq<nat>)
    requires Queued(s)
    ensures |r| == |s.list|
  {
    seq(|s.list|, i requires 0 <= i < |s.list| => s.xfers[s.list[i]].descNum)
  }

  /** Descriptors of the first k queued transfers. */
  function End(nums: seq<nat>, k: nat): (r: nat)
    requires k <= |nums|
  {
    if k == 0 then 0 else End(nums, k - 1) + nums[k - 1]
  }

  /** The reference: what c newly completed descriptors mean for the i-th queued transfer. */
  function Fate(nums: seq<nat>, c: nat, err: bool, i: nat): TransferState
    requires i < |nums|
  {
    if End(nums, i + 1) < c then Completed                       // wholly done, and more after it
    else if i > 0 && End(nums, i) >= c then Submitted            // not reached
    else if !err && End(nums, i + 1) == c then Completed         // the count ends on it
    else Failed                                                  // the count ends inside it, or an error
  }

  lemma {:induction false} EndTail(nums: seq<nat>, k: nat)
    requires 0 < k <= |nums|
    ensures End(nums, k) == nums[0] + End(nums[1..], k - 1)
  {
    if k > 1 { EndTail(nums, k - 1); } else { assert End(nums, 0) == 0; }
  }

  lemma FateTail(nums: seq<nat>, c: nat, err: bool, i: nat)
    requires 0 < i < |nums| && c > nums[0]
    ensures Fate(nums, c, err, i) == Fate(nums[1..], c - nums[0], err, i - 1)
  {
    EndTail(nums, i + 1);
    EndTail(nums, i);
    if i == 1 { assert End(nums[1..], 0) == 0; }
  }

  /** How many queued transfers a service call takes off the queue. */
  function Leaves(nums: seq<nat>, c: nat): (r: nat)
    ensures r <= |nums|
  {
    if nums == [] then 0 else if c > nums[0] then 1 + Leaves(nums[1..], c - nums[0]) else 1
  }

  lemma {:induction false} EndGrows(nums: seq<nat>, i: nat, j: nat)
    requires i <= j <= |nums|
    ensures End(nums, i) <= End(nums, j)
    decreases j
  {
    if i < j { EndGrows(nums, i, j - 1); }
  }

  /** Exactly the transfers that are not reached stay. */
  lemma {:induction false} StaysIff(nums: seq<nat>, c: nat, err: bool, i: nat)
    requires i < |nums|
    ensures Fate(nums, c, err, i) == Submitted <==> i >= Leaves(nums, c)
    decreases |nums|
  {
    assert End(nums, 1) == End(nums, 0) + nums[0];
    if c > nums[0] {
      if i > 0 {
        FateTail(nums, c, err, i);
        StaysIff(nums[1..], c - nums[0], err, i - 1);
      }
    } else if i > 0 {
      EndGrows(nums, 1, i);
      EndGrows(nums, i, i + 1);
    }
  }

  /** The transfers outside the queue, and everything but queue, counts and running flag, are as before. */
  ghost predicate SameElsewhere(s: Eng, r: Eng)
  {
    && r.toDevice == s.toDevice && r.request == s.request && r.idle == s.idle && r.status == s.status
    && (r.running ==> s.running) && |r.xfers| == |s.xfers|
    && forall id :: 0 <= id < |s.xfers| ==>
         r.xfers[id].descNum == s.xfers[id].descNum && (id !in s.list ==> r.xfers[id] == s.xfers[id])
  }

  /** Every queued transfer has met its fate; those not reached stay queued, untouched and in order. */
  ghost predicate Settled(s: Eng, c: nat, r: Eng)
    requires Queued(s)
  {
    var nums := Nums(s);
    var gone := Leaves(nums, c);
    && SameElsewhere(s, r) && r.list == s.list[gone..]
    && (forall i :: 0 <= i < gone ==>
          r.xfers[s.list[i]].state == Fate(nums, c, HasError(s.toDevice, s.status), i))
    && (forall i :: gone <= i < |s.list| ==> r.xfers[s.list[i]] == s.xfers[s.list[i]])
  }

  lemma FinishSettles(s: Eng, c: nat, state: TransferState, cmpl: nat, dequeue: nat, run: bool)
    requires Queued(s) && Distinct(s.list) && s.list != [] && c <= s.xfers[s.list[0]].descNum
    requires state == Fate(Nums(s), c, HasError(s.toDevice, s.status), 0) && (run ==> s.running)
    ensures Settled(s, c, Finish(s, state, cmpl, dequeue).(running := run))
  {
    hide HasError, Fate;
    assert Leaves(Nums(s), c) == 1;
  }

  lemma FinalSettles(s: Eng, c: nat)
    requires Queued(s) && Distinct(s.list)
    requires s.list == [] || c <= s.xfers[s.list[0]].descNum
    ensures Settled(s, c, Final(s, c))
  {
    hide HasError;
    if s.list != [] {
      var x, nums := s.xfers[s.list[0]], Nums(s);
      assert End(nums, 1) == End(nums, 0) + nums[0];
      var err := HasError(s.toDevice, s.status);
      hide Settled, Finish, Nums;
      var state, cmpl, dequeue :=
        if err || c < x.descNum then Failed else Completed,
        if err then x.descCmpl else if c < x.descNum then c else x.descNum,
        if err then 0 else x.descNum;
      FinishSettles(s, c, state, cmpl, dequeue, s.running && !err);
    } else {
      assert Nums(s) == [];
    }
  }

  lemma FinishHead(s: Eng, state: TransferState, cmpl: nat, dequeue: nat)
    requires Queued(s) && Distinct(s.list) && s.list != []
    ensures var t := Finish(s, state, cmpl, dequeue); Queued(t) && Distinct(t.list) && Nums(t) == Nums(s)[1..]
  {
  }

  /** t is s after the head was popped as completed, and r settles t. */
  ghost predicate Popped(s: Eng, c: nat, t: Eng, r: Eng)
  {
    && Queued(s) && Distinct(s.list) && s.list != [] && c > s.xfers[s.list[0]].descNum
    && (var x := s.xfers[s.list[0]]; t == Finish(s, Completed, x.descCmpl, x.descNum))
    && Nums(t) == Nums(s)[1..] && Settled(t, c - s.xfers[s.list[0]].descNum, r)
  }

  lemma PoppedLeaves(s: Eng, c: nat, t: Eng, r: Eng)
    requires Popped(s, c, t, r)
    ensures Leaves(Nums(s), c) == 1 + Leaves(Nums(t), c - s.xfers[s.list[0]].descNum)
    ensures s.list[0] !in t.list
  {
  }

  lemma PoppedOne(s: Eng, c: nat, t: Eng, r: Eng, i: nat)
    requires Popped(s, c, t, r) && i < |s.list|
    ensures if i < Leaves(Nums(s), c)
      then r.xfers[s.list[i]].state == Fate(Nums(s), c, HasError(s.toDevice, s.status), i)
      else r.xfers[s.list[i]] == s.xfers[s.list[i]]
  {
    hide HasError, Leaves;
    PoppedLeaves(s, c, t, r);
    if i == 0 {
      assert End(Nums(s), 1) == End(Nums(s), 0) + Nums(s)[0];
    } else {
      FateTail(Nums(s), c, HasError(s.toDevice, s.status), i);
      hide Fate;
      assert s.list[i] == t.list[i - 1] && s.list[i] != s.list[0];
    }
  }

  lemma PoppedElsewhere(s: Eng, c: nat, t: Eng, r: Eng)
    requires Popped(s, c, t, r)
    ensures SameElsewhere(s, r) && r.list == s.list[Leaves(Nums(s), c)..]
  {
    hide HasError, Leaves, Fate;
    PoppedLeaves(s, c, t, r);
    var gone := Leaves(Nums(s), c);
    assert t.list[gone - 1..] == s.list[gone..];
    assert forall id :: id !in s.list ==> id !in t.list;
  }

  lemma PopSettles(s: Eng, c: nat, t: Eng, r: Eng)
    requires Popped(s, c, t, r)
    ensures Settled(s, c, r)
  {
    hide HasError, Leaves, Fate;
    PoppedElsewhere(s, c, t, r);
    forall i | 0 <= i < |s.list|
      ensures if i < Leaves(Nums(s), c)
        then r.xfers[s.list[i]].state == Fate(Nums(s), c, HasError(s.toDevice, s.status), i)
        else r.xfers[s.list[i]] == s.xfers[s.list[i]]
    {
      PoppedOne(s, c, t, r, i);
    }
    hide Popped;
  }

  /** The service loop and the final step together refine the prefix-sum reference. */
  lemma {:induction false} BatchSettles(s: Eng, c: nat)
    requires Queued(s) && Distinct(s.list)
    ensures var (u, d) := PopDone(s, c); Settled(s, c, Final(u, d))
    decreases |s.list|
  {
    hide Settled, Nums, Final;
    if s.list != [] && c > s.xfers[s.list[0]].descNum {
      var x := s.xfers[s.list[0]];
      var t := Finish(s, Completed, x.descCmpl, x.descNum);
      FinishHead(s, Completed, x.descCmpl, x.descNum);
      BatchSettles(t, c - x.descNum);
      var (u, d) := PopDone(t, c - x.descNum);
      PopSettles(s, c, t, Final(u, d));
    } else {
      FinalSettles(s, c);
    }
  }

  // ---- What every step keeps.

  ghost predicate Increasing(list: seq<nat>) { forall i, j :: 0 <= i < j < |list| ==> list[i] < list[j] }

  /** The queue is exactly the unfinished transfers, in the order of submission. */
  ghost predicate Consistent(s: Eng)
  {
    && Queued(s) && Increasing(s.list)
    && forall id :: 0 <= id < |s.xfers| ==>
         s.xfers[id].descNum > 0 && (s.xfers[id].state == Submitted <==> id in s.list)
  }

  ghost predicate Inv(s: Eng)
  {
    && Consistent(s)
    && (s.running ==> s.list != [])      // the engine never runs on an empty queue
    && (s.request ==> !s.running)        // a pending shutdown request stops it
    && !s.idle                           // ENGINE_SHUTDOWN_IDLE is never set
  }

  /** Transfers are only added, and a finished one stays as it is. */
  ghost predicate Evolves(s: Eng, r: Eng)
  {
    && |s.xfers| <= |r.xfers| && s.toDevice == r.toDevice
    && forall id :: 0 <= id < |s.xfers| ==>
         && r.xfers[id].descNum == s.xfers[id].descNum
         && (s.xfers[id].state != Submitted ==> r.xfers[id].state == s.xfers[id].state)
  }

  lemma TailMember(list: seq<nat>, gone: nat, i: nat)
    requires Increasing(list) && gone <= |list| && i < |list|
    ensures list[i] in list[gone..] <==> i >= gone
  {
    if i >= gone { assert list[gone..][i - gone] == list[i]; }
  }

  lemma SettledMember(s: Eng, c: nat, r: Eng, id: nat)
    requires Consistent(s) && Settled(s, c, r) && id < |s.xfers|
    ensures r.xfers[id].state == Submitted <==> id in r.list
    ensures s.xfers[id].state != Submitted ==> r.xfers[id].state == s.xfers[id].state
  {
    hide HasError, Fate, Leaves, Nums;
    if id in s.list {
      var i :| 0 <= i < |s.list| && s.list[i] == id;
      TailMember(s.list, Leaves(Nums(s), c), i);
      StaysIff(Nums(s), c, HasError(s.toDevice, s.status), i);
    }
  }

  lemma SettledConsistent(s: Eng, c: nat, r: Eng)
    requires Consistent(s) && Settled(s, c, r)
    ensures Consistent(r) && Evolves(s, r)
  {
    hide HasError, Fate, Leaves;
    forall id | 0 <= id < |s.xfers|
      ensures r.xfers[id].state == Submitted <==> id in r.list
      ensures s.xfers[id].state != Submitted ==> r.xfers[id].state == s.xfers[id].state
    {
      SettledMember(s, c, r, id);
    }
    assert Increasing(r.list);
  }

  lemma ResumeKeeps(s: Eng, status: bv32)
    requires Consistent(s) && !s.request && !s.idle
    ensures Inv(Resume(s, status)) && Resume(s, status).xfers == s.xfers && Resume(s, status).toDevice == s.toDevice
  {
  }

  lemma SettledFlags(s: Eng, c: nat, r: Eng)
    requires Queued(s) && Settled(s, c, r)
    ensures r.request == s.request && r.idle == s.idle
  {
  }

  lemma EvolvesBy(s: Eng, t: Eng, r: Eng, q: Eng)
    requires Evolves(t, r) && s.xfers == t.xfers && r.xfers == q.xfers && s.toDevice == t.toDevice
      && r.toDevice == q.toDevice
    ensures Evolves(s, q)
  {
  }

  lemma BusyServiceKeeps(s: Eng, t: Eng, c: nat, status: bv32)
    requires Inv(s) && s.running && t == s.(status := t.status, running := t.running)
    ensures var (u, d) := PopDone(t, c); var r := Resume(Final(u, d), status); Inv(r) && Evolves(s, r)
  {
    var (u, d) := PopDone(t, c);
    var q := Final(u, d);
    BatchSettles(t, c);
    assert Consistent(t);
    hide PopDone, Final, Settled, Resume, Consistent, Inv;
    SettledConsistent(t, c, q);
    SettledFlags(t, c, q);
    ResumeKeeps(q, status);
    EvolvesBy(s, t, q, Resume(q, status));
  }

  lemma ServiceKeeps(s: Eng, hw: Hw)
    requires Inv(s)
    ensures Inv(Service(s, hw)) && Evolves(s, Service(s, hw))
  {
    hide HasError, Busy, PopDone, Final, NewCount, Resume;
    if s.running && RawCount(hw) != 0 {
      BusyServiceKeeps(s, Sampled(s, hw), NewCount(s, hw), hw.restartStatus);
    }
  }

  lemma QueueKeeps(s: Eng, descNum: nat, flagSeen: bool, status: bv32)
    requires Inv(s)
    ensures Inv(Queue(s, descNum, flagSeen, status)) && Evolves(s, Queue(s, descNum, flagSeen, status))
  {
    var r := Queue(s, descNum, flagSeen, status);
    if r.list != s.list {
      forall id | 0 <= id < |r.xfers| ensures r.xfers[id].state == Submitted <==> id in r.list {
        assert r.list[|s.list|] == |s.xfers|;
        if id in s.list { assert id in r.list; }
      }
    }
  }

  predicate AbortsSafely(s: Eng, step: Step)
  {
    step.StepAbort? ==> step.id !in s.list || step.id == s.list[0]
  }

  lemma AbortKeeps(s: Eng, id: nat)
    requires Inv(s) && AbortsSafely(s, StepAbort(id))
    ensures Inv(Abort(s, id)) && Evolves(s, Abort(s, id))
  {
    var r := Abort(s, id);
    if id in s.list {
      forall k | 0 <= k < |r.xfers| ensures r.xfers[k].state == Submitted <==> k in r.list {
        if k in s.list && k != id {
          var i :| 0 <= i < |s.list| && s.list[i] == k;
          assert r.list[i - 1] == k;
        }
      }
    }
  }

  /** Aborting a queued transfer keeps the invariant if and only if it is the head of the queue. */
  lemma AbortKeepsIff(s: Eng, id: nat)
    requires Inv(s)
    ensures Inv(Abort(s, id)) <==> AbortsSafely(s, StepAbort(id))
  {
    if AbortsSafely(s, StepAbort(id)) {
      AbortKeeps(s, id);
    } else {
      assert Abort(s, id).xfers[id].state == Aborted && id in Abort(s, id).list;
    }
  }

  lemma StepKeeps(s: Eng, step: Step)
    requires Inv(s) && AbortsSafely(s, step)
    ensures Inv(Next(s, step)) && Evolves(s, Next(s, step))
  {
    hide Service, Queue, Abort;
    match step
    case StepQueue(n, seen, status) => QueueKeeps(s, n, seen, status);
    case StepService(hw) => ServiceKeeps(s, hw);
    case StepAbort(id) => AbortKeeps(s, id);
    case StepOffline =>
    case StepOnline =>
  }

  lemma SettledFates(s: Eng, c: nat, r: Eng)
    requires Consistent(s) && Settled(s, c, r)
    ensures r.list == s.list[Leaves(Nums(s), c)..] && |r.xfers| == |s.xfers|
    ensures forall i :: 0 <= i < |s.list| ==>
      r.xfers[s.list[i]].state == Fate(Nums(s), c, HasError(s.toDevice, s.status), i)
  {
    hide HasError, Fate, Leaves;
    forall i | 0 <= i < |s.list|
      ensures r.xfers[s.list[i]].state == Fate(Nums(s), c, HasError(s.toDevice, s.status), i)
    {
      StaysIff(Nums(s), c, HasError(s.toDevice, s.status), i);
    }
  }

  /** One service call on a running engine gives every queued transfer the fate the count implies. */
  lemma ServiceRefines(s: Eng, hw: Hw)
    requires Inv(s) && s.running && RawCount(hw) != 0
    ensures var r := Service(s, hw); var err := HasError(s.toDevice, Sampled(s, hw).status); var c := NewCount(s, hw);
      && r.list == s.list[Leaves(Nums(s), c)..] && |r.xfers| == |s.xfers|
      && forall i :: 0 <= i < |s.list| ==> r.xfers[s.list[i]].state == Fate(Nums(s), c, err, i)
  {
    hide HasError, Busy, PopDone, Final, NewCount, Fate, Leaves, Settled;
    var t, c := Sampled(s, hw), NewCount(s, hw);
    assert t.list == s.list && t.xfers == s.xfers && t.toDevice == s.toDevice && Nums(t) == Nums(s);
    var (u, d) := PopDone(t, c);
    BatchSettles(t, c);
    SettledFates(t, c, Final(u, d));
    hide Sampled, Nums;
  }

  /**
    Without errors: completed are exactly the transfers that end within the count; failed is the one
    the count ends strictly inside, or, when the count has not moved at all, the head.
   */
  lemma FateWithoutError(nums: seq<nat>, c: nat, i: nat)
    requires i < |nums| && forall k :: 0 <= k < |nums| ==> nums[k] > 0
    ensures Fate(nums, c, false, i) == Completed <==> End(nums, i + 1) <= c
    ensures Fate(nums, c, false, i) == Failed <==> End(nums, i) < c < End(nums, i + 1) || (c == 0 && i == 0)
    ensures Fate(nums, c, false, i) == Submitted <==> End(nums, i) >= c && i > 0
  {
    assert End(nums, i + 1) == End(nums, i) + nums[i];
    assert End(nums, 0) == 0;
  }

  // ---- Every run.

  function Run(s: Eng, steps: seq<Step>): (r: Eng)
    requires Queued(s)
    ensures Queued(r)
  {
    if steps == [] then s else Next(Run(s, steps[..|steps| - 1]), steps[|steps| - 1])
  }

  /** No step of the run aborts a queued transfer other than the head. */
  ghost predicate SafeRun(s: Eng, steps: seq<Step>)
    requires Queued(s)
  {
    forall k :: 0 <= k < |steps| ==> AbortsSafely(Run(s, steps[..k]), steps[k])
  }

  lemma SafePrefix(s: Eng, steps: seq<Step>, k: nat)
    requires Queued(s) && SafeRun(s, steps) && k <= |steps|
    ensures SafeRun(s, steps[..k])
  {
    forall j | 0 <= j < k ensures AbortsSafely(Run(s, steps[..k][..j]), steps[..k][j]) {
      assert steps[..k][..j] == steps[..j];
    }
  }

  lemma {:induction false} RunKeeps(s: Eng, steps: seq<Step>)
    requires Inv(s) && SafeRun(s, steps)
    ensures Inv(Run(s, steps))
  {
    hide Next;
    if steps != [] {
      var n := |steps| - 1;
      SafePrefix(s, steps, n);
      RunKeeps(s, steps[..n]);
      assert AbortsSafely(Run(s, steps[..n]), steps[n]);
      StepKeeps(Run(s, steps[..n]), steps[n]);
    }
  }

  lemma {:induction false} RunEvolves(s: Eng, steps: seq<Step>, k: nat)
    requires Inv(s) && SafeRun(s, steps) && k <= |steps|
    ensures Evolves(Run(s, steps[..k]), Run(s, steps))
    decreases |steps|
  {
    hide Next;
    if k < |steps| {
      var n := |steps| - 1;
      SafePrefix(s, steps, n);
      RunEvolves(s, steps[..n], k);
      assert steps[..n][..k] == steps[..k];
      RunKeeps(s, steps[..n]);
      StepKeeps(Run(s, steps[..n]), steps[n]);
    } else {
      assert steps[..k] == steps;
    }
  }

  /**
    In every run from a fresh engine that aborts only queue heads: running implies a non-empty
    queue, the queue is exactly the SUBMITTED transfers in submission order, and from any earlier
    point of the run on, a finished transfer keeps its state and never comes back to the queue.
   */
  lemma EveryRun(toDevice: bool, steps: seq<Step>, k: nat)
    requires var s := Fresh(toDevice); SafeRun(s, steps) && k <= |steps|
    ensures var s := Fresh(toDevice); var earlier, now := Run(s, steps[..k]), Run(s, steps);
      && (now.running ==> now.list != []) && (now.request ==> !now.running) && !now.idle
      && Increasing(now.list)
      && (forall id :: 0 <= id < |now.xfers| ==> (now.xfers[id].state == Submitted <==> id in now.list))
      && |earlier.xfers| <= |now.xfers|
      && (forall id :: 0 <= id < |earlier.xfers| && id !in earlier.list ==>
            id !in now.list && now.xfers[id].state == earlier.xfers[id].state)
  {
    var s := Fresh(toDevice);
    RunKeeps(s, steps);
    RunEvolves(s, steps, k);
    SafePrefix(s, steps, k);
    RunKeeps(s, steps[..k]);
  }

  // ---- A run that ends badly, and what others are made of.

  /** A service call that finds one descriptor done and the engine still busy. */
  const ONE_DONE := Hw(0, STAT_BUSY, 1, STAT_BUSY)

  lemma OneDone(toDevice: bool)
    ensures Busy(ONE_DONE.status) && !HasError(toDevice, ONE_DONE.status)
    ensures RawCount(ONE_DONE) == 1 && ONE_DONE.WbCount() == 0
  {
  }

  /** Two transfers of n descriptors are queued on a fresh engine. */
  function TwoOf(n: nat): seq<Step> { [StepQueue(n, false, STAT_BUSY), StepQueue(n, false, STAT_BUSY)] }

  function TwoQueued(toDevice: bool, n: nat): Eng
  {
    Eng(toDevice, true, false, false, 0, STAT_BUSY, [0, 1], [Xfer(n, Submitted, 0), Xfer(n, Submitted, 0)])
  }

  lemma RunOneMore(s: Eng, steps: seq<Step>, step: Step)
    requires Queued(s)
    ensures Run(s, steps + [step]) == Next(Run(s, steps), step)
  {
    assert (steps + [step])[..|steps|] == steps;
  }

  lemma RunTwoOf(toDevice: bool, n: nat)
    requires n > 0
    ensures Run(Fresh(toDevice), TwoOf(n)) == TwoQueued(toDevice, n)
  {
    var steps := TwoOf(n);
    assert steps[..1] == [] + [steps[0]] && steps[..0] == [];
    RunOneMore(Fresh(toDevice), [], steps[0]);
    RunOneMore(Fresh(toDevice), steps[..1], steps[1]);
    assert steps == steps[..1] + [steps[1]];
  }

  /** A service call with c new descriptors on a busy engine, c at most the head's. */
  lemma BusyService(s: Eng, hw: Hw, c: nat)
    requires Queued(s) && s.running && s.list != [] && c <= s.xfers[s.list[0]].descNum
    requires RawCount(hw) != 0 && hw.WbCount() == 0 && NewCount(s, hw) == c
    requires Busy(hw.status) && !HasError(s.toDevice, hw.status)
    ensures var r := Service(s, hw); var id := s.list[0];
      && r.list == s.list[1..] && |r.xfers| == |s.xfers| && r.running == (|s.list| > 1) && r.toDevice == s.toDevice
      && r.xfers[id].state == (if c < s.xfers[id].descNum then Failed else Completed)
      && r.dequeued == s.dequeued + s.xfers[id].descNum
      && forall k :: 0 <= k < |s.xfers| ==>
           r.xfers[k].descNum == s.xfers[k].descNum && (k != id ==> r.xfers[k] == s.xfers[k])
  {
    hide Busy, HasError, RawCount, NewCount;
  }

  /** Aborting the second of two queued transfers leaves it queued, marked ABORTED. */
  lemma AbortSecondExample(toDevice: bool)
    ensures var r := Run(Fresh(toDevice), TwoOf(1) + [StepAbort(1)]);
      |r.xfers| == 2 && r.xfers[1].state == Aborted && 1 in r.list && !Inv(r)
  {
    RunTwoOf(toDevice, 1);
    RunOneMore(Fresh(toDevice), TwoOf(1), StepAbort(1));
    var r := Run(Fresh(toDevice), TwoOf(1) + [StepAbort(1)]);
    assert r.list[1] == 1;
  }

  // ---- Offline freezes the engine.

  /** Not started, nothing added, and nothing finished except by an abort. */
  ghost predicate Frozen(s: Eng, r: Eng)
  {
    && r.request && !r.running && |r.xfers| == |s.xfers|
    && forall id :: 0 <= id < |s.xfers| ==>
         r.xfers[id] == s.xfers[id] || (s.xfers[id].state == Submitted && r.xfers[id].state == Aborted)
  }

  lemma FrozenStep(s: Eng, r: Eng, step: Step)
    requires Queued(r) && Frozen(s, r) && !step.StepOnline?
    ensures Frozen(s, Next(r, step))
  {
  }

  lemma {:induction false} OfflineFreezes(s: Eng, steps: seq<Step>)
    requires Queued(s) && s.request && !s.running
    requires forall k :: 0 <= k < |steps| ==> !steps[k].StepOnline?
    ensures Frozen(s, Run(s, steps))
  {
    if steps != [] {
      var n := |steps| - 1;
      OfflineFreezes(s, steps[..n]);
      FrozenStep(s, Run(s, steps[..n]), steps[n]);
    }
  }

  // ---- FIFO drain.

  /** The hardware finished n descriptors, without error and no longer busy. */
  predicate CleanStop(toDevice: bool, hw: Hw, n: nat)
  {
    && RawCount(hw) == n && !Busy(hw.status)
    && !HasError(toDevice, hw.status) && !HasError(toDevice, hw.restartStatus)
  }

  /** After k services: the first k transfers of s completed, the next one started. */
  ghost predicate DrainedBy(s: Eng, k: nat, r: Eng)
    requires Queued(s) && k <= |s.list|
  {
    && Queued(r) && r.toDevice == s.toDevice && r.list == s.list[k..] && |r.xfers| == |s.xfers|
    && (r.running <==> k < |s.list|) && (r.running ==> r.dequeued == 0)
    && !HasError(r.toDevice, r.status)
    && (forall i :: 0 <= i < k ==> r.xfers[s.list[i]].state == Completed)
    && (forall id :: 0 <= id < |s.xfers| && id !in s.list[..k] ==> r.xfers[id] == s.xfers[id])
  }

  lemma SampledClean(r: Eng, hw: Hw, n: nat)
    requires r.running && !HasError(r.toDevice, r.status) && CleanStop(r.toDevice, hw, n)
    ensures var t := Sampled(r, hw); t == r.(status := t.status, running := false) && !HasError(t.toDevice, t.status)
  {
    hide HasError, Busy, RawCount, Hw.WbCount, Hw.WbErr;
    if hw.WbCount() == 0 || hw.WbErr() {
      assert Sampled(r, hw) == r.(status := hw.status, running := false);
    } else {
      assert Sampled(r, hw) == r.(running := false);
    }
  }

  lemma ResumedHead(t: Eng, n: nat, status: bv32)
    requires Queued(t) && t.list != [] && !t.running
    requires !HasError(t.toDevice, t.status) && !HasError(t.toDevice, status)
    ensures var q := Resume(Finish(t, Completed, n, n), status); var id := t.list[0];
      && q.list == t.list[1..] && q.xfers == t.xfers[id := t.xfers[id].(state := Completed, descCmpl := n)]
      && q.toDevice == t.toDevice && (q.running <==> q.list != []) && (q.running ==> q.dequeued == 0)
      && !HasError(q.toDevice, q.status)
  {
    var u := Finish(t, Completed, n, n);
    if u.list != [] { assert Resume(u, status) == Started(u, status); }
  }

  lemma LastHead(t: Eng, n: nat)
    requires Queued(t) && t.list != [] && t.xfers[t.list[0]].descNum == n && !HasError(t.toDevice, t.status)
    ensures PopDone(t, n) == (t, n) && Final(t, n) == Finish(t, Completed, n, n)
  {
    hide HasError;
  }

  lemma AllNew(r: Eng, hw: Hw)
    requires r.dequeued == 0
    ensures NewCount(r, hw) == RawCount(hw)
  {
  }

  lemma ServiceHead(r: Eng, hw: Hw, n: nat)
    requires Queued(r) && r.list != [] && r.xfers[r.list[0]].descNum == n > 0
    requires r.running && r.dequeued == 0 && !HasError(r.toDevice, r.status) && CleanStop(r.toDevice, hw, n)
    ensures var q := Service(r, hw); var id := r.list[0];
      && q.list == r.list[1..] && q.xfers == r.xfers[id := r.xfers[id].(state := Completed, descCmpl := n)]
      && q.toDevice == r.toDevice && (q.running <==> q.list != []) && (q.running ==> q.dequeued == 0)
      && !HasError(q.toDevice, q.status)
  {
    hide HasError, Busy, NewCount, RawCount, Sampled, PopDone, Final;
    AllNew(r, hw);
    SampledClean(r, hw, n);
    var t := Sampled(r, hw);
    LastHead(t, n);
    ResumedHead(t, n, hw.restartStatus);
    hide Finish, Resume;
  }

  lemma DrainOne(s: Eng, k: nat, r: Eng, hw: Hw)
    requires Queued(s) && Distinct(s.list) && k < |s.list| && DrainedBy(s, k, r)
    requires CleanStop(s.toDevice, hw, s.xfers[s.list[k]].descNum) && RawCount(hw) > 0
    ensures DrainedBy(s, k + 1, Service(r, hw))
  {
    hide HasError, Busy, RawCount, Service;
    assert s.list[k] !in s.list[..k];
    assert r.list[0] == s.list[k];
    ServiceHead(r, hw, s.xfers[s.list[k]].descNum);
    assert s.list[..k + 1] == s.list[..k] + [s.list[k]];
  }

  function Services(hws: seq<Hw>): (r: seq<Step>)
  {
    seq(|hws|, i requires 0 <= i < |hws| => StepService(hws[i]))
  }

  /**
    If each run completes exactly the head's descriptors, without error, then n queued transfers
    are completed in order by n service calls, and the engine ends idle with an empty queue.
   */
  lemma {:induction false} Drain(s: Eng, hws: seq<Hw>, k: nat)
    requires Inv(s) && s.running && s.dequeued == 0 && !HasError(s.toDevice, s.status)
    requires |hws| == |s.list| && k <= |hws|
    requires forall i :: 0 <= i < |hws| ==> CleanStop(s.toDevice, hws[i], s.xfers[s.list[i]].descNum)
    ensures DrainedBy(s, k, Run(s, Services(hws[..k])))
  {
    if k > 0 {
      Drain(s, hws, k - 1);
      var steps := Services(hws[..k]);
      assert steps[..k - 1] == Services(hws[..k - 1]);
      DrainOne(s, k - 1, Run(s, steps[..k - 1]), hws[k - 1]);
    } else {
      assert s.list[0..] == s.list;
    }
  }
}
