/**
  What COMPLETED means: the engine queue, the descriptor ring and the hardware joined in one run. The
  hardware walks the chain that was started and reports how many descriptors it has executed.
 */
module Completion {
  import opened Words
  import opened ScatterSplit
  import opened Descriptors
  import opened Transfers
  import opened DmaMeaning
  import opened EngineQueue
  import RingAllocator

  /** What a transfer was built from. */
  datatype Job = Job(start: nat, pieces: seq<Segment>, ep: u64)

  /**
    jobs and made go with eng.xfers; current is the transfer the hardware was last started on. idx and used
    are desc_idx and desc_used; window holds what was built and not yet retired, oldest first.
   */
  datatype Joint = Joint(
    eng: Eng, jobs: seq<Job>, ring: seq<Desc>, current: nat, made: seq<seq<Move>>,
    idx: nat, used: int, window: seq<Job>)

  datatype Event =
    | Enqueue(left: nat, pieces: seq<Segment>, ep: u64, flagSeen: bool, status: bv32)
    | Execute(count: nat)
    | Serve(hw: Hw)
    | Release(oldest: nat)
    | GiveUp(id: nat)
    | GoOffline
    | GoOnline

  ghost predicate Loaded(cfg: Config, ring: seq<Desc>, job: Job) { Holds(cfg, ring, job.start, job.pieces, job.ep) }

  function PlanOf(cfg: Config, job: Job): seq<Move> { Planned(cfg, job.pieces, job.ep) }

  ghost predicate Shaped(cfg: Config, j: Joint)
  {
    cfg.Valid() && |j.ring| == RING && j.idx < RING && Queued(j.eng) && |j.jobs| == |j.made| == |j.eng.xfers|
  }

  /** The service call restarts the engine. */
  function Restarts(s: Eng, hw: Hw): bool
    requires Queued(s)
  {
    && s.running && RawCount(hw) != 0
    && var (u, c) := PopDone(Sampled(s, hw), NewCount(s, hw));
       var f := Final(u, c);
       !f.running && f.list != []
  }

  /** The hardware has been started on the head of the queue. */
  ghost predicate Begins(k: Joint, made: seq<seq<Move>>)
  {
    && k.eng.list != [] && k.eng.list[0] < |made|
    && k.current == k.eng.list[0] && k.made == made[k.current := []]
  }

  /** transfer_init: the chain goes into the slots from desc_idx on, and these are counted as used. */
  ghost predicate Takes(cfg: Config, j: Joint, e: Event, k: Joint)
    requires Shaped(cfg, j) && e.Enqueue?
  {
    var n := |e.pieces|;
    && 0 < e.left && n == ChainLength(j.idx, e.left)
    && k.ring == j.ring[..j.idx] + Chain(cfg, j.idx, e.pieces, e.ep) + j.ring[j.idx + n..]
    && k.idx == (j.idx + n) % RING && k.used == j.used + n && k.window == j.window + [Job(j.idx, e.pieces, e.ep)]
  }

  /** transfer_init and transfer_queue. A transfer that is refused keeps its slots. */
  ghost predicate EnqueueStep(cfg: Config, j: Joint, e: Event, k: Joint)
    requires Shaped(cfg, j) && e.Enqueue?
  {
    && Takes(cfg, j, e, k)
    && k.eng == Queue(j.eng, |e.pieces|, e.flagSeen, e.status)
    && if |k.eng.xfers| == |j.eng.xfers| then k.jobs == j.jobs && k.made == j.made && k.current == j.current
       else
         && k.jobs == j.jobs + [Job(j.idx, e.pieces, e.ep)]
         && if j.eng.running then k.made == j.made + [[]] && k.current == j.current else Begins(k, j.made + [[]])
  }

  /** The jobs whose chains are still needed: those queued and the one being executed. */
  ghost predicate Needed(cfg: Config, j: Joint, window: seq<Job>)
    requires Shaped(cfg, j)
  {
    && (forall i :: 0 <= i < |j.eng.list| ==> j.jobs[j.eng.list[i]] in window)
    && (j.eng.running && j.current < |j.jobs| ==> j.jobs[j.current] in window)
  }

  /**
    desc_used falls by one transfer that is neither queued nor being executed, the oldest first: nothing
    built before it is needed either.
   */
  ghost predicate ReleaseStep(cfg: Config, j: Joint, e: Event, k: Joint)
    requires Shaped(cfg, j) && e.Release?
  {
    && e.oldest < |j.window| && Needed(cfg, j, j.window[e.oldest + 1..])
    && k == j.(window := j.window[e.oldest + 1..], used := j.used - |j.window[e.oldest].pieces|)
  }

  /** The hardware has executed `count` descriptors of the chain it was started on. */
  ghost predicate ExecuteStep(cfg: Config, j: Joint, e: Event, k: Joint)
    requires Shaped(cfg, j) && e.Execute?
  {
    && j.eng.running && j.current < |j.jobs| && j.jobs[j.current].start < RING
    && |j.made[j.current]| < |j.jobs[j.current].pieces| && |j.made[j.current]| <= e.count
    && k == j.(made := j.made[j.current := HardwareRun(cfg, j.ring, cfg.SlotBus(j.jobs[j.current].start), e.count)])
  }

  /** The count that a service call on a running engine reads is the number of descriptors executed. */
  ghost predicate Truthful(j: Joint, hw: Hw)
  {
    j.eng.running ==> j.current < |j.made| && RawCount(hw) == |j.made[j.current]|
  }

  ghost predicate ServeStep(cfg: Config, j: Joint, e: Event, k: Joint)
    requires Shaped(cfg, j) && e.Serve?
  {
    && Truthful(j, e.hw) && k.eng == Service(j.eng, e.hw) && k == j.(eng := k.eng, made := k.made, current := k.current)
    && if Restarts(j.eng, e.hw) then Begins(k, j.made) else k.made == j.made && k.current == j.current
  }

  ghost predicate JointStep(cfg: Config, j: Joint, e: Event, k: Joint)
    requires Shaped(cfg, j)
  {
    match e
    case Enqueue(_, _, _, _, _) => EnqueueStep(cfg, j, e, k)
    case Execute(_) => ExecuteStep(cfg, j, e, k)
    case Serve(_) => ServeStep(cfg, j, e, k)
    case Release(_) => ReleaseStep(cfg, j, e, k)
    case GiveUp(id) => AbortsSafely(j.eng, StepAbort(id)) && k == j.(eng := Abort(j.eng, id))
    case GoOffline => k == j.(eng := j.eng.(request := true, running := false))
    case GoOnline => k == j.(eng := j.eng.(request := false))
  }

  /** The subtraction that gives the number of new descriptors does not wrap. */
  predicate CountsForward(s: Eng, hw: Hw) { s.running && RawCount(hw) != 0 ==> s.dequeued <= RawCount(hw) }

  // ---- What every such step keeps.

  /** A running engine works on the head of the queue, or on a transfer that has left it. */
  ghost predicate InFlight(cfg: Config, j: Joint)
    requires Shaped(cfg, j)
  {
    && j.current < |j.jobs| && j.eng.list != [] && Loaded(cfg, j.ring, j.jobs[j.current])
    && j.made[j.current] <= PlanOf(cfg, j.jobs[j.current])
    && if j.current == j.eng.list[0] then j.eng.dequeued == 0
       else
         && j.current !in j.eng.list && j.made[j.eng.list[0]] == []
         && j.eng.dequeued >= |j.jobs[j.current].pieces|
  }

  /** Every transfer marked COMPLETED has made all its planned moves. */
  ghost predicate Honest(cfg: Config, xfers: seq<Xfer>, jobs: seq<Job>, made: seq<seq<Move>>)
    requires |xfers| == |jobs| == |made|
  {
    forall id :: 0 <= id < |xfers| && xfers[id].state == Completed ==> made[id] == PlanOf(cfg, jobs[id])
  }

  /** The transfers are the jobs, of at most a ring's length. */
  ghost predicate Sized(j: Joint)
  {
    && |j.jobs| == |j.eng.xfers|
    && forall id :: 0 <= id < |j.jobs| ==> |j.jobs[id].pieces| == j.eng.xfers[id].descNum <= RING
  }

  /** The chains of queued transfers are in the ring. */
  ghost predicate AllLoaded(cfg: Config, j: Joint)
    requires Shaped(cfg, j)
  {
    forall i :: 0 <= i < |j.eng.list| ==> Loaded(cfg, j.ring, j.jobs[j.eng.list[i]])
  }

  /** Nothing behind the head of the queue has been started. */
  ghost predicate Unstarted(cfg: Config, j: Joint)
    requires Shaped(cfg, j)
  {
    forall i :: 0 < i < |j.eng.list| ==> j.made[j.eng.list[i]] == []
  }

  function Spans(jobs: seq<Job>): (r: seq<RingAllocator.Span>)
    ensures |r| == |jobs|
  {
    seq(|jobs|, i requires 0 <= i < |jobs| => RingAllocator.Span(jobs[i].start, |jobs[i].pieces|))
  }

  function Slots(j: Joint): RingAllocator.Ring
  {
    RingAllocator.Ring(j.idx, RingAllocator.SumLen(Spans(j.window)), Spans(j.window))
  }

  /** The window lies in the ring without a gap, is counted in desc_used, and holds all that is needed. */
  ghost predicate Held(cfg: Config, j: Joint)
    requires Shaped(cfg, j)
  {
    RingAllocator.Inv(Slots(j)) && Slots(j).used <= j.used && Needed(cfg, j, j.window)
  }

  ghost predicate JointInv(cfg: Config, j: Joint)
  {
    && Shaped(cfg, j) && Inv(j.eng) && Held(cfg, j) && Sized(j) && AllLoaded(cfg, j) && Unstarted(cfg, j)
    && Honest(cfg, j.eng.xfers, j.jobs, j.made)
    && (j.eng.running ==> InFlight(cfg, j))
  }

  lemma ExecuteKeeps(cfg: Config, j: Joint, e: Event, k: Joint)
    requires JointInv(cfg, j) && !cfg.StreamsToHost() && e.Execute? && ExecuteStep(cfg, j, e, k)
    ensures JointInv(cfg, k)
  {
    var job := j.jobs[j.current];
    ChainMeaning(cfg, j.ring, job.start, job.pieces, job.ep, e.count);
    hide Inv, Holds, HardwareRun, Planned;
  }

  lemma QueueShape(s: Eng, n: nat, flagSeen: bool, status: bv32)
    requires n > 0
    ensures var r := Queue(s, n, flagSeen, status);
      && (|r.xfers| == |s.xfers| ==> r == s)
      && (|r.xfers| != |s.xfers| ==>
            && r.list == s.list + [|s.xfers|] && r.xfers == s.xfers + [Xfer(n, Submitted, 0)] && r.running
            && (s.running ==> r.dequeued == s.dequeued) && (!s.running ==> r.dequeued == 0))
  {
  }

  // ---- The slots.

  predicate Apart(a: Job, b: Job) { a.start + |a.pieces| <= b.start || b.start + |b.pieces| <= a.start }

  lemma ChainIsAsLong(cfg: Config, b: Job)
    requires cfg.Valid() && b.start + |b.pieces| <= RING
    ensures |Chain(cfg, b.start, b.pieces, b.ep)| == |b.pieces|
  {
  }

  /** Writing a chain leaves in the ring every chain whose slots are disjoint from it. */
  lemma WriteKeepsLoaded(cfg: Config, before: seq<Desc>, after: seq<Desc>, a: Job, b: Job)
    requires Loaded(cfg, before, a) && b.start + |b.pieces| <= RING && b.pieces != [] && Apart(a, b)
    requires after == before[..b.start] + Chain(cfg, b.start, b.pieces, b.ep) + before[b.start + |b.pieces|..]
    ensures Loaded(cfg, after, a)
  {
    hide Chain;
    ChainIsAsLong(cfg, b);
    assert after[a.start..a.start + |a.pieces|] == before[a.start..a.start + |a.pieces|];
  }

  lemma WriteLoads(cfg: Config, before: seq<Desc>, after: seq<Desc>, b: Job)
    requires cfg.Valid() && |before| == RING && b.start + |b.pieces| <= RING && b.pieces != []
    requires after == before[..b.start] + Chain(cfg, b.start, b.pieces, b.ep) + before[b.start + |b.pieces|..]
    ensures Loaded(cfg, after, b) && |after| == RING
  {
    hide Chain;
    ChainIsAsLong(cfg, b);
    assert after[b.start..b.start + |b.pieces|] == Chain(cfg, b.start, b.pieces, b.ep);
  }

  /** Taking slots is a step of the ring allocator. */
  lemma TakesSlots(cfg: Config, j: Joint, e: Event, k: Joint)
    requires Shaped(cfg, j) && e.Enqueue? && Takes(cfg, j, e, k) && RingAllocator.Inv(Slots(j))
    ensures RingAllocator.Inv(Slots(k)) && Slots(k).used == Slots(j).used + |e.pieces|
  {
    hide RingAllocator.Inv, Chain;
    RingAllocator.TakeKeepsInv(Slots(j), e.left);
    assert Spans(k.window) == Spans(j.window) + [RingAllocator.Span(j.idx, |e.pieces|)];
    assert Spans(k.window)[..|j.window|] == Spans(j.window);
  }

  /** While desc_used is at most 2048, the slots taken are apart from all that is held. */
  lemma TakesApart(cfg: Config, j: Joint, e: Event, k: Joint, a: Job)
    requires Shaped(cfg, j) && e.Enqueue? && Takes(cfg, j, e, k) && RingAllocator.Inv(Slots(k)) && Slots(k).used <= RING
    requires a in j.window
    ensures Apart(a, Job(j.idx, e.pieces, e.ep))
  {
    hide RingAllocator.Inv, Chain;
    var i :| 0 <= i < |j.window| && j.window[i] == a;
    RingAllocator.PairApart(Slots(k), i, |j.window|);
    assert k.window[i] == a && k.window[|j.window|] == Job(j.idx, e.pieces, e.ep);
  }

  /** The new chain is in the ring, and those of queued transfers and of the one being executed still are. */
  ghost predicate Written(cfg: Config, j: Joint, job: Job, ring: seq<Desc>)
    requires Shaped(cfg, j)
  {
    && |ring| == RING && Loaded(cfg, ring, job)
    && (forall i :: 0 <= i < |j.eng.list| ==> Loaded(cfg, ring, j.jobs[j.eng.list[i]]))
    && (j.eng.running && j.current < |j.jobs| ==> Loaded(cfg, ring, j.jobs[j.current]))
  }

  /** So every chain that is needed survives. */
  lemma TakesWrites(cfg: Config, j: Joint, e: Event, k: Joint)
    requires JointInv(cfg, j) && e.Enqueue? && Takes(cfg, j, e, k) && k.used <= RING
    ensures Written(cfg, j, Job(j.idx, e.pieces, e.ep), k.ring) && Held(cfg, j)
    ensures RingAllocator.Inv(Slots(k)) && Slots(k).used <= k.used
  {
    var job := Job(j.idx, e.pieces, e.ep);
    TakesSlots(cfg, j, e, k);
    WriteLoads(cfg, j.ring, k.ring, job);
    hide RingAllocator.Inv, Chain, Inv, Slots, Loaded, Honest, Sized, Unstarted, ChainLength;
    forall i | 0 <= i < |j.eng.list| ensures Loaded(cfg, k.ring, j.jobs[j.eng.list[i]]) {
      TakesApart(cfg, j, e, k, j.jobs[j.eng.list[i]]);
      WriteKeepsLoaded(cfg, j.ring, k.ring, j.jobs[j.eng.list[i]], job);
    }
    if j.eng.running {
      TakesApart(cfg, j, e, k, j.jobs[j.current]);
      WriteKeepsLoaded(cfg, j.ring, k.ring, j.jobs[j.current], job);
    }
  }

  lemma ReleasedLess(spans: seq<RingAllocator.Span>, n: nat)
    requires 0 < n <= |spans|
    ensures RingAllocator.SumLen(spans[n..]) + spans[n - 1].len <= RingAllocator.SumLen(spans)
  {
    RingAllocator.SumConcat(spans[..n], spans[n..]);
    assert spans[..n] + spans[n..] == spans;
    RingAllocator.SumPrefixStep(spans, n - 1);
  }

  lemma ReleaseKeeps(cfg: Config, j: Joint, e: Event, k: Joint)
    requires JointInv(cfg, j) && e.Release? && ReleaseStep(cfg, j, e, k)
    ensures JointInv(cfg, k)
  {
    hide Inv, Loaded, Planned, RingAllocator.Inv;
    var spans, n := Spans(j.window), e.oldest + 1;
    RingAllocator.NewestInv(Slots(j), n);
    assert Spans(k.window) == spans[n..];
    ReleasedLess(spans, n);
  }

  /** What a successful enqueue leaves alone. */
  ghost predicate Appended(j: Joint, k: Joint, job: Job)
  {
    && k.eng.list == j.eng.list + [|j.eng.xfers|]
    && k.eng.xfers == j.eng.xfers + [Xfer(|job.pieces|, Submitted, 0)] && k.jobs == j.jobs + [job]
    && |k.made| == |j.made| + 1
    && forall id :: 0 <= id < |j.made| ==> k.made[id] == j.made[id] || (k.eng.list[0] == id && k.made[id] == [])
  }

  lemma AppendedParts(cfg: Config, j: Joint, job: Job, k: Joint)
    requires Shaped(cfg, j) && Shaped(cfg, k) && Sized(j) && Unstarted(cfg, j) && Appended(j, k, job)
    requires 0 < |job.pieces| <= RING && k.made[|j.made|] == []
    requires Written(cfg, j, job, k.ring)
    ensures Sized(k) && AllLoaded(cfg, k) && Unstarted(cfg, k)
  {
    hide Loaded;
    forall i | 0 <= i < |k.eng.list|
      ensures Loaded(cfg, k.ring, k.jobs[k.eng.list[i]]) && (i > 0 ==> k.made[k.eng.list[i]] == [])
    {
      if i < |j.eng.list| { assert k.eng.list[i] == j.eng.list[i] < |j.jobs|; }
    }
  }

  lemma AppendedHonest(cfg: Config, j: Joint, job: Job, k: Joint)
    requires Shaped(cfg, j) && Shaped(cfg, k) && Appended(j, k, job) && Consistent(k.eng)
    requires Honest(cfg, j.eng.xfers, j.jobs, j.made)
    ensures Honest(cfg, k.eng.xfers, k.jobs, k.made)
  {
    hide PlanOf;
    assert k.eng.list[0] in k.eng.list;
  }

  lemma AppendedFlight(cfg: Config, j: Joint, e: Event, k: Joint)
    requires JointInv(cfg, j) && Shaped(cfg, k) && e.Enqueue? && EnqueueStep(cfg, j, e, k)
    requires Appended(j, k, Job(j.idx, e.pieces, e.ep)) && Written(cfg, j, Job(j.idx, e.pieces, e.ep), k.ring)
    requires j.eng.running ==> k.eng.dequeued == j.eng.dequeued
    requires !j.eng.running ==> k.eng.dequeued == 0
    requires AllLoaded(cfg, k)
    ensures InFlight(cfg, k)
  {
    hide Inv, Loaded, Planned, Queue, Honest, Sized, Unstarted;
    if j.eng.running {
      assert k.eng.list[0] == j.eng.list[0] && k.jobs[k.current] == j.jobs[j.current];
    }
  }

  lemma AppendedHeld(cfg: Config, j: Joint, e: Event, k: Joint)
    requires JointInv(cfg, j) && Shaped(cfg, k) && e.Enqueue? && EnqueueStep(cfg, j, e, k)
    requires Appended(j, k, Job(j.idx, e.pieces, e.ep)) && k.current < |k.jobs|
    ensures Needed(cfg, k, k.window)
  {
    hide Inv, Loaded, Planned, Queue, Honest, Sized, Unstarted, Chain, ChainLength, RingAllocator.Inv, InFlight;
    var job := Job(j.idx, e.pieces, e.ep);
    assert k.window[|j.window|] == job;
    forall i | 0 <= i < |k.eng.list| ensures k.jobs[k.eng.list[i]] in k.window {
      if i < |j.eng.list| { assert k.jobs[k.eng.list[i]] == j.jobs[j.eng.list[i]]; }
    }
    if !j.eng.running { assert k.current == k.eng.list[0]; }
  }

  lemma InvParts(s: Eng)
    requires Inv(s)
    ensures Queued(s) && Consistent(s)
  {
  }

  lemma EnqueueKeeps(cfg: Config, j: Joint, e: Event, k: Joint)
    requires JointInv(cfg, j) && e.Enqueue? && EnqueueStep(cfg, j, e, k) && k.used <= RING
    ensures JointInv(cfg, k)
  {
    hide Inv, Loaded, Queue, Planned, Consistent, Chain, RingAllocator.Inv, Slots;
    QueueKeeps(j.eng, |e.pieces|, e.flagSeen, e.status);
    QueueShape(j.eng, |e.pieces|, e.flagSeen, e.status);
    TakesWrites(cfg, j, e, k);
    InvParts(k.eng);
    hide ChainLength;
    if |k.eng.xfers| != |j.eng.xfers| {
      var job := Job(j.idx, e.pieces, e.ep);
      assert Appended(j, k, job);
      AppendedParts(cfg, j, job, k);
      AppendedHonest(cfg, j, job, k);
      AppendedFlight(cfg, j, e, k);
      AppendedHeld(cfg, j, e, k);
    }
  }

  // ---- A service call.

  lemma FinalHead(t: Eng, c: nat)
    requires Queued(t) && t.list != [] && c <= t.xfers[t.list[0]].descNum
    ensures var f := Final(t, c); var head := t.list[0]; var n := t.xfers[head].descNum;
      && f.list == t.list[1..] && |f.xfers| == |t.xfers|
      && (forall id :: 0 <= id < |t.xfers| ==>
            f.xfers[id].descNum == t.xfers[id].descNum && (id != head ==> f.xfers[id] == t.xfers[id]))
      && (f.xfers[head].state == Completed ==> c == n) && f.xfers[head].state != Submitted
      && (f.running ==> f.dequeued == t.dequeued + n)
  {
    hide HasError;
  }

  lemma ResumeShape(f: Eng, status: bv32)
    ensures var r := Resume(f, status);
      && r.list == f.list && r.xfers == f.xfers && (r.running ==> r.list != [])
      && (!f.running && f.list != [] ==> r.running && r.dequeued == 0)
      && (f.running || f.list == [] ==> r.dequeued == f.dequeued && (r.running ==> f.running))
  {
    if !f.running && f.list != [] { assert Resume(f, status) == Started(f, status); }
  }

  /** A service call that takes just the head off the queue. */
  ghost predicate HeadServed(s: Eng, hw: Hw, r: Eng)
    requires Queued(s) && s.list != []
  {
    var head := s.list[0]; var n := s.xfers[head].descNum;
    && r.list == s.list[1..] && |r.xfers| == |s.xfers|
    && (forall id :: 0 <= id < |s.xfers| ==>
          r.xfers[id].descNum == s.xfers[id].descNum && (id != head ==> r.xfers[id] == s.xfers[id]))
    && (r.xfers[head].state == Completed ==> NewCount(s, hw) == n)
    && (r.running ==> r.list != [])
    && if Restarts(s, hw) then r.running && r.dequeued == 0
       else (r.running ==> r.dequeued == s.dequeued + n)
  }

  lemma ServiceUnfolds(s: Eng, hw: Hw)
    requires Queued(s) && s.list != [] && s.running && RawCount(hw) != 0
    requires NewCount(s, hw) <= s.xfers[s.list[0]].descNum
    ensures var t := Sampled(s, hw); t.list == s.list && t.xfers == s.xfers && t.dequeued == s.dequeued && Queued(t)
    ensures var f := Final(Sampled(s, hw), NewCount(s, hw));
      Service(s, hw) == Resume(f, hw.restartStatus) && Restarts(s, hw) == (!f.running && f.list != [])
  {
    hide Busy, NewCount, Final, Resume, RawCount, HasError;
    var t, c := Sampled(s, hw), NewCount(s, hw);
    assert t.list == s.list && t.xfers == s.xfers && t.dequeued == s.dequeued && Queued(t);
    hide Sampled;
    assert PopDone(t, c) == (t, c);
  }

  lemma ServesHead(s: Eng, hw: Hw)
    requires Queued(s) && s.list != [] && s.running && RawCount(hw) != 0
    requires NewCount(s, hw) <= s.xfers[s.list[0]].descNum
    ensures HeadServed(s, hw, Service(s, hw))
  {
    hide Sampled, NewCount, PopDone, Final, Resume, RawCount, Service, Restarts;
    ServiceUnfolds(s, hw);
    var t, c := Sampled(s, hw), NewCount(s, hw);
    FinalHead(t, c);
    ResumeShape(Final(t, c), hw.restartStatus);
  }

  /** The three numbers a service call compares: with no wrap, the count is new for the head or not new at all. */
  lemma NewIs(s: Eng, hw: Hw)
    requires s.dequeued <= RawCount(hw)
    ensures NewCount(s, hw) == RawCount(hw) - s.dequeued
  {
  }

  lemma ServedParts(cfg: Config, j: Joint, hw: Hw, k: Joint)
    requires JointInv(cfg, j) && Shaped(cfg, k) && ServeStep(cfg, j, Serve(hw), k) && j.eng.list != []
    requires HeadServed(j.eng, hw, k.eng)
    ensures Sized(k) && AllLoaded(cfg, k) && Unstarted(cfg, k)
  {
    hide Inv, Loaded, Service, Planned, Restarts, RawCount, NewCount;
    forall i | 0 <= i < |k.eng.list|
      ensures Loaded(cfg, k.ring, k.jobs[k.eng.list[i]]) && (i > 0 ==> k.made[k.eng.list[i]] == [])
    {
      assert k.eng.list[i] == j.eng.list[i + 1];
    }
  }

  lemma ServedHonest(cfg: Config, j: Joint, hw: Hw, k: Joint)
    requires JointInv(cfg, j) && Shaped(cfg, k) && ServeStep(cfg, j, Serve(hw), k) && j.eng.running
    requires HeadServed(j.eng, hw, k.eng) && NewCount(j.eng, hw) == RawCount(hw) - j.eng.dequeued && Consistent(k.eng)
    ensures Honest(cfg, k.eng.xfers, k.jobs, k.made)
  {
    hide Inv, Loaded, Service, Restarts, RawCount, NewCount, AllLoaded, Unstarted;
    var head := j.eng.list[0];
    forall id | 0 <= id < |k.jobs| && k.eng.xfers[id].state == Completed ensures k.made[id] == PlanOf(cfg, k.jobs[id]) {
      assert id !in k.eng.list;
      if id == head { assert j.current == head; }
    }
  }

  lemma ServedFlight(cfg: Config, j: Joint, hw: Hw, k: Joint)
    requires JointInv(cfg, j) && Shaped(cfg, k) && ServeStep(cfg, j, Serve(hw), k) && j.eng.running && k.eng.running
    requires HeadServed(j.eng, hw, k.eng) && AllLoaded(cfg, k) && Increasing(j.eng.list)
    ensures InFlight(cfg, k)
  {
    hide Inv, Loaded, Service, Restarts, RawCount, NewCount, Planned, Honest;
    assert k.eng.list[0] == j.eng.list[1];
    assert forall i :: 0 <= i < |k.eng.list| ==> k.eng.list[i] == j.eng.list[i + 1];
  }

  lemma ServedKeeps(cfg: Config, j: Joint, hw: Hw, k: Joint)
    requires JointInv(cfg, j) && ServeStep(cfg, j, Serve(hw), k) && CountsForward(j.eng, hw)
    requires j.eng.running && RawCount(hw) != 0
    ensures JointInv(cfg, k)
  {
    hide Service, Restarts, RawCount, NewCount, Honest, AllLoaded, Unstarted, RingAllocator.Inv, Loaded;
    ServiceKeeps(j.eng, hw);
    NewIs(j.eng, hw);
    assert Increasing(j.eng.list) && Queued(k.eng) && Consistent(k.eng);
    assert j.eng.dequeued >= 0 && |j.made[j.current]| <= |j.jobs[j.current].pieces|;
    ServesHead(j.eng, hw);
    hide Inv, InFlight, Consistent;
    ServedParts(cfg, j, hw, k);
    ServedHonest(cfg, j, hw, k);
    if k.eng.running { ServedFlight(cfg, j, hw, k); }
  }

  lemma IdleService(s: Eng, hw: Hw)
    requires Queued(s) && (!s.running || RawCount(hw) == 0)
    ensures var r := Service(s, hw);
      r.list == s.list && r.xfers == s.xfers && r.dequeued == s.dequeued && (r.running ==> s.running)
    ensures !Restarts(s, hw)
  {
    hide Busy, RawCount, NewCount, PopDone, Final, Resume;
  }

  /** A service call that finds the engine stopped, or nothing done. */
  lemma IdleServeKeeps(cfg: Config, j: Joint, hw: Hw, k: Joint)
    requires JointInv(cfg, j) && ServeStep(cfg, j, Serve(hw), k)
    requires !j.eng.running || RawCount(hw) == 0
    ensures JointInv(cfg, k)
  {
    hide Inv, Loaded, Service, Restarts, RawCount, PlanOf, RingAllocator.Inv;
    ServiceKeeps(j.eng, hw);
    IdleService(j.eng, hw);
  }

  lemma AbortShape(s: Eng, id: nat)
    ensures var r := Abort(s, id);
      || r == s
      || (&& !r.running && (r.list == s.list || (s.list != [] && r.list == s.list[1..])) && |r.xfers| == |s.xfers|
          && forall k :: 0 <= k < |s.xfers| ==>
               r.xfers[k].descNum == s.xfers[k].descNum
                 && (r.xfers[k].state == Completed ==> s.xfers[k].state == Completed))
  {
  }

  lemma GiveUpKeeps(cfg: Config, j: Joint, id: nat, k: Joint)
    requires JointInv(cfg, j) && AbortsSafely(j.eng, StepAbort(id)) && k == j.(eng := Abort(j.eng, id))
    ensures JointInv(cfg, k)
  {
    AbortKeeps(j.eng, id);
    AbortShape(j.eng, id);
    assert Queued(k.eng);
    hide Inv, Loaded, PlanOf, Abort, AbortsSafely, InFlight;
    if k.eng.list != j.eng.list {
      assert forall i :: 0 <= i < |k.eng.list| ==> k.eng.list[i] == j.eng.list[i + 1];
    }
  }

  lemma SwitchKeeps(cfg: Config, j: Joint, request: bool, running: bool)
    requires JointInv(cfg, j) && (running ==> j.eng.running) && (request ==> !running)
    ensures JointInv(cfg, j.(eng := j.eng.(request := request, running := running)))
  {
    hide Loaded, RingAllocator.Inv, PlanOf;
  }

  /** Every step of the joint run keeps the invariant, while desc_used fits the ring and no count runs backwards. */
  lemma JointStepKeeps(cfg: Config, j: Joint, e: Event, k: Joint)
    requires JointInv(cfg, j) && !cfg.StreamsToHost() && JointStep(cfg, j, e, k) && k.used <= RING
    requires e.Serve? ==> CountsForward(j.eng, e.hw)
    ensures JointInv(cfg, k)
  {
    hide JointInv, EnqueueStep, ExecuteStep, ServeStep, ReleaseStep, Abort, AbortsSafely, RawCount, CountsForward,
        Shaped;
    match e
    case Enqueue(_, _, _, _, _) => EnqueueKeeps(cfg, j, e, k);
    case Release(_) => ReleaseKeeps(cfg, j, e, k);
    case Execute(_) => ExecuteKeeps(cfg, j, e, k);
    case Serve(hw) =>
      if j.eng.running && RawCount(hw) != 0 { ServedKeeps(cfg, j, hw, k); } else { IdleServeKeeps(cfg, j, hw, k); }
    case GiveUp(id) => GiveUpKeeps(cfg, j, id, k);
    case GoOffline => SwitchKeeps(cfg, j, true, false);
    case GoOnline => SwitchKeeps(cfg, j, false, j.eng.running);
  }
}
