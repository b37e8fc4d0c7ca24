/** Runs of the queue, the ring and the hardware together: what COMPLETED means, and when it lies. */
module CompletionRuns {
  import opened Words
  import opened ScatterSplit
  import opened Descriptors
  import opened Transfers
  import opened DmaMeaning
  import opened EngineQueue
  import opened Completion
  import RingAllocator
  import Submit

  ghost predicate StartsFresh(cfg: Config, j: Joint)
  {
    && cfg.Valid() && |j.ring| == RING && j.idx < RING && j.used == 0 && j.window == []
    && j.jobs == [] && j.made == [] && j.eng == Fresh(cfg.toDevice)
  }

  ghost predicate IsRun(cfg: Config, js: seq<Joint>, es: seq<Event>)
  {
    && |js| == |es| + 1 && StartsFresh(cfg, js[0])
    && forall i :: 0 <= i < |es| ==> Shaped(cfg, js[i]) && JointStep(cfg, js[i], es[i], js[i + 1])
  }

  /** desc_used never exceeds the ring, and no count that a service call reads is below desc_dequeued. */
  ghost predicate Orderly(js: seq<Joint>, es: seq<Event>)
    requires |js| == |es| + 1
  {
    && (forall i :: 0 <= i < |js| ==> js[i].used <= RING)
    && (forall i :: 0 <= i < |es| && es[i].Serve? ==> CountsForward(js[i].eng, es[i].hw))
  }

  lemma FreshInv(cfg: Config, j: Joint)
    requires StartsFresh(cfg, j)
    ensures JointInv(cfg, j)
  {
    assert Spans(j.window) == [];
  }

  lemma {:induction false} RunKeepsJoint(cfg: Config, js: seq<Joint>, es: seq<Event>, i: nat)
    requires IsRun(cfg, js, es) && Orderly(js, es) && !cfg.StreamsToHost() && i <= |es|
    ensures JointInv(cfg, js[i])
  {
    hide JointInv, JointStep, Shaped, CountsForward, StartsFresh;
    if i == 0 {
      FreshInv(cfg, js[0]);
    } else {
      RunKeepsJoint(cfg, js, es, i - 1);
      JointStepKeeps(cfg, js[i - 1], es[i - 1], js[i]);
    }
  }

  /**
    In every run in which the hardware reports what it has executed, desc_used stays within the ring and no
    count runs backwards, a transfer marked COMPLETED has made all the moves planned for its pieces.
   */
  lemma CompletedMeansMoved(cfg: Config, js: seq<Joint>, es: seq<Event>, i: nat, id: nat)
    requires IsRun(cfg, js, es) && Orderly(js, es) && !cfg.StreamsToHost() && i <= |es|
    requires id < |js[i].eng.xfers| && js[i].eng.xfers[id].state == Completed
    ensures |js[i].jobs| == |js[i].made| == |js[i].eng.xfers|
    ensures js[i].made[id] == PlanOf(cfg, js[i].jobs[id])
  {
    RunKeepsJoint(cfg, js, es, i);
  }

  // ---- A whole request.

  function AllPieces(jobs: seq<Job>): (r: seq<Segment>)
  {
    if jobs == [] then [] else AllPieces(jobs[..|jobs| - 1]) + jobs[|jobs| - 1].pieces
  }

  function Concat(made: seq<seq<Move>>): (r: seq<Move>)
  {
    if made == [] then [] else Concat(made[..|made| - 1]) + made[|made| - 1]
  }

  /** Each job starts at the endpoint address where those before it left off. */
  ghost predicate Consecutively(cfg: Config, jobs: seq<Job>, ep: u64)
  {
    forall k :: 0 <= k < |jobs| ==> jobs[k].ep == EndpointAfter(cfg, ep, AllPieces(jobs[..k]))
  }

  lemma {:induction false} JobsPlan(cfg: Config, jobs: seq<Job>, made: seq<seq<Move>>, ep: u64)
    requires |jobs| == |made| && Consecutively(cfg, jobs, ep)
    requires forall k :: 0 <= k < |jobs| ==> made[k] == PlanOf(cfg, jobs[k])
    ensures Concat(made) == Planned(cfg, AllPieces(jobs), ep)
  {
    if jobs != [] {
      var n := |jobs| - 1;
      forall k | 0 <= k < n ensures jobs[..n][k].ep == EndpointAfter(cfg, ep, AllPieces(jobs[..n][..k])) {
        assert jobs[..n][..k] == jobs[..k];
      }
      JobsPlan(cfg, jobs[..n], made[..n], ep);
      PlannedConcat(cfg, AllPieces(jobs[..n]), jobs[n].pieces, ep);
    }
  }

  lemma MadeShape(cfg: Config, js: seq<Joint>, es: seq<Event>, i: nat)
    requires IsRun(cfg, js, es) && Orderly(js, es) && !cfg.StreamsToHost() && i <= |es|
    ensures |js[i].made| == |js[i].jobs|
  {
    RunKeepsJoint(cfg, js, es, i);
  }

  lemma PlanIsList(cfg: Config, jobs: seq<Job>, made: seq<seq<Move>>, sgl: seq<Segment>, blen: u32, ep: u64)
    requires |jobs| == |made| && Consecutively(cfg, jobs, ep) && !cfg.StreamsToHost()
    requires forall k :: 0 <= k < |jobs| ==> made[k] == PlanOf(cfg, jobs[k])
    requires 0 < blen && AllPieces(jobs) == SplitList(sgl, blen)
    ensures Submit.MovesList(cfg, sgl, ep, Concat(made))
  {
    hide Planned, AllPieces, Concat, SplitList, Submit.MovesList;
    JobsPlan(cfg, jobs, made, ep);
    var pieces := SplitList(sgl, blen);
    assert Planned(cfg, pieces, ep)[..|pieces|] == Planned(cfg, pieces, ep);
    Submit.RequestMeaning(cfg, sgl, blen, ep, Concat(made));
  }

  /**
    The whole way: if transfers a .. b of such a run were built from the pieces of a scatter list, one after
    the other, and all are COMPLETED, then what the hardware has moved for them is the list.
   */
  lemma RequestMoved(cfg: Config, js: seq<Joint>, es: seq<Event>, i: nat, a: nat, b: nat, sgl: seq<Segment>,
                     blen: u32, ep: u64)
    requires IsRun(cfg, js, es) && Orderly(js, es) && !cfg.StreamsToHost() && i <= |es|
    requires a <= b <= |js[i].jobs| == |js[i].eng.xfers|
    requires forall id :: a <= id < b ==> js[i].eng.xfers[id].state == Completed
    requires 0 < blen && AllPieces(js[i].jobs[a..b]) == SplitList(sgl, blen) && Consecutively(cfg, js[i].jobs[a..b], ep)
    ensures |js[i].made| == |js[i].jobs| && Submit.MovesList(cfg, sgl, ep, Concat(js[i].made[a..b]))
  {
    var j := js[i];
    assert |js| == |es| + 1;
    hide JointInv, IsRun, Orderly, AllPieces, Concat, Consecutively, SplitList, PlanOf, Submit.MovesList;
    forall id | 0 <= id < b - a ensures |j.made| == |j.jobs| && j.made[a..b][id] == PlanOf(cfg, j.jobs[a..b][id]) {
      assert j.jobs[a..b][id] == j.jobs[a + id];
      CompletedMeansMoved(cfg, js, es, i, a + id);
    }
    MadeShape(cfg, js, es, i);
    PlanIsList(cfg, j.jobs[a..b], j.made[a..b], sgl, blen, ep);
  }

  // ---- The condition on counts is exact.

  /** A count that runs backwards wraps, and completes the head of the queue at least. */
  lemma BackwardCompletes(s: Eng, hw: Hw)
    requires Inv(s) && s.running && RawCount(hw) != 0 && RawCount(hw) < s.dequeued < 0x8000_0000
    requires s.xfers[s.list[0]].descNum <= RING
    ensures |Service(s, hw).xfers| == |s.xfers| && Service(s, hw).xfers[s.list[0]].state == Completed
  {
    ServiceRefines(s, hw);
    var nums := Nums(s);
    assert End(nums, 0) == 0 && End(nums, 1) == End(nums, 0) + nums[0];
    assert NewCount(s, hw) == RawCount(hw) - s.dequeued + TWO32;
  }

  lemma ForwardIsHonest(cfg: Config, j: Joint, hw: Hw)
    requires JointInv(cfg, j) && Truthful(j, hw) && j.eng.running && RawCount(hw) != 0 && CountsForward(j.eng, hw)
    ensures |Service(j.eng, hw).xfers| == |j.jobs| == |j.made|
    ensures Honest(cfg, Service(j.eng, hw).xfers, j.jobs, j.made)
  {
    NewIs(j.eng, hw);
    assert |j.made[j.current]| <= |j.jobs[j.current].pieces|;
    assert Queued(j.eng);
    ServesHead(j.eng, hw);
    hide Inv, Loaded, Service, Restarts, RawCount, NewCount, AllLoaded, Unstarted, Held;
  }

  /**
    A service call that reads the true count leaves only transfers that have made all their moves marked
    COMPLETED if and only if the count has not run backwards. desc_dequeued is an int, hence the bound.
   */
  lemma HonestIff(cfg: Config, j: Joint, hw: Hw)
    requires JointInv(cfg, j) && Truthful(j, hw) && j.eng.running && RawCount(hw) != 0 && j.eng.dequeued < 0x8000_0000
    ensures |Service(j.eng, hw).xfers| == |j.jobs| == |j.made|
    ensures Honest(cfg, Service(j.eng, hw).xfers, j.jobs, j.made) <==> CountsForward(j.eng, hw)
  {
    hide Service, RawCount, Held, Loaded;
    if CountsForward(j.eng, hw) {
      ForwardIsHonest(cfg, j, hw);
    } else {
      BackwardCompletes(j.eng, hw);
      var head := j.eng.list[0];
      assert j.made[head] == [] && |PlanOf(cfg, j.jobs[head])| == j.eng.xfers[head].descNum > 0;
    }
  }

  // ---- Two runs in which the service call comes too early, or once too often.

  /** A ring of blank descriptors, the engine fresh. */
  function Blank(cfg: Config): Joint
  {
    Joint(Fresh(cfg.toDevice), [], seq(RING, _ => Desc(0, 0, 0, 0, 0, 0, 0, 0)), 0, [], 0, 0, [])
  }

  /** The ring after the chain for these pieces was written at idx. */
  function WriteAt(cfg: Config, ring: seq<Desc>, idx: nat, pieces: seq<Segment>, ep: u64): (r: seq<Desc>)
    requires cfg.Valid() && |ring| == RING && idx + |pieces| <= RING
    ensures |r| == RING
  {
    ring[..idx] + Chain(cfg, idx, pieces, ep) + ring[idx + |pieces|..]
  }

  /** One transfer of these pieces queued and started, then a second. */
  function OneJob(cfg: Config, pieces: seq<Segment>): Joint
    requires cfg.Valid() && 0 < |pieces| <= 2
  {
    var n, job := |pieces|, Job(0, pieces, 0);
    var eng := Eng(cfg.toDevice, true, false, false, 0, STAT_BUSY, [0], [Xfer(n, Submitted, 0)]);
    Joint(eng, [job], WriteAt(cfg, Blank(cfg).ring, 0, pieces, 0), 0, [[]], n, n, [job])
  }

  function TwoJobs(cfg: Config, pieces: seq<Segment>, done: seq<Move>): Joint
    requires cfg.Valid() && 0 < |pieces| <= 2
  {
    var n, a, b := |pieces|, Job(0, pieces, 0), Job(|pieces|, pieces, 0);
    Joint(TwoQueued(cfg.toDevice, n), [a, b], WriteAt(cfg, OneJob(cfg, pieces).ring, n, pieces, 0), 0, [done, []],
          2 * n, 2 * n, [a, b])
  }

  function EnqueueOf(pieces: seq<Segment>): Event { Enqueue(|pieces|, pieces, 0, false, STAT_BUSY) }

  lemma FirstEnqueue(cfg: Config, pieces: seq<Segment>)
    requires cfg.Valid() && 0 < |pieces| <= 2
    ensures Shaped(cfg, Blank(cfg)) && StartsFresh(cfg, Blank(cfg))
    ensures JointStep(cfg, Blank(cfg), EnqueueOf(pieces), OneJob(cfg, pieces))
  {
    hide Chain;
  }

  lemma SecondEnqueue(cfg: Config, pieces: seq<Segment>)
    requires cfg.Valid() && 0 < |pieces| <= 2
    ensures Shaped(cfg, OneJob(cfg, pieces))
      && JointStep(cfg, OneJob(cfg, pieces), EnqueueOf(pieces), TwoJobs(cfg, pieces, []))
  {
    hide Chain;
  }

  lemma FirstMove(cfg: Config, pieces: seq<Segment>)
    requires cfg.Valid() && 0 < |pieces| <= 2 && !cfg.StreamsToHost()
    ensures var done := Planned(cfg, pieces, 0)[..1];
      Shaped(cfg, TwoJobs(cfg, pieces, []))
        && JointStep(cfg, TwoJobs(cfg, pieces, []), Execute(1), TwoJobs(cfg, pieces, done))
  {
    hide Chain, Planned;
    var j := TwoJobs(cfg, pieces, []);
    WriteLoads(cfg, Blank(cfg).ring, OneJob(cfg, pieces).ring, j.jobs[0]);
    WriteKeepsLoaded(cfg, OneJob(cfg, pieces).ring, j.ring, j.jobs[0], j.jobs[1]);
    ChainMeaning(cfg, j.ring, 0, pieces, 0, 1);
    hide Holds, HardwareRun, WriteAt;
  }

  lemma RestartsHasList(s: Eng, hw: Hw)
    requires Queued(s) && Restarts(s, hw)
    ensures Service(s, hw).list != []
  {
    hide PopDone, Final, Sampled, RawCount, NewCount;
  }

  /** A busy engine on which just the head is settled goes on running. */
  lemma NoRestart(s: Eng, hw: Hw, c: nat)
    requires Queued(s) && s.running && s.list != [] && c <= s.xfers[s.list[0]].descNum
    requires RawCount(hw) != 0 && hw.WbCount() == 0 && NewCount(s, hw) == c
    requires Busy(hw.status) && !HasError(s.toDevice, hw.status)
    ensures !Restarts(s, hw)
  {
    hide Busy, HasError, RawCount, NewCount;
    ServiceUnfolds(s, hw);
  }

  /** The state after the service call on one descriptor done, the hardware still busy. */
  function Served(cfg: Config, pieces: seq<Segment>): Joint
    requires cfg.Valid() && 0 < |pieces| <= 2
  {
    var j := TwoJobs(cfg, pieces, Planned(cfg, pieces, 0)[..1]);
    j.(eng := Service(j.eng, ONE_DONE))
  }

  /** The first transfer has left the queue, and the second, never started, is its head. */
  ghost predicate LeftBehind(s: Eng, n: nat)
  {
    && |s.xfers| == 2 && s.list == [1] && s.running && s.dequeued == n
    && s.xfers[0].state == (if n == 1 then Completed else Failed) && s.xfers[1] == Xfer(n, Submitted, 0)
  }

  lemma ServedQueue(toDevice: bool, n: nat)
    requires 0 < n <= 2
    ensures var s := TwoQueued(toDevice, n); var r := Service(s, ONE_DONE);
      Queued(s) && !Restarts(s, ONE_DONE) && LeftBehind(r, n) && r.toDevice == toDevice
  {
    var s := TwoQueued(toDevice, n);
    OneDone(toDevice);
    AllNew(s, ONE_DONE);
    hide Service, RawCount, NewCount, Busy, HasError, Hw.WbCount;
    BusyService(s, ONE_DONE, 1);
    NoRestart(s, ONE_DONE, 1);
  }

  lemma FirstServe(cfg: Config, pieces: seq<Segment>)
    requires cfg.Valid() && 0 < |pieces| <= 2
    ensures var j := TwoJobs(cfg, pieces, Planned(cfg, pieces, 0)[..1]);
      Shaped(cfg, j) && JointStep(cfg, j, Serve(ONE_DONE), Served(cfg, pieces)) && CountsForward(j.eng, ONE_DONE)
    ensures var k := Served(cfg, pieces);
      Shaped(cfg, k) && LeftBehind(k.eng, |pieces|) && Truthful(k, ONE_DONE) && |k.made| == 2 && k.made[1] == []
      && k.used == 2 * |pieces|
  {
    ServedQueue(cfg.toDevice, |pieces|);
    OneDone(cfg.toDevice);
    hide Chain, WriteAt, Service, RawCount, Restarts, PlannedMove;
  }

  lemma AgainFails(s: Eng, n: nat)
    requires Inv(s) && LeftBehind(s, n) && 0 < n <= 2
    ensures var r := Service(s, ONE_DONE); !Restarts(s, ONE_DONE) && |r.xfers| == 2
    ensures Service(s, ONE_DONE).xfers[1].state == if n == 1 then Failed else Completed
  {
    OneDone(s.toDevice);
    ServiceRefines(s, ONE_DONE);
    if Restarts(s, ONE_DONE) { RestartsHasList(s, ONE_DONE); }
    hide Service, RawCount, Busy, HasError, Restarts;
    var nums := Nums(s);
    assert End(nums, 0) == 0 && End(nums, 1) == End(nums, 0) + nums[0];
  }

  lemma RunExtends(cfg: Config, js: seq<Joint>, es: seq<Event>, j: Joint, e: Event, k: Joint)
    requires IsRun(cfg, js, es) && js[|es|] == j && Shaped(cfg, j) && JointStep(cfg, j, e, k)
    ensures IsRun(cfg, js + [k], es + [e])
    ensures Orderly(js, es) && k.used <= RING && (e.Serve? ==> CountsForward(j.eng, e.hw)) ==>
      Orderly(js + [k], es + [e])
  {
    hide JointStep, Shaped, StartsFresh, CountsForward;
  }

  lemma RunStarts(cfg: Config)
    requires cfg.Valid()
    ensures IsRun(cfg, [Blank(cfg)], []) && Orderly([Blank(cfg)], [])
  {
  }

  /** Two transfers queued, one descriptor executed, and a service call that finds the hardware busy. */
  lemma EarlyRun(cfg: Config, pieces: seq<Segment>) returns (js: seq<Joint>, es: seq<Event>)
    requires cfg.Valid() && 0 < |pieces| <= 2 && !cfg.StreamsToHost()
    ensures IsRun(cfg, js, es) && Orderly(js, es) && |es| == 4 && js[4] == Served(cfg, pieces)
  {
    hide JointStep, Shaped, Served, CountsForward, WriteAt, StartsFresh, TwoQueued, Planned, IsRun, Orderly,
        PlannedMove;
    var b, c, d, e := OneJob(cfg, pieces), TwoJobs(cfg, pieces, []),
      TwoJobs(cfg, pieces, Planned(cfg, pieces, 0)[..1]), Served(cfg, pieces);
    assert b.used <= RING && c.used <= RING && d.used <= RING;
    RunStarts(cfg);
    FirstEnqueue(cfg, pieces);
    SecondEnqueue(cfg, pieces);
    FirstMove(cfg, pieces);
    FirstServe(cfg, pieces);
    js, es := [Blank(cfg)], [];
    hide Blank, OneJob, TwoJobs;
    RunExtends(cfg, js, es, js[0], EnqueueOf(pieces), b);
    js, es := js + [b], es + [EnqueueOf(pieces)];
    RunExtends(cfg, js, es, b, EnqueueOf(pieces), c);
    js, es := js + [c], es + [EnqueueOf(pieces)];
    RunExtends(cfg, js, es, c, Execute(1), d);
    js, es := js + [d], es + [Execute(1)];
    RunExtends(cfg, js, es, d, Serve(ONE_DONE), e);
    js, es := js + [e], es + [Serve(ONE_DONE)];
  }

  lemma RunLength(cfg: Config, js: seq<Joint>, es: seq<Event>)
    requires IsRun(cfg, js, es)
    ensures |js| == |es| + 1
  {
  }

  lemma QueueInv(cfg: Config, j: Joint)
    requires JointInv(cfg, j)
    ensures Inv(j.eng) && Shaped(cfg, j)
  {
  }

  lemma AgainStep(cfg: Config, j: Joint, k: Joint)
    requires Shaped(cfg, j) && Truthful(j, ONE_DONE) && !Restarts(j.eng, ONE_DONE)
    requires k == j.(eng := Service(j.eng, ONE_DONE))
    ensures JointStep(cfg, j, Serve(ONE_DONE), k)
  {
    hide Service, Restarts;
  }

  /** A second service call at the same count: the second transfer, never started, is failed or completed. */
  lemma ServedAgain(cfg: Config, pieces: seq<Segment>) returns (js: seq<Joint>, es: seq<Event>)
    requires cfg.Valid() && 0 < |pieces| <= 2 && !cfg.StreamsToHost()
    ensures IsRun(cfg, js, es) && |es| == 5 && es[4] == Serve(ONE_DONE) && js[4] == Served(cfg, pieces)
      && JointInv(cfg, js[4])
    ensures var k := js[5]; k == js[4].(eng := Service(js[4].eng, ONE_DONE)) && |k.eng.xfers| == |k.made| == 2
    ensures js[5].eng.xfers[1].state == (if |pieces| == 1 then Failed else Completed) && js[5].made[1] == []
  {
    hide IsRun, Orderly, JointInv, Served, Service, Restarts, LeftBehind, JointStep;
    js, es := EarlyRun(cfg, pieces);
    FirstServe(cfg, pieces);
    assert |js| == 5 by { RunLength(cfg, js, es); }
    RunKeepsJoint(cfg, js, es, 4);
    var j := Served(cfg, pieces);
    QueueInv(cfg, j);
    AgainFails(j.eng, |pieces|);
    var k := j.(eng := Service(j.eng, ONE_DONE));
    AgainStep(cfg, j, k);
    RunExtends(cfg, js, es, j, Serve(ONE_DONE), k);
    js, es := js + [k], es + [Serve(ONE_DONE)];
  }

  /**
    The count has not moved since the last service call: after the first of two transfers of one descriptor is
    COMPLETED, the second is FAILED without a move made, the hardware never having been started on it.
   */
  lemma UnmovedCountExample(cfg: Config, pieces: seq<Segment>) returns (js: seq<Joint>, es: seq<Event>)
    requires cfg.Valid() && |pieces| == 1 && !cfg.StreamsToHost()
    ensures IsRun(cfg, js, es) && |es| == 5 && |js[5].eng.xfers| == |js[5].made| == 2
    ensures js[5].eng.xfers[1].state == Failed && js[5].made[1] == [] && js[5].current == 0
  {
    js, es := ServedAgain(cfg, pieces);
    hide IsRun, JointInv, Service;
  }

  /**
    The count has run backwards: the service call comes after one of two descriptors, and again. It reads
    the true count both times, and completes the second transfer without a move made.
   */
  lemma BackwardCountExample(cfg: Config, pieces: seq<Segment>) returns (js: seq<Joint>, es: seq<Event>)
    requires cfg.Valid() && |pieces| == 2 && !cfg.StreamsToHost()
    ensures IsRun(cfg, js, es) && |es| == 5 && es[4] == Serve(ONE_DONE)
      && |js[5].eng.xfers| == |js[5].jobs| == |js[5].made| == 2
    ensures Truthful(js[4], ONE_DONE) && js[4].eng.running && !CountsForward(js[4].eng, ONE_DONE)
    ensures js[5].eng.xfers[1].state == Completed && js[5].made[1] == []
    ensures !Honest(cfg, js[5].eng.xfers, js[5].jobs, js[5].made)
  {
    js, es := ServedAgain(cfg, pieces);
    FirstServe(cfg, pieces);
    OneDone(cfg.toDevice);
    hide IsRun, JointInv, Service, Served, RawCount;
    HonestIff(cfg, js[4], ONE_DONE);
  }
}
