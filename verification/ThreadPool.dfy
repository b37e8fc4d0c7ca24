/** xdma_thread_add_work and xdma_thread_remove_work: engines are spread over completion threads. */
module ThreadPool {
  import opened Words

  datatype Thread = Thread(workCnt: nat, workList: seq<nat>)

  // ---- Which thread the scan picks.

  /** Some thread after the first has no work. */
  ghost predicate SomeIdle(counts: seq<nat>) { exists i :: 0 < i < |counts| && counts[i] == 0 }

  ghost predicate IsFirstIdle(counts: seq<nat>, idx: nat)
  {
    0 < idx < |counts| && counts[idx] == 0 && forall i :: 0 < i < idx ==> counts[i] != 0
  }

  /** The last thread with less work than the first, or the first if there is none. */
  ghost predicate IsLastLighter(counts: seq<nat>, idx: nat)
  {
    && idx < |counts| && (idx == 0 || counts[idx] < counts[0])
    && forall i :: idx < i < |counts| ==> counts[i] >= counts[0]
  }

  ghost predicate Picks(counts: seq<nat>, idx: nat)
  {
    if SomeIdle(counts) then IsFirstIdle(counts, idx) else IsLastLighter(counts, idx)
  }

  ghost predicate IsLeast(counts: seq<nat>, idx: nat)
  {
    idx < |counts| && forall i :: 0 <= i < |counts| ==> counts[idx] <= counts[i]
  }

  /** The counts differ by at most one. */
  ghost predicate Even(counts: seq<nat>)
  {
    forall i, j :: 0 <= i < |counts| && 0 <= j < |counts| ==> counts[i] <= counts[j] + 1
  }

  /**
    No thread after the first is idle, and the last one lighter than the first is not a lightest one:
    the scan compares with the first thread's count only.
   */
  ghost predicate Misled(counts: seq<nat>)
  {
    && !SomeIdle(counts)
    && exists i, j ::
         && 0 <= i < |counts| && 0 < j < |counts| && counts[i] < counts[j] < counts[0]
         && forall k :: j < k < |counts| ==> counts[k] >= counts[0]
  }

  /** The picked thread is a least loaded one if and only if the scan is not misled. */
  lemma PicksLeastIff(counts: seq<nat>, idx: nat)
    requires Picks(counts, idx)
    ensures IsLeast(counts, idx) <==> !Misled(counts)
  {
    if !SomeIdle(counts) {
      if Misled(counts) {
        var i, j :|
          && 0 <= i < |counts| && 0 < j < |counts| && counts[i] < counts[j] < counts[0]
          && forall k :: j < k < |counts| ==> counts[k] >= counts[0];
        assert idx == j;
      }
    }
  }

  /** Counts that differ by at most one do not mislead it. */
  lemma PicksLeastWhenEven(counts: seq<nat>, idx: nat)
    requires Picks(counts, idx) && Even(counts)
    ensures IsLeast(counts, idx)
  {
    PicksLeastIff(counts, idx);
  }

  function Bump(counts: seq<nat>, idx: nat): (r: seq<nat>)
    requires idx < |counts|
  {
    counts[idx := counts[idx] + 1]
  }

  lemma AttachKeepsEven(counts: seq<nat>, idx: nat)
    requires Picks(counts, idx) && Even(counts)
    ensures Even(Bump(counts, idx))
  {
    PicksLeastWhenEven(counts, idx);
  }

  // ---- Every run of attaches.

  function Total(counts: seq<nat>): (r: nat)
  {
    if counts == [] then 0 else Total(counts[..|counts| - 1]) + counts[|counts| - 1]
  }

  lemma {:induction false} BumpTotal(counts: seq<nat>, idx: nat)
    requires idx < |counts|
    ensures Total(Bump(counts, idx)) == Total(counts) + 1
  {
    var n := |counts| - 1;
    var r := Bump(counts, idx);
    if idx == n {
      assert r[..n] == counts[..n];
    } else {
      assert r[..n] == Bump(counts[..n], idx);
      BumpTotal(counts[..n], idx);
    }
  }

  /** counts can be reached from n idle threads by k attaches. */
  ghost predicate Reached(n: nat, k: nat, counts: seq<nat>)
    decreases k
  {
    if k == 0 then |counts| == n && forall i :: 0 <= i < n ==> counts[i] == 0
    else exists prev: seq<nat>, idx: nat ::
      Reached(n, k - 1, prev) && idx < |prev| && Picks(prev, idx) && counts == Bump(prev, idx)
  }

  lemma {:induction false} ZeroTotal(counts: seq<nat>)
    requires forall i :: 0 <= i < |counts| ==> counts[i] == 0
    ensures Total(counts) == 0
  {
    if counts != [] { ZeroTotal(counts[..|counts| - 1]); }
  }

  lemma ReachedMore(n: nat, k: nat, counts: seq<nat>, idx: nat)
    requires Reached(n, k, counts) && idx < |counts| && Picks(counts, idx)
    ensures Reached(n, k + 1, Bump(counts, idx))
  {
  }

  lemma {:induction false} ReachedEven(n: nat, k: nat, counts: seq<nat>)
    requires Reached(n, k, counts)
    ensures |counts| == n && Even(counts) && Total(counts) == k
    decreases k
  {
    if k == 0 {
      ZeroTotal(counts);
    } else {
      var prev: seq<nat>, idx: nat :| Reached(n, k - 1, prev) && idx < |prev| && Picks(prev, idx)
        && counts == Bump(prev, idx);
      ReachedEven(n, k - 1, prev);
      AttachKeepsEven(prev, idx);
      BumpTotal(prev, idx);
    }
  }

  // ---- Runs with detaches.

  datatype Change = Attach | Detach(thread: nat)

  ghost predicate Changes(before: seq<nat>, c: Change, after: seq<nat>)
  {
    match c
    case Attach => exists idx: nat :: idx < |before| && Picks(before, idx) && after == Bump(before, idx)
    case Detach(t) => t < |before| && before[t] > 0 && after == before[t := before[t] - 1]
  }

  /** counts can be reached from n idle threads by these changes. */
  ghost predicate ReachedBy(n: nat, changes: seq<Change>, counts: seq<nat>)
    decreases |changes|
  {
    if changes == [] then |counts| == n && forall i :: 0 <= i < n ==> counts[i] == 0
    else
      var k := |changes| - 1;
      exists before :: ReachedBy(n, changes[..k], before) && Changes(before, changes[k], counts)
  }

  lemma AttachChanges(counts: seq<nat>, idx: nat)
    requires idx < |counts| && Picks(counts, idx)
    ensures Changes(counts, Attach, Bump(counts, idx))
  {
  }

  lemma ReachedNext(n: nat, changes: seq<Change>, before: seq<nat>, c: Change, after: seq<nat>)
    requires ReachedBy(n, changes, before) && Changes(before, c, after)
    ensures ReachedBy(n, changes + [c], after)
  {
    var all := changes + [c];
    assert all[..|all| - 1] == changes && all[|all| - 1] == c;
  }

  lemma AttachTo(n: nat, changes: seq<Change>, before: seq<nat>, idx: nat)
    requires ReachedBy(n, changes, before) && Picks(before, idx) && idx < |before|
    ensures ReachedBy(n, changes + [Attach], Bump(before, idx))
  {
    ReachedNext(n, changes, before, Attach, Bump(before, idx));
  }

  /** Three threads with equal counts, and three attaches. */
  lemma Round(changes: seq<Change>, c: nat)
    requires ReachedBy(3, changes, [c, c, c])
    ensures ReachedBy(3, changes + [Attach, Attach, Attach], [c + 1, c + 1, c + 1])
  {
    hide ReachedBy;
    var first, second, third := if c == 0 then 1 else 0, 2, if c == 0 then 0 else 1;
    var a := [c, c, c];
    assert c == 0 ==> a[1] == 0;
    assert Picks(a, first);
    AttachTo(3, changes, a, first);
    var b := Bump(a, first);
    assert c == 0 ==> b[2] == 0;
    assert Picks(b, second);
    AttachTo(3, changes + [Attach], b, second);
    var d := Bump(b, second);
    assert Picks(d, third);
    AttachTo(3, changes + [Attach] + [Attach], d, third);
    assert Bump(d, third) == [c + 1, c + 1, c + 1];
    assert changes + [Attach, Attach, Attach] == changes + [Attach] + [Attach] + [Attach];
  }

  const ROUND: seq<Change> := [Attach, Attach, Attach]

  lemma ReachedFirst()
    ensures ReachedBy(3, [] + ROUND, [1, 1, 1])
  {
    Round([], 0);
  }

  lemma NineAttaches()
    ensures ReachedBy(3, ROUND + ROUND + ROUND, [3, 3, 3])
  {
    hide ReachedBy;
    ReachedFirst();
    assert [] + ROUND == ROUND;
    Round(ROUND, 1);
    Round(ROUND + ROUND, 2);
  }

  /** Two detaches from the second of three threads and one from the third. */
  lemma ThreeDetaches(changes: seq<Change>)
    requires ReachedBy(3, changes, [3, 3, 3])
    ensures ReachedBy(3, changes + [Detach(1)] + [Detach(1)] + [Detach(2)], [3, 1, 2])
  {
    hide ReachedBy;
    ReachedNext(3, changes, [3, 3, 3], Detach(1), [3, 2, 3]);
    ReachedNext(3, changes + [Detach(1)], [3, 2, 3], Detach(1), [3, 1, 3]);
    ReachedNext(3, changes + [Detach(1)] + [Detach(1)], [3, 1, 3], Detach(2), [3, 1, 2]);
  }

  /** Counts that mislead the scan. */
  lemma MisledBy(counts: seq<nat>)
    requires counts == [3, 1, 2]
    ensures Misled(counts) && Picks(counts, 2)
  {
    assert counts[1] < counts[2] < counts[0];
  }

  /** A run after which the scan picks a thread that is not least loaded. */
  lemma PicksNotLeast() returns (changes: seq<Change>, counts: seq<nat>)
    ensures counts == [3, 1, 2]
    ensures ReachedBy(3, changes, counts) && Misled(counts) && Picks(counts, 2) && !IsLeast(counts, 2)
  {
    counts := [3, 1, 2];
    MisledBy(counts);
    PicksLeastIff(counts, 2);
    NineAttaches();
    changes := ROUND + ROUND + ROUND;
    hide *;
    ThreeDetaches(changes);
    changes := changes + [Detach(1)] + [Detach(1)] + [Detach(2)];
  }

  // ---- Load balance.

  lemma {:induction false} AtLeast(counts: seq<nat>, low: nat)
    requires forall i :: 0 <= i < |counts| ==> low <= counts[i]
    ensures |counts| * low <= Total(counts)
  {
    if counts != [] {
      var n := |counts| - 1;
      AtLeast(counts[..n], low);
      assert |counts| * low == n * low + low;
    }
  }

  lemma {:induction false} AtMost(counts: seq<nat>, high: nat)
    requires forall i :: 0 <= i < |counts| ==> counts[i] <= high
    ensures Total(counts) <= |counts| * high
  {
    if counts != [] {
      var n := |counts| - 1;
      AtMost(counts[..n], high);
      assert |counts| * high == n * high + high;
    }
  }

  lemma {:induction false} Above(counts: seq<nat>, low: nat, i: nat)
    requires i < |counts| && counts[i] > low && forall j :: 0 <= j < |counts| ==> low <= counts[j]
    ensures |counts| * low < Total(counts)
  {
    var n := |counts| - 1;
    assert |counts| * low == n * low + low;
    if i == n { AtLeast(counts[..n], low); } else { Above(counts[..n], low, i); }
  }

  lemma {:induction false} Below(counts: seq<nat>, high: nat, i: nat)
    requires i < |counts| && counts[i] < high && forall j :: 0 <= j < |counts| ==> counts[j] <= high
    ensures Total(counts) < |counts| * high
  {
    var n := |counts| - 1;
    assert |counts| * high == n * high + high;
    if i == n { AtMost(counts[..n], high); } else { Below(counts[..n], high, i); }
  }

  lemma Rounded(k: nat, n: nat, c: nat)
    requires n > 0 && k < n * (c + 1) && (c > 0 ==> n * (c - 1) < k)
    ensures c == k / n || c == (k + n - 1) / n
  {
    assert n * (c + 1) == n * c + n;
    if n * c <= k {
      DivUnique(k, n, c, k - n * c);
    } else {
      assert c > 0 && n * (c - 1) == n * c - n;
      DivUnique(k + n - 1, n, c, k + n - 1 - n * c);
    }
  }

  /** After k attaches to n threads every thread has floor(k / n) or ceil(k / n) engines. */
  lemma LoadBalance(n: nat, k: nat, counts: seq<nat>, i: nat)
    requires Reached(n, k, counts) && i < n
    ensures |counts| == n && (counts[i] == k / n || counts[i] == (k + n - 1) / n)
  {
    ReachedEven(n, k, counts);
    var c := counts[i];
    Below(counts, c + 1, i);
    if c > 0 { Above(counts, c - 1, i); }
    Rounded(k, n, c);
  }

  // ---- The code.

  /** The work counts of the threads. */
  function Counts(threads: seq<Thread>): (r: seq<nat>)
    ensures |r| == |threads| && forall i :: 0 <= i < |r| ==> r[i] == threads[i].workCnt
  {
    seq(|threads|, i requires 0 <= i < |threads| => threads[i].workCnt)
  }

  method Position(list: seq<nat>, e: nat) returns (at: nat)
    requires e in list
    ensures at < |list| && list[at] == e
  {
    at := 0;
    while list[at] != e
      invariant at < |list| && e in list[at..]
      decreases |list| - at
    {
      at := at + 1;
    }
  }

  lemma RemovedFrom(list: seq<nat>, at: nat)
    requires Distinct(list) && at < |list|
    ensures var rest := list[..at] + list[at + 1..];
      |rest| == |list| - 1 && Distinct(rest) && forall x :: x in rest <==> x in list && x != list[at]
  {
    var rest := list[..at] + list[at + 1..];
    forall x | x in list && x != list[at] ensures x in rest {
      var i :| 0 <= i < |list| && list[i] == x;
      assert rest[if i < at then i else i - 1] == x;
    }
  }

  /** The first idle thread after thread 0; else the last one with less work than thread 0; else thread 0. */
  ghost predicate ScansTo(threads: seq<Thread>, idx: nat)
    requires idx < |threads|
  {
    if exists i :: 0 < i < |threads| && threads[i].workCnt == 0
    then 0 < idx && threads[idx].workCnt == 0 && forall i :: 0 < i < idx ==> threads[i].workCnt != 0
    else
      && (idx > 0 ==> threads[idx].workCnt < threads[0].workCnt)
      && forall i :: idx < i < |threads| ==> threads[i].workCnt >= threads[0].workCnt
  }

  class Pool {
    var threads: seq<Thread>
    var attached: map<nat, nat>      // engine->cmplthp, for the engines that have one

    /** work_cnt is the length of work_list, and an engine is on exactly the list it is attached to. */
    ghost predicate Valid()
      reads this
    {
      && (forall i :: 0 <= i < |threads| ==>
            threads[i].workCnt == |threads[i].workList| && Distinct(threads[i].workList))
      && (forall i, e :: 0 <= i < |threads| ==> (e in threads[i].workList <==> e in attached && attached[e] == i))
      && (forall e :: e in attached ==> attached[e] < |threads|)
    }

    constructor (n: nat)
      ensures Valid() && |threads| == n && attached == map[] && Reached(n, 0, Counts(threads))
        && ReachedBy(n, [], Counts(threads))
    {
      threads := seq(n, _ => Thread(0, []));
      attached := map[];
    }

    /** The scan: v keeps the first thread's count and is never lowered. */
    method Scan() returns (idx: nat)
      requires threads != []
      ensures idx < |threads| && Picks(Counts(threads), idx)
      ensures ScansTo(threads, idx)
    {
      ghost var counts := Counts(threads);
      var v := 0;
      idx := |threads|;
      for i := 0 to |threads|
        invariant i == 0 ==> idx == |threads|
        invariant i > 0 ==> idx < i && v == counts[0] && (idx == 0 || counts[idx] < v)
        invariant i > 0 ==> forall j :: idx < j < i ==> counts[j] >= v
        invariant forall j :: 0 < j < i ==> counts[j] != 0
      {
        if idx == |threads| {
          v := threads[i].workCnt;
          idx := i;
        } else if threads[i].workCnt == 0 {
          idx := i;
          assert IsFirstIdle(counts, idx);
          return;
        } else if threads[i].workCnt < v {
          idx := i;
        }
      }
      assert !SomeIdle(counts);
    }

    /** xdma_thread_add_work */
    method AddWork(e: nat)
      requires Valid() && threads != [] && e !in attached
      modifies this
      ensures Valid() && |threads| == |old(threads)|
      ensures exists idx: nat ::
        && idx < |old(threads)| && Picks(Counts(old(threads)), idx)
        && attached == old(attached)[e := idx]
        && threads == old(threads)[idx := Thread(old(threads)[idx].workCnt + 1, old(threads)[idx].workList + [e])]
      ensures forall k: nat ::
        Reached(|threads|, k, Counts(old(threads))) ==> Reached(|threads|, k + 1, Counts(threads))
      ensures Changes(Counts(old(threads)), Attach, Counts(threads))
    {
      hide Picks, Reached, Changes, ScansTo;
      var idx := Scan();
      AttachChanges(Counts(threads), idx);
      var t := threads[idx];
      ghost var counts := Counts(threads);
      threads := threads[idx := Thread(t.workCnt + 1, t.workList + [e])];
      attached := attached[e := idx];
      assert Counts(threads) == Bump(counts, idx);
      forall k: nat | Reached(|threads|, k, counts) ensures Reached(|threads|, k + 1, Counts(threads)) {
        ReachedMore(|threads|, k, counts, idx);
      }
    }

    /** xdma_thread_remove_work */
    method RemoveWork(e: nat)
      requires Valid()
      modifies this
      ensures Valid() && attached == old(attached) - {e} && |threads| == |old(threads)|
      ensures forall i :: 0 <= i < |threads| ==>
        threads[i].workCnt == old(threads)[i].workCnt - (if e in old(attached) && old(attached)[e] == i then 1 else 0)
      ensures e in old(attached) ==> Changes(Counts(old(threads)), Detach(old(attached)[e]), Counts(threads))
      ensures forall i :: 0 <= i < |threads| && !(e in old(attached) && old(attached)[e] == i) ==>
        threads[i] == old(threads)[i]
      ensures e in old(attached) ==>
        var t, u := old(threads)[old(attached)[e]], threads[old(attached)[e]];
        exists at :: 0 <= at < |t.workList| && t.workList[at] == e
          && u.workList == t.workList[..at] + t.workList[at + 1..]
    {
      if e !in attached { return; }
      var idx := attached[e];
      var t := threads[idx];
      var at := Position(t.workList, e);
      RemovedFrom(t.workList, at);
      threads := threads[idx := Thread(t.workCnt - 1, t.workList[..at] + t.workList[at + 1..])];
      attached := attached - {e};
    }
  }
}
