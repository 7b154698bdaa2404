/** Conservation over a run: what a domain's deltas add up to. */
module Conservation {
  import opened Words
  import opened Multisets
  import opened Types
  import opened DomainLists
  import opened ThreadTable
  import opened Refresh
  import opened Aggregation
  import opened Runs

  /** The vCPU threads of a table, in table order. */
  function Vcpus(ts: seq<Task>): seq<Task> {
    if ts == [] then []
    else Vcpus(ts[..|ts| - 1]) + if ts[|ts| - 1].typ == ISVCPU then [ts[|ts| - 1]] else []
  }

  function Pids(ts: seq<Task>): (r: seq<int>)
    ensures |r| == |ts| && forall i | 0 <= i < |ts| :: r[i] == ts[i].pid
  {
    if ts == [] then [] else Pids(ts[..|ts| - 1]) + [ts[|ts| - 1].pid]
  }

  function Values(ts: seq<Task>, r: nat): (s: seq<int>)
    requires r < COUNTERS
    ensures |s| == |ts| && forall i | 0 <= i < |ts| :: s[i] == ts[i].stat[r]
  {
    if ts == [] then [] else Values(ts[..|ts| - 1], r) + [ts[|ts| - 1].stat[r]]
  }

  /** The sum of a counter over a domain's vCPU threads. */
  function Total(ts: seq<Task>, r: nat): int
    requires r < COUNTERS
  {
    Sum(Values(Vcpus(ts), r))
  }

  /** No other record has a vCPU's pid. */
  ghost predicate VcpuPidsUnique(ts: seq<Task>) {
    forall i, j | 0 <= i < |ts| && 0 <= j < |ts| && i != j && ts[i].typ == ISVCPU :: ts[j].pid != ts[i].pid
  }

  /** The value a pid's previous record holds. */
  function ValueOf(prev: seq<Task>, pid: int, r: nat): int
    requires r < COUNTERS
  {
    var i := FirstPid(prev, pid);
    if i < |prev| then prev[i].stat[r] else 0
  }

  /** The sum of the previous values of a list of pids. */
  function SumOf(prev: seq<Task>, pids: seq<int>, r: nat): int
    requires r < COUNTERS
  {
    if pids == [] then 0 else SumOf(prev, pids[..|pids| - 1], r) + ValueOf(prev, pids[|pids| - 1], r)
  }

  lemma {:induction false} SumOfConcat(prev: seq<Task>, a: seq<int>, b: seq<int>, r: nat)
    requires r < COUNTERS
    ensures SumOf(prev, a + b, r) == SumOf(prev, a, r) + SumOf(prev, b, r)
    decreases |b|
  {
    hide ValueOf;
    if b == [] {
      assert a + b == a;
    } else {
      assert (a + b)[..|a + b| - 1] == a + b[..|b| - 1];
      SumOfConcat(prev, a, b[..|b| - 1], r);
    }
  }

  lemma SumOfAround(prev: seq<Task>, u: seq<int>, x: int, v: seq<int>, r: nat)
    requires r < COUNTERS
    ensures SumOf(prev, u + [x] + v, r) == SumOf(prev, u + v, r) + ValueOf(prev, x, r)
  {
    hide ValueOf;
    SumOfConcat(prev, u + [x], v, r);
    SumOfConcat(prev, u, [x], r);
    SumOfConcat(prev, u, v, r);
    assert [x][..0] == [];
  }

  /** It does not depend on their order. */
  lemma {:induction false} SumOfPermuted(prev: seq<Task>, a: seq<int>, b: seq<int>, r: nat)
    requires r < COUNTERS && multiset(a) == multiset(b)
    ensures SumOf(prev, a, r) == SumOf(prev, b, r)
    decreases |a|
  {
    hide ValueOf, SumOf;
    if a == [] {
      Empty(a, b);
    } else {
      var a', x := Last(a);
      var u, v := Without(b, x);
      SumOfPermuted(prev, a', u + v, r);
      SumOfAround(prev, a', x, [], r);
      SumOfAround(prev, u, x, v, r);
      assert a' + [x] + [] == a && a' + [] == a';
    }
  }

  lemma {:induction false} VcpusAreThreads(ts: seq<Task>)
    ensures forall t | t in Vcpus(ts) :: t in ts && t.typ == ISVCPU
  {
    if ts == [] {
    } else {
      VcpusAreThreads(ts[..|ts| - 1]);
    }
  }

  lemma OwnValue(prev: seq<Task>, t: Task, r: nat)
    requires r < COUNTERS && VcpuPidsUnique(prev) && t in prev && t.typ == ISVCPU
    ensures ValueOf(prev, t.pid, r) == t.stat[r]
  {
    var k :| 0 <= k < |prev| && prev[k] == t;
    FirstPidUnique(prev, t.pid, k);
  }

  /** Looking vCPUs up by pid finds the vCPUs themselves. */
  lemma {:induction false} OwnValues(prev: seq<Task>, vs: seq<Task>, r: nat)
    requires r < COUNTERS && VcpuPidsUnique(prev)
    requires forall t | t in vs :: t in prev && t.typ == ISVCPU
    ensures SumOf(prev, Pids(vs), r) == Sum(Values(vs, r))
  {
    hide ValueOf, VcpuPidsUnique;
    if vs == [] {
    } else {
      var init, t := vs[..|vs| - 1], vs[|vs| - 1];
      OwnValues(prev, init, r);
      assert t in vs;
      OwnValue(prev, t, r);
      assert Pids(vs)[..|init|] == Pids(init) && Values(vs, r)[..|init|] == Values(init, r);
    }
  }

  /** Between two frames the vCPUs are the same and their counter did not go back. */
  ghost predicate Steady(prev: seq<Task>, cur: seq<Task>, r: nat)
    requires r < COUNTERS
  {
    && VcpuPidsUnique(prev)
    && multiset(Pids(Vcpus(cur))) == multiset(Pids(Vcpus(prev)))
    && (forall t | t in cur && t.typ == ISVCPU :: t.stat[r] >= ValueOf(prev, t.pid, r))
  }

  lemma Appended(vs: seq<Task>, t: Task, r: nat)
    requires r < COUNTERS
    ensures Pids(vs + [t]) == Pids(vs) + [t.pid] && Values(vs + [t], r) == Values(vs, r) + [t.stat[r]]
  {
    assert (vs + [t])[..|vs|] == vs;
  }

  lemma VcpusAppend(ts: seq<Task>, t: Task)
    ensures Vcpus(ts + [t]) == if t.typ == ISVCPU then Vcpus(ts) + [t] else Vcpus(ts)
  {
    assert (ts + [t])[..|ts|] == ts;
  }

  /** A further vCPU is one more summand. */
  lemma VcpusStep(init: seq<Task>, t: Task, prev: seq<Task>, r: nat)
    requires r < COUNTERS && t.typ == ISVCPU
    ensures Sum(Values(Vcpus(init + [t]), r)) == Sum(Values(Vcpus(init), r)) + t.stat[r]
    ensures SumOf(prev, Pids(Vcpus(init + [t])), r) == SumOf(prev, Pids(Vcpus(init)), r) + ValueOf(prev, t.pid, r)
  {
    hide ValueOf, Vcpus, Pids, Values;
    var vs := Vcpus(init);
    VcpusAppend(init, t);
    Appended(vs, t, r);
    SumAppend(Values(vs, r), t.stat[r]);
    assert (Pids(vs) + [t.pid])[..|vs|] == Pids(vs);
  }

  lemma NoVcpus()
    ensures Vcpus([]) == []
  {
  }

  lemma {:induction false} DeltasAreDifferences(ds: seq<Task>, prev: seq<Task>, r: nat)
    requires 1 <= r < VCPU_STAT_SIZE && r != ST_MAX
    requires forall t | t in ds && t.typ == ISVCPU ::
      FreshThread(t) && FirstPid(prev, t.pid) < |prev| && t.stat[r] >= ValueOf(prev, t.pid, r)
    ensures VcpuDeltas(JoinThreads(ds, prev), r)
            == Sum(Values(Vcpus(ds), r)) - SumOf(prev, Pids(Vcpus(ds)), r)
  {
    hide FreshThread, Vcpus, JoinThread;
    if ds == [] {
      NoVcpus();
    } else {
      var init, t := ds[..|ds| - 1], ds[|ds| - 1];
      assert t in ds && ds == init + [t];
      DeltasAreDifferences(init, prev, r);
      VcpusAppend(init, t);
      var js := JoinThreads(ds, prev);
      assert js[..|js| - 1] == JoinThreads(init, prev) && js[|js| - 1] == JoinThread(t, prev);
      JoinThreadKeeps(t, prev);
      if t.typ == ISVCPU {
        VcpusStep(init, t, prev, r);
        JoinThreadDelta(t, prev, TheThread(0, t.pid), r);
      }
    }
  }

  /** Joining changes neither the vCPUs nor their counters. */
  lemma {:induction false} JoinedVcpus(ds: seq<Task>, prev: seq<Task>, r: nat)
    requires r < COUNTERS
    ensures var js := JoinThreads(ds, prev);
            Pids(Vcpus(js)) == Pids(Vcpus(ds)) && Values(Vcpus(js), r) == Values(Vcpus(ds), r)
  {
    hide JoinThread, Pids, Values, Vcpus;
    if ds == [] {
    } else {
      var init, t := ds[..|ds| - 1], ds[|ds| - 1];
      JoinedVcpus(init, prev, r);
      JoinThreadKeeps(t, prev);
      var js, joined := JoinThreads(ds, prev), JoinThreads(init, prev);
      assert js == joined + [JoinThread(t, prev)] && ds == init + [t];
      VcpusAppend(init, t);
      VcpusAppend(joined, JoinThread(t, prev));
      Appended(Vcpus(init), t, r);
      Appended(Vcpus(joined), JoinThread(t, prev), r);
    }
  }

  lemma {:induction false} VcpuListed(ts: seq<Task>, t: Task)
    requires t in ts && t.typ == ISVCPU
    ensures t.pid in Pids(Vcpus(ts))
  {
    var init, last := ts[..|ts| - 1], ts[|ts| - 1];
    if t == last {
      assert Pids(Vcpus(ts))[|Vcpus(init)|] == t.pid;
    } else {
      VcpuListed(init, t);
      var k :| 0 <= k < |Vcpus(init)| && Pids(Vcpus(init))[k] == t.pid;
      assert Vcpus(ts)[k] == Vcpus(init)[k];
      assert Pids(Vcpus(ts))[k] == t.pid;
    }
  }

  lemma ListedIsFound(prev: seq<Task>, pid: int)
    requires pid in Pids(Vcpus(prev))
    ensures FirstPid(prev, pid) < |prev|
  {
    VcpusAreThreads(prev);
    var k :| 0 <= k < |Vcpus(prev)| && Pids(Vcpus(prev))[k] == pid;
    assert Vcpus(prev)[k] in prev;
  }

  lemma JoinThreadsKeep(ts: seq<Task>, prev: seq<Task>)
    ensures var js := JoinThreads(ts, prev);
            forall k | 0 <= k < |js| :: js[k] == ts[k].(delta := js[k].delta)
  {
    hide JoinThread;
    forall k | 0 <= k < |ts|
      ensures JoinThread(ts[k], prev) == ts[k].(delta := JoinThread(ts[k], prev).delta)
    {
      JoinThreadKeeps(ts[k], prev);
    }
  }

  /** One frame: the deltas of the vCPUs are the increase of their counters. */
  lemma SteadyThreads(ts: seq<Task>, prev: seq<Task>, r: nat)
    requires 1 <= r < VCPU_STAT_SIZE && r != ST_MAX && forall t | t in ts :: FreshThread(t)
    requires Steady(prev, JoinThreads(ts, prev), r)
    ensures VcpuDeltas(JoinThreads(ts, prev), r) == Total(JoinThreads(ts, prev), r) - Total(prev, r)
  {
    hide Vcpus, FirstPid, JoinThread, FreshThread;
    var js := JoinThreads(ts, prev);
    JoinedVcpus(ts, prev, r);
    JoinThreadsKeep(ts, prev);
    forall t | t in ts && t.typ == ISVCPU
      ensures FirstPid(prev, t.pid) < |prev| && t.stat[r] >= ValueOf(prev, t.pid, r)
    {
      var k :| 0 <= k < |ts| && ts[k] == t;
      assert js[k] in js && js[k].typ == ISVCPU;
      VcpuListed(ts, t);
      assert t.pid in multiset(Pids(Vcpus(js)));
      ListedIsFound(prev, t.pid);
    }
    DeltasAreDifferences(ts, prev, r);
    SumOfPermuted(prev, Pids(Vcpus(ts)), Pids(Vcpus(prev)), r);
    VcpusAreThreads(prev);
    OwnValues(prev, Vcpus(prev), r);
  }

  lemma SteadyFrame(d: Dom, prev: Dom, r: nat)
    requires FreshDom(d) && 1 <= r < VCPU_STAT_SIZE && r != ST_MAX
    requires Steady(prev.threads, JoinWith(d, prev).threads, r)
    ensures var j := JoinWith(d, prev);
            var inc := Total(j.threads, r) - Total(prev.threads, r);
            inc >= 0 && j.task.delta[r] == Wrap64(inc)
  {
    hide Steady, Total, AddMatched, WithDeltas, Wrap64;
    SteadyThreads(d.threads, prev.threads, r);
    JoinWithAggregated(d, prev);
  }

  /** The threads of the domain of this id after frame k. */
  function ThreadsAt(run: Run, k: nat, id: int): seq<Task>
    requires TableOk(run.table) && k <= |run.frames|
  {
    PrevThreads(StateAt(run, k).now, id)
  }

  /** The domain is there after frame k. */
  predicate PresentAt(run: Run, k: nat, id: int)
    requires TableOk(run.table) && k <= |run.frames|
  {
    FirstId(StateAt(run, k).now, id) < |StateAt(run, k).now|
  }

  function DomainDeltaAt(run: Run, k: nat, id: int, r: nat): u64
    requires TableOk(run.table) && k <= |run.frames| && r < COUNTERS && PresentAt(run, k, id)
  {
    var now := StateAt(run, k).now;
    now[FirstId(now, id)].task.delta[r]
  }

  /** From frame s to frame k the domain is there, with the same vCPUs, whose
      counter r does not go back. */
  ghost predicate SteadyRun(run: Run, id: int, r: nat, s: nat, k: nat)
    requires TableOk(run.table) && s <= k <= |run.frames| && r < COUNTERS
  {
    && (forall j: nat | s <= j <= k :: PresentAt(run, j, id))
    && (forall j: nat | s < j <= k :: Steady(ThreadsAt(run, j - 1, id), ThreadsAt(run, j, id), r))
  }

  /** The sum of the domain's deltas of frames s + 1..k. */
  ghost function DeltaSum(run: Run, id: int, r: nat, s: nat, k: nat): int
    requires TableOk(run.table) && s <= k <= |run.frames| && r < COUNTERS
    requires SteadyRun(run, id, r, s, k)
  {
    if k == s then 0 else DeltaSum(run, id, r, s, k - 1) + DomainDeltaAt(run, k, id, r)
  }

  lemma SteadyStep(run: Run, id: int, r: nat, k: nat)
    requires TableOk(run.table) && 1 <= k <= |run.frames| && 1 <= r < VCPU_STAT_SIZE && r != ST_MAX
    requires PresentAt(run, k - 1, id) && PresentAt(run, k, id)
    requires Steady(ThreadsAt(run, k - 1, id), ThreadsAt(run, k, id), r)
    ensures var inc := Total(ThreadsAt(run, k, id), r) - Total(ThreadsAt(run, k - 1, id), r);
            inc >= 0 && DomainDeltaAt(run, k, id, r) == Wrap64(inc)
  {
    hide Steady, Total, FreshDom, Load, JoinWith, Wrap64;
    var ds, olds := LoadedAt(run, k).doms, StateAt(run, k - 1).now;
    LoadedAtFresh(run, k);
    FindJoined(ds, olds, id);
    var i := FirstId(ds, id);
    assert StateAt(run, k).now[i] == JoinWith(ds[i], olds[FirstId(olds, id)]);
    SteadyFrame(ds[i], olds[FirstId(olds, id)], r);
  }

  lemma WrapAtMost(x: nat)
    ensures Wrap64(x) <= x && (Wrap64(x) == x <==> x < TWO64)
  {
  }

  /** Conservation: while a domain's vCPUs stay and their counters do not go back,
      the domain's deltas add up to the increase of the sum of the counters,
      modulo 2^64; and exactly, if and only if no single frame's increase reaches 2^64. */
  lemma {:induction false} DeltasAddUp(run: Run, id: int, r: nat, s: nat, k: nat)
    requires TableOk(run.table) && s <= k <= |run.frames| && 1 <= r < VCPU_STAT_SIZE && r != ST_MAX
    requires SteadyRun(run, id, r, s, k)
    ensures var first, last := Total(ThreadsAt(run, s, id), r), Total(ThreadsAt(run, k, id), r);
            && Wrap64(DeltaSum(run, id, r, s, k)) == Wrap64(last - first)
            && DeltaSum(run, id, r, s, k) <= last - first
            && (DeltaSum(run, id, r, s, k) == last - first
                <==> forall j: nat | s < j <= k ::
                       Total(ThreadsAt(run, j, id), r) - Total(ThreadsAt(run, j - 1, id), r) < TWO64)
  {
    hide Steady, Total, PresentAt, DomainDeltaAt, ThreadsAt, Wrap64;
    if k == s {
    } else {
      DeltasAddUp(run, id, r, s, k - 1);
      SteadyStep(run, id, r, k);
      var old0, inc := Total(ThreadsAt(run, k - 1, id), r) - Total(ThreadsAt(run, s, id), r),
                       Total(ThreadsAt(run, k, id), r) - Total(ThreadsAt(run, k - 1, id), r);
      WrapSmall(inc);
      WrapAtMost(inc);
      WrapAdd(DeltaSum(run, id, r, s, k - 1), DomainDeltaAt(run, k, id, r), old0, inc);
    }
  }
}
