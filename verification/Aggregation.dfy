/** What a domain's record says about its threads after the join. */
module Aggregation {
  import opened Words
  import opened Types
  import opened DomainLists
  import opened ThreadTable
  import opened Refresh

  /** Sum of a delta over all vCPU threads. */
  function VcpuDeltas(ts: seq<Task>, r: nat): nat
    requires r < COUNTERS
  {
    if ts == [] then 0
    else
      var t := ts[|ts| - 1];
      VcpuDeltas(ts[..|ts| - 1], r) + if t.typ == ISVCPU then t.delta[r] else 0
  }

  /** Sum of st_max over the vCPU threads that have a predecessor in `prev`. */
  function MatchedStMax(ts: seq<Task>, prev: seq<Task>): nat {
    if ts == [] then 0
    else
      var t := ts[|ts| - 1];
      MatchedStMax(ts[..|ts| - 1], prev) + if t.typ == ISVCPU && Matches(t, prev) then t.stat[ST_MAX] else 0
  }

  /** A thread's row is scaled by one CPU, or by none for an unused record; and only
      vCPUs have vcpu_stat counters and deltas. */
  predicate ThreadOk(t: Task) {
    && t.delta[0] == t.delta[ST_MAX] == 0
    && t.smpVcpus <= 1
    && (t.typ == ISVCPU ==> t.smpVcpus == 1)
    && (t.typ != ISVCPU ==> forall r | 0 <= r < VCPU_STAT_SIZE :: t.stat[r] == 0 && t.delta[r] == 0)
  }

  /** What every domain of every reachable state satisfies. */
  ghost predicate Aggregated(d: Dom) {
    && (forall r | 1 <= r < VCPU_STAT_SIZE && r != ST_MAX :: d.task.delta[r] == Wrap64(VcpuDeltas(d.threads, r)))
    && d.task.delta[0] == d.task.delta[ST_MAX] == 0
    && d.task.smpVcpus == VcpuCount(d.threads)
    && |d.threads| == d.task.nlwp
    && (forall t | t in d.threads :: ThreadOk(t))
  }

  /** What one thread adds to its domain in a summed row, and in st_max. */
  lemma AddedRow(d: Task, t: Task, r: nat)
    requires 1 <= r < VCPU_STAT_SIZE && r != ST_MAX
    ensures AddThread(d, t).delta[r] == Add64(d.delta[r], t.delta[r])
    ensures AddThread(d, t).stat[ST_MAX] == Add64(d.stat[ST_MAX], t.stat[ST_MAX])
  {
  }

  /** One wrapping addition per matched vCPU is the sum modulo 2^64 over all vCPUs,
      because those without predecessor contribute nothing. */
  lemma {:induction false} AddMatchedDelta(d: Task, ts: seq<Task>, prev: seq<Task>, r: nat)
    requires 1 <= r < VCPU_STAT_SIZE && r != ST_MAX && d.delta[r] == 0
    requires forall t | t in ts :: !Matches(t, prev) ==> t.delta[r] == 0
    ensures AddMatched(d, ts, prev).delta[r] == Wrap64(VcpuDeltas(ts, r))
  {
    hide AddThread, Matches, Wrap64;
    if ts == [] {
      WrapSmall(0);
    } else {
      var init, t := ts[..|ts| - 1], ts[|ts| - 1];
      assert t in ts;
      AddMatchedDelta(d, init, prev, r);
      AddedRow(AddMatched(d, init, prev), t, r);
      WrapCongruence(VcpuDeltas(init, r), t.delta[r]);
      WrapSmall(VcpuDeltas(init, r));
    }
  }

  lemma {:induction false} AddMatchedStMax(d: Task, ts: seq<Task>, prev: seq<Task>)
    requires d.stat[ST_MAX] == 0
    ensures AddMatched(d, ts, prev).stat[ST_MAX] == Wrap64(MatchedStMax(ts, prev))
  {
    hide AddThread, Matches, Wrap64;
    if ts == [] {
      WrapSmall(0);
    } else {
      var init, t := ts[..|ts| - 1], ts[|ts| - 1];
      AddMatchedStMax(d, init, prev);
      AddedRow(AddMatched(d, init, prev), t, STEAL);
      WrapCongruence(MatchedStMax(init, prev), t.stat[ST_MAX]);
      WrapSmall(MatchedStMax(init, prev));
    }
  }

  lemma {:induction false} NoDeltas(ts: seq<Task>, r: nat)
    requires r < COUNTERS && forall t | t in ts :: t.delta[r] == 0
    ensures VcpuDeltas(ts, r) == 0
  {
    if ts == [] {
    } else {
      assert ts[|ts| - 1] in ts;
      NoDeltas(ts[..|ts| - 1], r);
    }
  }

  lemma {:induction false} JoinVcpuCount(ts: seq<Task>, prev: seq<Task>)
    ensures VcpuCount(JoinThreads(ts, prev)) == VcpuCount(ts)
  {
    if ts == [] {
    } else {
      JoinVcpuCount(ts[..|ts| - 1], prev);
    }
  }

  /** A joined thread keeps its identity and its counters. */
  lemma JoinThreadKeeps(t: Task, prev: seq<Task>)
    ensures JoinThread(t, prev) == t.(delta := JoinThread(t, prev).delta)
  {
  }

  lemma JoinedThread(t: Task, prev: seq<Task>)
    requires FreshThread(t)
    ensures ThreadOk(JoinThread(t, prev))
    ensures !Matches(JoinThread(t, prev), prev) ==> JoinThread(t, prev).delta == ZERO_COUNTERS
  {
  }

  /** A domain's own delta in a row that is not summed, and its other counters, stay. */
  lemma {:induction false} AddMatchedOther(d: Task, ts: seq<Task>, prev: seq<Task>, r: nat)
    requires r < COUNTERS
    ensures !(1 <= r < VCPU_STAT_SIZE && r != ST_MAX) ==> AddMatched(d, ts, prev).delta[r] == d.delta[r]
    ensures r != ST_MAX ==> AddMatched(d, ts, prev).stat[r] == d.stat[r]
  {
    if ts == [] {
    } else {
      AddMatchedOther(d, ts[..|ts| - 1], prev, r);
    }
  }

  lemma OwnDeltas(d: Task, prev: Task)
    requires d.delta == ZERO_COUNTERS
    ensures var own := WithDeltas(d, prev, UTIME, COUNTERS);
            && own == d.(delta := own.delta)
            && forall r | 0 <= r < VCPU_STAT_SIZE :: own.delta[r] == 0
  {
  }

  lemma JoinWithAggregated(d: Dom, prev: Dom)
    requires FreshDom(d)
    ensures Aggregated(JoinWith(d, prev))
    ensures JoinWith(d, prev).task.stat[ST_MAX] == Wrap64(MatchedStMax(JoinWith(d, prev).threads, prev.threads))
  {
    hide AddMatched, WithDeltas, JoinThread, Matches, VcpuDeltas, MatchedStMax, VcpuCount, Wrap64, FreshThread,
      ThreadOk;
    var ts := JoinThreads(d.threads, prev.threads);
    var own := WithDeltas(d.task, prev.task, UTIME, COUNTERS);
    OwnDeltas(d.task, prev.task);
    forall k | 0 <= k < |ts|
      ensures ThreadOk(ts[k])
      ensures !Matches(ts[k], prev.threads) ==> ts[k].delta == ZERO_COUNTERS
    {
      JoinedThread(d.threads[k], prev.threads);
      JoinThreadKeeps(d.threads[k], prev.threads);
    }
    assert forall t | t in ts && !Matches(t, prev.threads) :: t.delta == ZERO_COUNTERS;
    forall r | 1 <= r < VCPU_STAT_SIZE && r != ST_MAX
      ensures JoinWith(d, prev).task.delta[r] == Wrap64(VcpuDeltas(ts, r))
    {
      AddMatchedDelta(own, ts, prev.threads, r);
    }
    AddMatchedStMax(own, ts, prev.threads);
    AddMatchedOther(own, ts, prev.threads, 0);
    AddMatchedOther(own, ts, prev.threads, ST_MAX);
    AddMatchedKeeps(own, ts, prev.threads);
    JoinVcpuCount(d.threads, prev.threads);
  }

  lemma FreshAggregated(d: Dom)
    requires FreshDom(d)
    ensures Aggregated(d)
  {
    forall r | 1 <= r < VCPU_STAT_SIZE && r != ST_MAX
      ensures d.task.delta[r] == Wrap64(VcpuDeltas(d.threads, r))
    {
      NoDeltas(d.threads, r);
    }
  }

  /** Every frame's domains are aggregated, whatever was there before. */
  lemma JoinAllAggregated(ds: seq<Dom>, olds: seq<Dom>)
    requires forall d | d in ds :: FreshDom(d)
    ensures forall d | d in JoinAll(ds, olds) :: Aggregated(d)
  {
    hide FreshDom, Aggregated, JoinWith;
    forall k | 0 <= k < |ds|
      ensures Aggregated(JoinAll(ds, olds)[k])
    {
      var i := FirstId(olds, ds[k].task.domainId);
      if i == |olds| {
        FreshAggregated(ds[k]);
      } else {
        JoinWithAggregated(ds[k], olds[i]);
      }
    }
  }

  /** The previous threads of the domain of this id, if it was there. */
  function PrevThreads(olds: seq<Dom>, id: int): seq<Task> {
    var i := FirstId(olds, id);
    if i == |olds| then [] else olds[i].threads
  }

  /** Sum of st_max over the vCPU threads without predecessor. */
  function NewStMax(ts: seq<Task>, prev: seq<Task>): nat {
    if ts == [] then 0
    else
      var t := ts[|ts| - 1];
      NewStMax(ts[..|ts| - 1], prev) + if t.typ == ISVCPU && !Matches(t, prev) then t.stat[ST_MAX] else 0
  }

  function TotalStMax(ts: seq<Task>): nat {
    if ts == [] then 0
    else
      var t := ts[|ts| - 1];
      TotalStMax(ts[..|ts| - 1]) + if t.typ == ISVCPU then t.stat[ST_MAX] else 0
  }

  lemma {:induction false} StMaxSplit(ts: seq<Task>, prev: seq<Task>)
    ensures TotalStMax(ts) == MatchedStMax(ts, prev) + NewStMax(ts, prev)
  {
    if ts == [] {
    } else {
      StMaxSplit(ts[..|ts| - 1], prev);
    }
  }

  lemma {:induction false} NothingMatchesNothing(ts: seq<Task>)
    ensures MatchedStMax(ts, []) == 0
  {
    if ts == [] {
    } else {
      NothingMatchesNothing(ts[..|ts| - 1]);
    }
  }

  /** st_max, unlike the deltas, is summed over the vCPUs that were there in the
      previous frame only; so it is the total over all vCPUs exactly when those
      that were not there contribute nothing, modulo 2^64. */
  lemma DomainStMax(d: Dom, olds: seq<Dom>)
    requires FreshDom(d)
    ensures var j, prev := JoinDom(d, olds), PrevThreads(olds, d.task.domainId);
            && j.task.stat[ST_MAX] == Wrap64(MatchedStMax(j.threads, prev))
            && (j.task.stat[ST_MAX] == Wrap64(TotalStMax(j.threads)) <==> Wrap64(NewStMax(j.threads, prev)) == 0)
  {
    hide Matches, JoinWith, FirstId;
    var i, j, prev := FirstId(olds, d.task.domainId), JoinDom(d, olds), PrevThreads(olds, d.task.domainId);
    if i < |olds| {
      JoinWithAggregated(d, olds[i]);
    } else {
      NothingMatchesNothing(d.threads);
    }
    StMaxSplit(j.threads, prev);
  }
}
