/** src/vmtop.c: the percentages print_domain_field derives from the deltas, over
    the reals; and how a domain's row relates to its threads' rows. */
module Usage {
  import opened Words
  import opened Types
  import opened DomainLists
  import opened ThreadTable
  import opened Refresh
  import opened Aggregation
  import opened Runs

  /** Nanoseconds of a delta as a percentage of the delay. */
  function Percent(time: int, delay: int): real
    requires delay > 0
  {
    time as real * 100.0 / 1000000000.0 / delay as real
  }

  /** justify_usage */
  function Justify(usage: real, smpVcpus: nat): real {
    if usage >= 100.0 * smpVcpus as real then 100.0 * smpVcpus as real else usage
  }

  /** What the row of a record shows for a counter, %ST or %GUE. */
  function RowUsage(t: Task, r: nat, delay: int): real
    requires r < COUNTERS && delay > 0
  {
    Justify(Percent(t.delta[r], delay), t.smpVcpus)
  }

  function RowsUsage(ts: seq<Task>, r: nat, delay: int): real
    requires r < COUNTERS && delay > 0
  {
    if ts == [] then 0.0 else RowsUsage(ts[..|ts| - 1], r, delay) + RowUsage(ts[|ts| - 1], r, delay)
  }

  lemma DivAdd(x: real, y: real, c: real)
    requires c > 0.0
    ensures x / c + y / c == (x + y) / c
  {
    var p, q, s := x / c, y / c, (x + y) / c;
    assert p * c == x && q * c == y && s * c == x + y;
    assert (p + q - s) * c == 0.0;
  }

  lemma PercentAdds(a: int, b: int, delay: int)
    requires delay > 0
    ensures Percent(a + b, delay) == Percent(a, delay) + Percent(b, delay)
  {
    DivAdd(a as real * 100.0 / 1000000000.0, b as real * 100.0 / 1000000000.0, delay as real);
  }

  /** A whole delay spent is 100 percent. */
  lemma WholeDelay(delay: int)
    requires delay > 0
    ensures Percent(delay * 1000000000, delay) == 100.0
  {
    var d := delay as real;
    assert (delay * 1000000000) as real == d * 1000000000.0;
    assert d * 1000000000.0 * 100.0 / 1000000000.0 == d * 100.0;
    assert (d * 100.0) / d == 100.0;
  }

  lemma ZeroPercent(delay: int)
    requires delay > 0
    ensures Percent(0, delay) == 0.0
  {
  }

  /** No vCPU used more than one CPU. */
  predicate NoneSaturated(ts: seq<Task>, r: nat, delay: int)
    requires r < COUNTERS && delay > 0
  {
    forall i | 0 <= i < |ts| :: ts[i].typ == ISVCPU ==> Percent(ts[i].delta[r], delay) <= 100.0
  }

  /** Every vCPU used at least one CPU. */
  predicate AllSaturated(ts: seq<Task>, r: nat, delay: int)
    requires r < COUNTERS && delay > 0
  {
    forall i | 0 <= i < |ts| :: ts[i].typ == ISVCPU ==> Percent(ts[i].delta[r], delay) >= 100.0
  }

  predicate AllThreadsOk(ts: seq<Task>) {
    forall i | 0 <= i < |ts| :: ThreadOk(ts[i])
  }

  /** A thread's row: capped at 100 for a vCPU, 0 for any other. */
  lemma RowIs(t: Task, r: nat, delay: int)
    requires r < VCPU_STAT_SIZE && delay > 0 && ThreadOk(t)
    ensures t.typ == ISVCPU ==> var u := Percent(t.delta[r], delay);
            RowUsage(t, r, delay) == if u >= 100.0 then 100.0 else u
    ensures t.typ != ISVCPU ==> RowUsage(t, r, delay) == 0.0
  {
    ZeroPercent(delay);
  }

  lemma SaturatedStep(init: seq<Task>, t: Task, r: nat, delay: int)
    requires r < COUNTERS && delay > 0
    ensures NoneSaturated(init + [t], r, delay)
            <==> NoneSaturated(init, r, delay) && (t.typ == ISVCPU ==> Percent(t.delta[r], delay) <= 100.0)
    ensures AllSaturated(init + [t], r, delay)
            <==> AllSaturated(init, r, delay) && (t.typ == ISVCPU ==> Percent(t.delta[r], delay) >= 100.0)
  {
    hide Percent;
    var ts := init + [t];
    assert ts[|init|] == t && forall i | 0 <= i < |init| :: ts[i] == init[i];
    if NoneSaturated(ts, r, delay) {
      forall i | 0 <= i < |init|
        ensures init[i].typ == ISVCPU ==> Percent(init[i].delta[r], delay) <= 100.0
      {
        assert ts[i] == init[i];
      }
    }
    if AllSaturated(ts, r, delay) {
      forall i | 0 <= i < |init|
        ensures init[i].typ == ISVCPU ==> Percent(init[i].delta[r], delay) >= 100.0
      {
        assert ts[i] == init[i];
      }
    }
  }

  /** The threads' rows add up to at most what they used and at most one CPU for each
      vCPU; and to the one or the other exactly in the two extreme cases. */
  lemma {:induction false} RowsBounds(ts: seq<Task>, r: nat, delay: int)
    requires 1 <= r < VCPU_STAT_SIZE && r != ST_MAX && delay > 0 && AllThreadsOk(ts)
    ensures var sum, used, cap := RowsUsage(ts, r, delay),
              Percent(VcpuDeltas(ts, r), delay), 100.0 * VcpuCount(ts) as real;
            && sum <= used && sum <= cap
            && (sum == used <==> NoneSaturated(ts, r, delay))
            && (sum == cap <==> AllSaturated(ts, r, delay))
  {
    hide Percent, RowUsage, ThreadOk;
    if ts == [] {
      ZeroPercent(delay);
    } else {
      var init, t := ts[..|ts| - 1], ts[|ts| - 1];
      RowsBounds(init, r, delay);
      RowIs(t, r, delay);
      SaturatedStep(init, t, r, delay);
      assert init + [t] == ts;
      if t.typ == ISVCPU {
        PercentAdds(VcpuDeltas(init, r), t.delta[r], delay);
      }
    }
  }

  lemma AggregatedThreads(d: Dom)
    requires Aggregated(d)
    ensures AllThreadsOk(d.threads) && d.task.smpVcpus == VcpuCount(d.threads)
    ensures forall r | 1 <= r < VCPU_STAT_SIZE && r != ST_MAX :: d.task.delta[r] == Wrap64(VcpuDeltas(d.threads, r))
  {
    hide ThreadOk, VcpuDeltas;
  }

  /** In every reachable state, as long as the deltas add up within 64 bits: a
      domain's row shows at least the sum of its threads' rows, and exactly that sum
      if and only if no vCPU, or every vCPU, reaches the cap of one CPU. */
  lemma DomainRow(run: Run, k: nat, d: Dom, r: nat, delay: int)
    requires TableOk(run.table) && k <= |run.frames| && d in StateAt(run, k).now
    requires 1 <= r < VCPU_STAT_SIZE && r != ST_MAX && delay > 0 && VcpuDeltas(d.threads, r) < TWO64
    ensures RowsUsage(d.threads, r, delay) <= RowUsage(d.task, r, delay)
    ensures RowsUsage(d.threads, r, delay) == RowUsage(d.task, r, delay)
            <==> NoneSaturated(d.threads, r, delay) || AllSaturated(d.threads, r, delay)
  {
    hide StateAt, Aggregated, Percent, AllThreadsOk, NoneSaturated, AllSaturated, RowsUsage, VcpuDeltas;
    RunAggregated(run, k);
    AggregatedThreads(d);
    RowsBounds(d.threads, r, delay);
    WrapSmall(VcpuDeltas(d.threads, r));
  }

  /** %HYP: user minus guest plus system time, in wrapping arithmetic. */
  function Hyp(t: Task): u64 {
    Add64(Sub64(t.delta[VCPU_UTIME], t.delta[GTIME]), t.delta[VCPU_STIME])
  }

  function VcpuHyps(ts: seq<Task>): int {
    if ts == [] then 0
    else VcpuHyps(ts[..|ts| - 1]) + if ts[|ts| - 1].typ == ISVCPU then Hyp(ts[|ts| - 1]) else 0
  }

  /** The integer a domain's %HYP stands for. */
  function TrueHyp(ts: seq<Task>): int {
    VcpuDeltas(ts, VCPU_UTIME) - VcpuDeltas(ts, GTIME) + VcpuDeltas(ts, VCPU_STIME)
  }

  lemma HypWraps(u: int, g: int, s: int)
    ensures Add64(Sub64(Wrap64(u), Wrap64(g)), Wrap64(s)) == Wrap64(u - g + s)
  {
    hide Wrap64;
    WrapCongruence(g, Wrap64(u));
    WrapCongruence(u, -g);
    WrapCongruence(u - g, Wrap64(s));
    WrapCongruence(s, u - g);
  }

  lemma HypOf(t: Task)
    ensures Hyp(t) == Wrap64(t.delta[VCPU_UTIME] as int - t.delta[GTIME] as int + t.delta[VCPU_STIME] as int)
  {
    hide Wrap64;
    var u, g, s := t.delta[VCPU_UTIME], t.delta[GTIME], t.delta[VCPU_STIME];
    WrapSmall(u);
    WrapSmall(g);
    WrapSmall(s);
    HypWraps(u, g, s);
  }

  lemma {:induction false} HypsWrap(ts: seq<Task>)
    ensures Wrap64(VcpuHyps(ts)) == Wrap64(TrueHyp(ts))
  {
    hide Wrap64, Hyp;
    if ts == [] {
    } else {
      var init, t := ts[..|ts| - 1], ts[|ts| - 1];
      HypsWrap(init);
      if t.typ == ISVCPU {
        HypOf(t);
        var x := t.delta[VCPU_UTIME] as int - t.delta[GTIME] as int + t.delta[VCPU_STIME] as int;
        WrapSmall(x);
        WrapAdd(VcpuHyps(init), Hyp(t), TrueHyp(init), x);
      }
    }
  }

  /** No vCPU was longer in the guest than it ran at all. */
  predicate GuestWithin(ts: seq<Task>) {
    forall i | 0 <= i < |ts| && ts[i].typ == ISVCPU ::
      ts[i].delta[GTIME] as int <= ts[i].delta[VCPU_UTIME] as int + ts[i].delta[VCPU_STIME] as int
  }

  lemma {:induction false} TrueHypNonNegative(ts: seq<Task>)
    requires GuestWithin(ts)
    ensures TrueHyp(ts) >= 0
  {
    if ts == [] {
    } else {
      TrueHypNonNegative(ts[..|ts| - 1]);
    }
  }

  /** In every reachable state a domain's hypervisor time is the sum of its vCPUs',
      modulo 2^64; and it is the integer it stands for exactly when that is a u64,
      which it is when no vCPU's guest time exceeds its run time and the total fits. */
  lemma DomainHyp(run: Run, k: nat, d: Dom)
    requires TableOk(run.table) && k <= |run.frames| && d in StateAt(run, k).now
    ensures Hyp(d.task) == Wrap64(VcpuHyps(d.threads))
    ensures Hyp(d.task) == TrueHyp(d.threads) <==> 0 <= TrueHyp(d.threads) < TWO64
    ensures GuestWithin(d.threads) && TrueHyp(d.threads) < TWO64 ==> Hyp(d.task) == TrueHyp(d.threads)
  {
    hide StateAt, Aggregated, VcpuHyps, VcpuDeltas, GuestWithin, Wrap64;
    RunAggregated(run, k);
    AggregatedThreads(d);
    HypWraps(VcpuDeltas(d.threads, VCPU_UTIME), VcpuDeltas(d.threads, GTIME), VcpuDeltas(d.threads, VCPU_STIME));
    HypsWrap(d.threads);
    WrapSmall(TrueHyp(d.threads));
    if GuestWithin(d.threads) {
      TrueHypNonNegative(d.threads);
    }
  }
}
