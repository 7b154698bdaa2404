/** Whole runs: the state after any sequence of frames, and what holds of it. */
module Runs {
  import opened Words
  import opened Types
  import opened Proc
  import opened VcpuStat
  import opened DomainLists
  import opened Loader
  import opened ThreadTable
  import opened Refresh
  import opened Leaks
  import opened Aggregation
  import opened Engine

  /** A program run: what every frame reads, and where it starts. */
  datatype Run = Run(frames: seq<Inputs>, monitorId: int, table: Table)

  /** The state after the first k frames, starting from empty lists. */
  function StateAt(run: Run, k: nat): (s: State)
    requires TableOk(run.table) && k <= |run.frames|
    ensures TableOk(s.table)
  {
    if k == 0 then State([], [], run.table)
    else Step(run.frames[k - 1], run.monitorId, StateAt(run, k - 1))
  }

  /** The domains frame k loads. */
  function LoadedAt(run: Run, k: nat): Listing
    requires TableOk(run.table) && 1 <= k <= |run.frames|
  {
    Load(run.frames[k - 1], run.monitorId, StateAt(run, k - 1).table)
  }

  lemma LoadedAtFresh(run: Run, k: nat)
    requires TableOk(run.table) && 1 <= k <= |run.frames|
    ensures forall d | d in LoadedAt(run, k).doms :: FreshDom(d)
  {
    hide FreshDom, LoadAll, StateAt, ReadRows;
    var f, t := run.frames[k - 1], StateAt(run, k - 1).table;
    if f.vcpuText.Some? && f.dir.Some? {
      LoadAllFresh(f.dir.value, run.monitorId, TableAfter(f, t));
    }
  }

  /** In every reachable state every domain's deltas are the sums, modulo 2^64, of
      those of all its vCPUs, and its vCPU count is the number of them. */
  lemma RunAggregated(run: Run, k: nat)
    requires TableOk(run.table) && k <= |run.frames|
    ensures forall d | d in StateAt(run, k).now :: Aggregated(d)
    ensures forall d | d in StateAt(run, k).pre :: Aggregated(d)
  {
    hide Aggregated, FreshDom, Load;
    if k > 0 {
      LoadedAtFresh(run, k);
      JoinAllAggregated(LoadedAt(run, k).doms, StateAt(run, k - 1).now);
      if k > 1 {
        LoadedAtFresh(run, k - 1);
        JoinAllAggregated(LoadedAt(run, k - 1).doms, StateAt(run, k - 2).now);
      }
    }
  }

  lemma JoinDomKeepsId(d: Dom, olds: seq<Dom>)
    ensures JoinDom(d, olds).task.domainId == d.task.domainId
  {
    var i := FirstId(olds, d.task.domainId);
    if i < |olds| {
      JoinKeeps(d, olds[i]);
    }
  }

  /** In every reachable state a domain's st_max is the sum over those of its vCPUs
      that were in its previous thread table, and so the total over all of them exactly
      when the others contribute nothing, modulo 2^64. */
  lemma RunStMax(run: Run, k: nat, d: Dom)
    requires TableOk(run.table) && 1 <= k <= |run.frames| && d in StateAt(run, k).now
    ensures var prev := PrevThreads(StateAt(run, k).pre, d.task.domainId);
            && d.task.stat[ST_MAX] == Wrap64(MatchedStMax(d.threads, prev))
            && (d.task.stat[ST_MAX] == Wrap64(TotalStMax(d.threads)) <==> Wrap64(NewStMax(d.threads, prev)) == 0)
  {
    hide FreshDom, Load, JoinDom, MatchedStMax, TotalStMax, NewStMax, Wrap64, PrevThreads;
    var ds, olds := LoadedAt(run, k).doms, StateAt(run, k - 1).now;
    LoadedAtFresh(run, k);
    var i :| 0 <= i < |ds| && JoinDom(ds[i], olds) == d;
    assert ds[i] in ds;
    DomainStMax(ds[i], olds);
    JoinDomKeepsId(ds[i], olds);
  }

  /** What set_domain lets through. */
  predicate Admitted(t: Task, monitorId: int) {
    && t.typ == ISDOMAIN && t.pid >= 1 && t.nlwp > 0
    && t.domainId >= 0 && (monitorId >= 0 ==> t.domainId == monitorId)
    && 0 < |t.vmname| < DOMAIN_NAME_MAX - 1 - |".pid"|
  }

  lemma LoadedAdmitted(f: PidFile, monitorId: int, table: Table)
    requires |f.name| > 4 && table.num <= |table.rows|
    ensures var r := LoadDomain(f, monitorId, table); r.Loaded? ==> Admitted(r.dom.task, monitorId)
  {
    hide ReadTasks, Comm;
  }

  lemma {:induction false} LoadAllAdmitted(files: seq<PidFile>, monitorId: int, table: Table)
    requires table.num <= |table.rows|
    ensures forall d | d in LoadAll(files, monitorId, table).doms :: Admitted(d.task, monitorId)
  {
    hide LoadDomain, Admitted;
    if files == [] {
    } else {
      LoadAllAdmitted(files[1..], monitorId, table);
      if !Skipped(files[0]) {
        LoadedAdmitted(files[0], monitorId, table);
      }
    }
  }

  lemma JoinAdmitted(d: Dom, olds: seq<Dom>, monitorId: int)
    requires Admitted(d.task, monitorId)
    ensures Admitted(JoinDom(d, olds).task, monitorId)
  {
    var i := FirstId(olds, d.task.domainId);
    if i < |olds| {
      AddMatchedKeeps(WithDeltas(d.task, olds[i].task, UTIME, COUNTERS),
                      JoinThreads(d.threads, olds[i].threads), olds[i].threads);
    }
  }

  /** In every reachable state only admitted domains are listed: in particular none
      but the monitored one, if there is one. */
  lemma RunAdmitted(run: Run, k: nat)
    requires TableOk(run.table) && 1 <= k <= |run.frames|
    ensures forall d | d in StateAt(run, k).now :: Admitted(d.task, run.monitorId)
  {
    hide JoinDom, ReadRows, LoadAll, Admitted;
    var f, s := run.frames[k - 1], StateAt(run, k - 1);
    var ds := LoadedAt(run, k).doms;
    if f.vcpuText.Some? && f.dir.Some? {
      LoadAllAdmitted(f.dir.value, run.monitorId, TableAfter(f, s.table));
    }
    forall i | 0 <= i < |ds|
      ensures Admitted(JoinDom(ds[i], s.now).task, run.monitorId)
    {
      assert ds[i] in ds;
      JoinAdmitted(ds[i], s.now, run.monitorId);
    }
  }

  /** Blocks lost in the first k frames. */
  function LeaksUpTo(run: Run, k: nat): nat
    requires TableOk(run.table) && k <= |run.frames|
  {
    if k == 0 then 0 else LeaksUpTo(run, k - 1) + LoadedAt(run, k).leaks
  }

  /** A run loses no block if and only if none of the directories it reads has an
      entry that passes every guard of set_domain but the length of its name. */
  lemma {:induction false} NoLeaks(run: Run, k: nat)
    requires TableOk(run.table) && k <= |run.frames|
    ensures LeaksUpTo(run, k) == 0 <==> forall j | 0 <= j < k :: !Leaky(run.frames[j], run.monitorId)
  {
    hide StateAt, Load, Leaky;
    if k == 0 {
    } else {
      NoLeaks(run, k - 1);
      FrameLeaks(run.frames[k - 1], run.monitorId, StateAt(run, k - 1).table);
    }
  }

  /** main's loop, as far as sampling goes: the lists hold what StateAt says, and
      the live blocks are theirs and the lost ones, each block counted once. */
  method SampleFrames(s: Sampler, run: Run)
    requires s.Valid() && s.monitorId == run.monitorId
    requires s.Contents() == State([], [], run.table) && s.Leaked() == {}
    modifies s.heap, s.now, s.pre, s.vcpus, s.now.bandwidth, s.pre.bandwidth, s.vcpus.domains
    ensures s.Valid()
    ensures s.Contents() == StateAt(run, |run.frames|)
    ensures |s.heap.blocks| == (if s.now.domains == NULL then 0 else 1 + s.now.num)
                             + (if s.pre.domains == NULL then 0 else 1 + s.pre.num)
                             + LeaksUpTo(run, |run.frames|)
    ensures s.Leaked() == {} <==> forall j | 0 <= j < |run.frames| :: !Leaky(run.frames[j], run.monitorId)
  {
    hide Step, Load, Lost, Apart, View, Leaky;
    for i := 0 to |run.frames|
      invariant s.Valid()
      invariant s.Contents() == StateAt(run, i)
      invariant |s.Leaked()| == LeaksUpTo(run, i)
    {
      var ret := s.RefreshDomains(run.frames[i]);
    }
    NoLeaks(run, |run.frames|);
    LiveCount(s.heap.blocks, s.now.domains, s.now.num, s.pre.domains, s.pre.num);
  }

  // ----- The deltas of one tracked record over a run -----

  /** A tracked record: the domain of an id, or one of its threads. */
  datatype Tracked = TheDomain(id: int) | TheThread(id: int, pid: int)

  /** The record a list holds for it: the first of that id and pid. */
  function Find(ds: seq<Dom>, x: Tracked): Option<Task> {
    var i := FirstId(ds, x.id);
    if i == |ds| then None
    else if x.TheDomain? then Some(ds[i].task)
    else
      var j := FirstPid(ds[i].threads, x.pid);
      if j == |ds[i].threads| then None else Some(ds[i].threads[j])
  }

  /** The counters whose deltas are computed on the record itself: utime and stime,
      and the vcpu_stat counters of a vCPU thread. */
  predicate OwnDelta(t: Task, x: Tracked, r: nat) {
    r == UTIME || r == STIME || (x.TheThread? && t.typ == ISVCPU && 1 <= r < VCPU_STAT_SIZE && r != ST_MAX)
  }

  lemma {:induction false} FirstIdUnique(ds: seq<Dom>, id: int, i: nat)
    requires i <= |ds|
    requires forall k | 0 <= k < i :: ds[k].task.domainId != id
    requires i < |ds| ==> ds[i].task.domainId == id
    ensures FirstId(ds, id) == i
  {
  }

  lemma {:induction false} FirstPidUnique(ts: seq<Task>, pid: int, i: nat)
    requires i <= |ts|
    requires forall k | 0 <= k < i :: ts[k].pid != pid
    requires i < |ts| ==> ts[i].pid == pid
    ensures FirstPid(ts, pid) == i
  {
  }

  /** Joining does not change who is found. */
  lemma FindJoined(ds: seq<Dom>, olds: seq<Dom>, id: int)
    ensures FirstId(JoinAll(ds, olds), id) == FirstId(ds, id)
  {
    var js := JoinAll(ds, olds);
    forall k | 0 <= k < |ds|
      ensures js[k].task.domainId == ds[k].task.domainId
    {
      var i := FirstId(olds, ds[k].task.domainId);
      if i < |olds| {
        JoinKeeps(ds[k], olds[i]);
      }
    }
    hide JoinDom;
    FirstIdUnique(js, id, FirstId(ds, id));
  }

  lemma JoinThreadDelta(t: Task, prev: seq<Task>, x: Tracked, r: nat)
    requires FreshThread(t) && r < COUNTERS && x.TheThread? && OwnDelta(t, x, r)
    ensures var i := FirstPid(prev, t.pid);
            JoinThread(t, prev).delta[r]
            == if i < |prev| then Delta(t.stat[r], prev[i].stat[r], prev[i].delta[r]) else 0
  {
  }

  lemma JoinDomDelta(d: Dom, prev: Dom, r: nat)
    requires FreshDom(d) && (r == UTIME || r == STIME)
    ensures JoinWith(d, prev).task.delta[r] == Delta(d.task.stat[r], prev.task.stat[r], prev.task.delta[r])
    ensures JoinWith(d, prev).task.stat[r] == d.task.stat[r]
  {
    var own := WithDeltas(d.task, prev.task, UTIME, COUNTERS);
    AddMatchedOther(own, JoinThreads(d.threads, prev.threads), prev.threads, r);
  }

  lemma FindDomain(d: Dom, prev: Dom, r: nat)
    requires FreshDom(d) && (r == UTIME || r == STIME)
    ensures var j := JoinWith(d, prev).task;
            j.stat[r] == d.task.stat[r] && j.delta[r] == Delta(j.stat[r], prev.task.stat[r], prev.task.delta[r])
  {
    hide JoinWith;
    JoinDomDelta(d, prev, r);
  }

  lemma FindJoinedThread(ts: seq<Task>, prev: seq<Task>, x: Tracked, r: nat)
    requires r < COUNTERS && x.TheThread? && forall t | t in ts :: FreshThread(t)
    ensures var js, m, i := JoinThreads(ts, prev), FirstPid(ts, x.pid), FirstPid(prev, x.pid);
            && FirstPid(js, x.pid) == m
            && (m < |ts| && OwnDelta(js[m], x, r) ==>
                  && js[m].stat[r] == ts[m].stat[r]
                  && js[m].delta[r]
                     == if i < |prev| then Delta(js[m].stat[r], prev[i].stat[r], prev[i].delta[r]) else 0)
  {
    hide JoinThread, FreshThread;
    var js, m := JoinThreads(ts, prev), FirstPid(ts, x.pid);
    forall k | 0 <= k < |ts|
      ensures js[k].pid == ts[k].pid
    {
      JoinThreadKeeps(ts[k], prev);
    }
    FirstPidUnique(js, x.pid, m);
    if m < |ts| {
      JoinThreadKeeps(ts[m], prev);
      assert ts[m] in ts;
      if OwnDelta(ts[m], x, r) {
        JoinThreadDelta(ts[m], prev, x, r);
      }
    }
  }

  lemma FreshMeansNoDelta(d: Dom, x: Tracked, r: nat)
    requires FreshDom(d) && r < COUNTERS
    ensures d.task.delta[r] == 0
    ensures forall k | 0 <= k < |d.threads| :: d.threads[k].delta[r] == 0
    ensures forall t | t in d.threads :: FreshThread(t)
  {
    forall k | 0 <= k < |d.threads|
      ensures d.threads[k].delta[r] == 0
    {
      assert FreshThread(d.threads[k]);
    }
  }

  lemma JoinedSlots(d: Dom, prev: Dom)
    ensures var js := JoinWith(d, prev).threads;
            && js == JoinThreads(d.threads, prev.threads)
            && |js| == |d.threads|
            && forall k | 0 <= k < |js| :: js[k].pid == d.threads[k].pid && js[k].typ == d.threads[k].typ
  {
    hide JoinThread, AddMatched, WithDeltas;
    var js := JoinThreads(d.threads, prev.threads);
    forall k | 0 <= k < |js|
      ensures js[k].pid == d.threads[k].pid && js[k].typ == d.threads[k].typ
    {
      JoinThreadKeeps(d.threads[k], prev.threads);
    }
  }

  /** One frame, for one tracked record and counter: the delta is the one DELTA_FUN
      computes from the record's previous self, and 0 without one. */
  lemma FindStep(ds: seq<Dom>, olds: seq<Dom>, x: Tracked, r: nat)
    requires forall d | d in ds :: FreshDom(d)
    requires r < COUNTERS
    ensures var t, j, o := Find(ds, x), Find(JoinAll(ds, olds), x), Find(olds, x);
            && j.Some? == t.Some?
            && (j.Some? && OwnDelta(j.value, x, r) ==>
                  && j.value.stat[r] == t.value.stat[r]
                  && j.value.delta[r]
                     == if o.Some? then Delta(j.value.stat[r], o.value.stat[r], o.value.delta[r]) else 0)
  {
    hide JoinWith, JoinThreads, FreshDom, FreshThread;
    FindJoined(ds, olds, x.id);
    var i := FirstId(ds, x.id);
    if i < |ds| {
      var d, k := ds[i], FirstId(olds, x.id);
      assert d in ds;
      FreshMeansNoDelta(d, x, r);
      if k < |olds| {
        JoinedSlots(d, olds[k]);
        if x.TheThread? {
          FindJoinedThread(d.threads, olds[k].threads, x, r);
        } else if r == UTIME || r == STIME {
          FindDomain(d, olds[k], r);
        }
      }
    }
  }

  /** The current lists after frames 0..k. */
  function History(run: Run, k: nat): (h: seq<seq<Dom>>)
    requires TableOk(run.table) && k <= |run.frames|
    ensures |h| == k + 1
  {
    (if k == 0 then [] else History(run, k - 1)) + [StateAt(run, k).now]
  }

  lemma {:induction false} HistoryIs(run: Run, k: nat, j: nat)
    requires TableOk(run.table) && j <= k <= |run.frames|
    ensures History(run, k)[j] == StateAt(run, j).now
  {
    hide StateAt;
    if j == k {
    } else {
      HistoryIs(run, k - 1, j);
    }
  }

  /** The record is in the list, and computes the delta of counter r itself. */
  predicate Found(ds: seq<Dom>, x: Tracked, r: nat) {
    Find(ds, x).Some? && OwnDelta(Find(ds, x).value, x, r)
  }

  /** The record computes this delta itself since frame `first`, and until frame k. */
  predicate FoundSince(h: seq<seq<Dom>>, x: Tracked, r: nat, first: nat, k: nat)
    requires 1 <= first <= k < |h|
  {
    && Found(h[k], x, r)
    && if k == first then !Found(h[k - 1], x, r) else FoundSince(h, x, r, first, k - 1)
  }

  function CounterIn(ds: seq<Dom>, x: Tracked, r: nat): u64
    requires r < COUNTERS && Found(ds, x, r)
  {
    Find(ds, x).value.stat[r]
  }

  function DeltaIn(ds: seq<Dom>, x: Tracked, r: nat): u64
    requires r < COUNTERS && Found(ds, x, r)
  {
    Find(ds, x).value.delta[r]
  }

  /** The values the counter had in frames first..k; behind 0, for a thread that was
      there before without being a vCPU. */
  function Trace(h: seq<seq<Dom>>, x: Tracked, r: nat, first: nat, k: nat): (c: seq<u64>)
    requires 1 <= first <= k < |h| && r < COUNTERS && FoundSince(h, x, r, first, k)
    ensures |c| == k - first + (if Find(h[first - 1], x).Some? then 2 else 1)
    ensures c[|c| - 1] == CounterIn(h[k], x, r)
  {
    (if k > first then Trace(h, x, r, first, k - 1) else if Find(h[k - 1], x).Some? then [0] else [])
    + [CounterIn(h[k], x, r)]
  }

  /** Index j is the last at which the counter did not go back. */
  predicate LastRise(c: seq<u64>, j: nat) {
    && 1 <= j < |c|
    && c[j] >= c[j - 1]
    && forall i | j < i < |c| :: c[i] < c[i - 1]
  }

  /** The counter went back in every frame. */
  predicate NeverRose(c: seq<u64>) {
    forall i | 1 <= i < |c| :: c[i] < c[i - 1]
  }

  /** `delta` is the last increase that was not negative, or 0 without one. */
  ghost predicate IsLastIncrease(c: seq<u64>, delta: int) {
    && (forall j: nat | LastRise(c, j) :: delta == c[j] - c[j - 1])
    && (NeverRose(c) ==> delta == 0)
  }

  /** Past values are not affected by a further one. */
  lemma RiseBefore(c: seq<u64>, v: u64, j: nat)
    requires j < |c| && forall i | j < i < |c + [v]| :: (c + [v])[i] < (c + [v])[i - 1]
    ensures v < c[|c| - 1]
    ensures forall i | j < i < |c| :: c[i] < c[i - 1]
    ensures (c + [v])[j] == c[j] && (j > 0 ==> (c + [v])[j - 1] == c[j - 1])
  {
    var d := c + [v];
    assert d[|c|] < d[|c| - 1];
    forall i | j < i < |c|
      ensures c[i] < c[i - 1]
    {
      assert d[i] < d[i - 1];
    }
  }

  lemma LastIncreaseStep(c: seq<u64>, v: u64, delta: u64)
    requires c != [] && IsLastIncrease(c, delta)
    ensures IsLastIncrease(c + [v], Delta(v, c[|c| - 1], delta))
  {
    var d, delta' := c + [v], Delta(v, c[|c| - 1], delta);
    assert d[|c|] == v && d[|c| - 1] == c[|c| - 1];
    forall j: nat | LastRise(d, j)
      ensures delta' == d[j] - d[j - 1]
    {
      if j < |c| {
        RiseBefore(c, v, j);
        assert LastRise(c, j);
      }
    }
    if NeverRose(d) {
      RiseBefore(c, v, 0);
      assert NeverRose(c);
    }
  }

  /** A record found that does not compute the delta itself holds neither the counter
      nor a delta, if it may come to compute it. */
  lemma NotYetCounting(run: Run, x: Tracked, r: nat, k: nat)
    requires TableOk(run.table) && k <= |run.frames| && x.TheThread? && 1 <= r < VCPU_STAT_SIZE && r != ST_MAX
    requires Find(StateAt(run, k).now, x).Some? && !Found(StateAt(run, k).now, x, r)
    ensures var t := Find(StateAt(run, k).now, x).value; t.stat[r] == 0 && t.delta[r] == 0
  {
    hide StateAt;
    RunAggregated(run, k);
    var d := StateAt(run, k).now[FirstId(StateAt(run, k).now, x.id)];
    assert Aggregated(d);
    assert ThreadOk(d.threads[FirstPid(d.threads, x.pid)]);
  }

  /** One frame of a tracked record. */
  lemma DeltaStep(run: Run, x: Tracked, r: nat, k: nat)
    requires TableOk(run.table) && 1 <= k <= |run.frames| && r < COUNTERS
    requires Found(StateAt(run, k).now, x, r)
    ensures var cur, prev := StateAt(run, k).now, StateAt(run, k - 1).now;
            && (Find(prev, x).None? ==> DeltaIn(cur, x, r) == 0)
            && (Find(prev, x).Some? && !Found(prev, x, r) ==> DeltaIn(cur, x, r) == CounterIn(cur, x, r))
            && (Found(prev, x, r) ==>
                  DeltaIn(cur, x, r) == Delta(CounterIn(cur, x, r), CounterIn(prev, x, r), DeltaIn(prev, x, r)))
  {
    hide Find, FreshDom, Load, JoinAll, ReadRows;
    LoadedAtFresh(run, k);
    FindStep(LoadedAt(run, k).doms, StateAt(run, k - 1).now, x, r);
    if Find(StateAt(run, k - 1).now, x).Some? && !Found(StateAt(run, k - 1).now, x, r) {
      NotYetCounting(run, x, r, k - 1);
    }
  }

  lemma FirstIncrease(v: u64)
    ensures IsLastIncrease([] + [v], 0)
    ensures IsLastIncrease([0] + [v], v)
  {
    var c: seq<u64> := [0] + [v];
    assert LastRise(c, 1);
    assert !NeverRose(c);
  }

  /** The delta stored for a record that has computed it since frame `first`, after any
      number of frames and resets: the last increase of its counter that was not
      negative, and 0 if there was none. A thread that becomes a vCPU while it is
      matched has its whole counter as first increase. */
  lemma {:induction false} DeltaLaw(run: Run, h: seq<seq<Dom>>, x: Tracked, r: nat, first: nat, k: nat)
    requires TableOk(run.table) && h == History(run, |run.frames|)
    requires 1 <= first <= k < |h| && r < COUNTERS && FoundSince(h, x, r, first, k)
    ensures IsLastIncrease(Trace(h, x, r, first, k), DeltaIn(h[k], x, r))
    decreases k
  {
    hide Found, CounterIn, DeltaIn, StateAt, Find, Delta, History, IsLastIncrease;
    HistoryIs(run, |run.frames|, k);
    HistoryIs(run, |run.frames|, k - 1);
    DeltaStep(run, x, r, k);
    if k > first {
      DeltaLaw(run, h, x, r, first, k - 1);
      LastIncreaseStep(Trace(h, x, r, first, k - 1), CounterIn(h[k], x, r), DeltaIn(h[k - 1], x, r));
    } else {
      FirstIncrease(CounterIn(h[k], x, r));
    }
  }
}
