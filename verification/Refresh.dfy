/** src/domain.c, refresh_domains: the frame step of the sampling engine. */
module Refresh {
  import opened Types
  import opened CHeap
  import opened Proc
  import opened VcpuStat
  import opened DomainLists
  import opened Loader

  // ----- What a frame computes, on values -----

  /** `prev` has a thread of this pid. */
  predicate Matches(t: Task, prev: seq<Task>) {
    FirstPid(prev, t.pid) < |prev|
  }

  /** A thread's record after refresh_threads: joined by pid to the domain's
      previous threads. */
  function JoinThread(t: Task, prev: seq<Task>): Task {
    if !Matches(t, prev) then t
    else
      var p := prev[FirstPid(prev, t.pid)];
      var u := WithDeltas(t, p, UTIME, COUNTERS);
      if t.typ == ISVCPU then WithDeltas(u, p, 0, VCPU_STAT_SIZE) else u
  }

  function JoinThreads(ts: seq<Task>, prev: seq<Task>): (r: seq<Task>)
    ensures |r| == |ts| && forall i | 0 <= i < |ts| :: r[i] == JoinThread(ts[i], prev)
  {
    if ts == [] then [] else JoinThreads(ts[..|ts| - 1], prev) + [JoinThread(ts[|ts| - 1], prev)]
  }

  /** The domain's record after adding up the matched vCPUs among joined threads. */
  function AddMatched(d: Task, joined: seq<Task>, prev: seq<Task>): Task {
    if joined == [] then d
    else
      var d' := AddMatched(d, joined[..|joined| - 1], prev);
      var t := joined[|joined| - 1];
      if t.typ == ISVCPU && Matches(t, prev) then AddThread(d', t) else d'
  }

  function JoinWith(d: Dom, prev: Dom): Dom {
    var ts := JoinThreads(d.threads, prev.threads);
    Dom(AddMatched(WithDeltas(d.task, prev.task, UTIME, COUNTERS), ts, prev.threads), ts)
  }

  /** A domain after the frame: joined by id to the previous frame's domains. */
  function JoinDom(d: Dom, olds: seq<Dom>): Dom {
    var i := FirstId(olds, d.task.domainId);
    if i == |olds| then d else JoinWith(d, olds[i])
  }

  function JoinAll(ds: seq<Dom>, olds: seq<Dom>): (r: seq<Dom>)
    ensures |r| == |ds| && forall i | 0 <= i < |ds| :: r[i] == JoinDom(ds[i], olds)
  {
    if ds == [] then [] else JoinAll(ds[..|ds| - 1], olds) + [JoinDom(ds[|ds| - 1], olds)]
  }

  /** What one frame reads: the vcpu_stat file and the pid file directory. */
  datatype Inputs = Inputs(vcpuText: Option<string>, dir: Option<seq<PidFile>>)

  /** scr_cur, scr_pre and vcpu_list. */
  datatype State = State(now: seq<Dom>, pre: seq<Dom>, table: Table)

  predicate TableOk(t: Table) {
    |t.rows| == MAX_VCPU_NUM && t.num <= MAX_VCPU_NUM
  }

  function TableAfter(f: Inputs, t: Table): (r: Table)
    requires TableOk(t)
    ensures TableOk(r)
  {
    if f.vcpuText.None? then t else ReadRows(f.vcpuText.value, Table(t.rows, 0))
  }

  /** The domains a frame loads, before they are joined to the previous ones. */
  function Load(f: Inputs, monitorId: int, t: Table): Listing
    requires TableOk(t)
  {
    if f.vcpuText.None? then Listing([], 0, false) else ReadDir(f.dir, monitorId, TableAfter(f, t))
  }

  function Step(f: Inputs, monitorId: int, s: State): (r: State)
    requires TableOk(s.table)
    ensures TableOk(r.table)
  {
    State(JoinAll(Load(f, monitorId, s.table).doms, s.now), s.now, TableAfter(f, s.table))
  }

  // ----- The same, in place on the heap -----

  lemma {:induction false} AddMatchedKeeps(d: Task, ts: seq<Task>, prev: seq<Task>)
    ensures AddMatched(d, ts, prev) == d.(stat := AddMatched(d, ts, prev).stat, delta := AddMatched(d, ts, prev).delta)
  {
    if ts == [] {
    } else {
      AddMatchedKeeps(d, ts[..|ts| - 1], prev);
    }
  }

  lemma JoinKeeps(d: Dom, prev: Dom)
    ensures var r := JoinWith(d, prev);
            && |r.threads| == |d.threads|
            && r.task.nlwp == d.task.nlwp && r.task.threads == d.task.threads
            && r.task.domainId == d.task.domainId
  {
    AddMatchedKeeps(WithDeltas(d.task, prev.task, UTIME, COUNTERS), JoinThreads(d.threads, prev.threads), prev.threads);
  }

  /** Where the domain's thread block happens to be does not matter. */
  lemma {:induction false} AddMatchedAnywhere(d: Task, p: Ptr, ts: seq<Task>, prev: seq<Task>)
    ensures AddMatched(d.(threads := p), ts, prev) == AddMatched(d, ts, prev).(threads := p)
  {
    if ts == [] {
    } else {
      AddMatchedAnywhere(d, p, ts[..|ts| - 1], prev);
    }
  }

  lemma WithDeltasKeeps(t: Task, p: Task, lo: nat, hi: nat)
    ensures WithDeltas(t, p, lo, hi) == t.(delta := WithDeltas(t, p, lo, hi).delta)
  {
  }

  /** refresh_threads' body for one thread. */
  method RefreshThread(heap: Heap, dom: Loc, slot: Loc, prevDom: Loc)
    requires heap.Valid() && InBounds(heap.blocks, dom) && InBounds(heap.blocks, slot) && InBounds(heap.blocks, prevDom)
    requires var p := At(heap.blocks, prevDom);
      && p.threads in heap.blocks && |heap.blocks[p.threads]| == p.nlwp
      && p.threads != dom.block && p.threads != slot.block
    requires dom.block != slot.block
    modifies heap
    ensures heap.Valid()
    ensures var d, prev := At(old(heap.blocks), dom), old(heap.blocks[At(heap.blocks, prevDom).threads]);
      var t := JoinThread(At(old(heap.blocks), slot), prev);
      heap.blocks == Put(Put(old(heap.blocks), slot, t), dom,
                         if t.typ == ISVCPU && Matches(t, prev) then AddThread(d, t) else d)
  {
    ghost var b0, t0, d0 := heap.blocks, At(heap.blocks, slot), At(heap.blocks, dom);
    hide WithDeltas, AddThread;
    var pid, prevThreads := At(heap.blocks, slot).pid, At(heap.blocks, prevDom).threads;
    var i := FindThread(pid, prevDom, heap);
    PutAt(b0, slot);
    PutAt(b0, dom);
    if i == |heap.blocks[prevThreads]| {
      return;
    }
    var prevThread := Loc(prevThreads, i);
    RefreshDeltaStat(heap, slot, prevThread);
    ghost var t1 := At(heap.blocks, slot);
    assert t1 == WithDeltas(t0, At(b0, prevThread), UTIME, COUNTERS);
    assert t1.typ == t0.typ && t1.pid == t0.pid by { WithDeltasKeeps(t0, At(b0, prevThread), UTIME, COUNTERS); }
    if At(heap.blocks, slot).typ == ISVCPU {
      RefreshDeltaVcpuStat(heap, slot, prevThread);
      PutPut(b0, slot, t1, At(heap.blocks, slot));
      WithDeltasKeeps(t1, At(b0, prevThread), 0, VCPU_STAT_SIZE);
      SumVcpuStat(heap, dom, slot);
    } else {
      PutAt(heap.blocks, dom);
    }
  }

  lemma JoinPrefix(ts: seq<Task>, prev: seq<Task>, k: nat)
    requires k < |ts|
    ensures JoinThreads(ts[..k + 1], prev) == JoinThreads(ts[..k], prev) + [JoinThread(ts[k], prev)]
  {
    assert ts[..k + 1][..k] == ts[..k];
  }

  lemma AddMatchedStep(d: Task, joined: seq<Task>, t: Task, prev: seq<Task>)
    ensures AddMatched(d, joined + [t], prev)
            == var d' := AddMatched(d, joined, prev);
               if t.typ == ISVCPU && Matches(t, prev) then AddThread(d', t) else d'
  {
    assert (joined + [t])[..|joined|] == joined;
  }

  /** The thread block with its first k records joined. */
  ghost function JoinedUpTo(ts: seq<Task>, prev: seq<Task>, k: nat): (r: seq<Task>)
    requires k <= |ts|
    ensures |r| == |ts|
  {
    JoinThreads(ts[..k], prev) + ts[k..]
  }

  lemma JoinedUpToNext(ts: seq<Task>, prev: seq<Task>, k: nat)
    requires k < |ts|
    ensures JoinedUpTo(ts, prev, k)[k] == ts[k]
    ensures JoinedUpTo(ts, prev, k)[k := JoinThread(ts[k], prev)] == JoinedUpTo(ts, prev, k + 1)
  {
    JoinPrefix(ts, prev, k);
  }

  /** refresh_threads after its first k threads. */
  ghost function Threaded(h: Blocks, dom: Loc, prev: seq<Task>, k: nat): Blocks
    requires InBounds(h, dom) && var t := At(h, dom).threads; t in h && t != dom.block && k <= |h[t]|
  {
    var d := At(h, dom);
    Refill(h, d.threads, JoinedUpTo(h[d.threads], prev, k), dom,
           AddMatched(d, JoinThreads(h[d.threads][..k], prev), prev))
  }

  lemma JoinedUpToEnds(ts: seq<Task>, prev: seq<Task>)
    ensures ts[..0] == [] && ts[..|ts|] == ts
    ensures JoinedUpTo(ts, prev, 0) == ts
    ensures JoinedUpTo(ts, prev, |ts|) == JoinThreads(ts, prev)
  {
    assert ts[..|ts|] == ts;
    assert JoinThreads(ts[..0], prev) == [];
  }

  lemma ThreadedStart(h: Blocks, dom: Loc, prev: seq<Task>)
    requires InBounds(h, dom) && var t := At(h, dom).threads; t in h && t != dom.block
    ensures Threaded(h, dom, prev, 0) == h
  {
    hide AddThread;
    JoinedUpToEnds(h[At(h, dom).threads], prev);
    PutAt(h, dom);
    assert h[At(h, dom).threads := h[At(h, dom).threads]] == h;
  }

  lemma ThreadedEnd(h: Blocks, dom: Loc, prev: seq<Task>)
    requires InBounds(h, dom) && var t := At(h, dom).threads; t in h && t != dom.block
    ensures var d := At(h, dom);
            var ts := JoinThreads(h[d.threads], prev);
            Threaded(h, dom, prev, |h[d.threads]|) == Refill(h, d.threads, ts, dom, AddMatched(d, ts, prev))
  {
    hide AddMatched, JoinThreads;
    JoinedUpToEnds(h[At(h, dom).threads], prev);
  }

  /** The step RefreshThread takes. */
  lemma ThreadedNext(h: Blocks, dom: Loc, prev: seq<Task>, k: nat)
    requires InBounds(h, dom) && var t := At(h, dom).threads; t in h && t != dom.block && k < |h[t]|
    ensures var hk, t := Threaded(h, dom, prev, k), At(h, dom).threads;
            && InBounds(hk, dom) && InBounds(hk, Loc(t, k))
            && At(hk, Loc(t, k)) == h[t][k]
            && var j, d := JoinThread(h[t][k], prev), At(hk, dom);
               Put(Put(hk, Loc(t, k), j), dom, if j.typ == ISVCPU && Matches(j, prev) then AddThread(d, j) else d)
               == Threaded(h, dom, prev, k + 1)
  {
    hide JoinThread, AddThread, JoinedUpTo, Matches;
    var d0, t := At(h, dom), At(h, dom).threads;
    var ts := h[t];
    JoinedUpToNext(ts, prev, k);
    JoinPrefix(ts, prev, k);
    AddMatchedStep(d0, JoinThreads(ts[..k], prev), JoinThread(ts[k], prev), prev);
    RefillTwice(h, t, JoinedUpTo(ts, prev, k), JoinedUpTo(ts, prev, k + 1), dom,
                AddMatched(d0, JoinThreads(ts[..k], prev), prev), AddMatched(d0, JoinThreads(ts[..k + 1], prev), prev));
  }

  /** What is not the domain's own is not touched. */
  lemma ThreadedApart(h: Blocks, dom: Loc, prev: seq<Task>, k: nat)
    requires InBounds(h, dom) && var t := At(h, dom).threads; t in h && t != dom.block && k <= |h[t]|
    ensures var hk := Threaded(h, dom, prev, k);
            && (forall q | q in h && q != dom.block && q != At(h, dom).threads :: q in hk && hk[q] == h[q])
            && InBounds(hk, dom) && At(hk, dom).threads == At(h, dom).threads && At(hk, dom).nlwp == At(h, dom).nlwp
  {
    hide AddMatched, JoinThreads;
    AddMatchedKeeps(At(h, dom), JoinThreads(h[At(h, dom).threads][..k], prev), prev);
  }

  /** refresh_threads: joins every thread and sums the matched vCPUs into `dom`. */
  method RefreshThreads(heap: Heap, dom: Loc, prevDom: Loc)
    requires heap.Valid() && InBounds(heap.blocks, dom) && InBounds(heap.blocks, prevDom)
    requires var d, p := At(heap.blocks, dom), At(heap.blocks, prevDom);
      && d.threads in heap.blocks && |heap.blocks[d.threads]| == d.nlwp
      && p.threads in heap.blocks && |heap.blocks[p.threads]| == p.nlwp
      && dom.block !in {d.threads, p.threads, prevDom.block}
      && d.threads !in {p.threads, prevDom.block}
    modifies heap
    ensures heap.Valid()
    ensures var d, prev := At(old(heap.blocks), dom), old(heap.blocks[At(heap.blocks, prevDom).threads]);
      var ts := JoinThreads(old(heap.blocks)[d.threads], prev);
      heap.blocks == Refill(old(heap.blocks), d.threads, ts, dom, AddMatched(d, ts, prev))
  {
    hide JoinThread, AddThread, Threaded, Matches, AddMatched, JoinThreads;
    ghost var b0, prev := heap.blocks, heap.blocks[At(heap.blocks, prevDom).threads];
    var t, n := At(heap.blocks, dom).threads, At(heap.blocks, dom).nlwp;
    ThreadedStart(b0, dom, prev);
    for i := 0 to n
      invariant heap.Valid()
      invariant heap.blocks == Threaded(b0, dom, prev, i)
    {
      ThreadedApart(b0, dom, prev, i);
      ThreadedNext(b0, dom, prev, i);
      RefreshThread(heap, dom, Loc(t, i), prevDom);
    }
    ThreadedEnd(b0, dom, prev);
  }

  /** The list after the join loop has run from index i on. */
  ghost function JoinFrom(ds: seq<Dom>, olds: seq<Dom>, i: nat): seq<Dom>
    requires i <= |ds|
    decreases |ds| - i
  {
    if i == |ds| then ds else JoinFrom(ds[i := JoinDom(ds[i], olds)], olds, i + 1)
  }

  lemma {:induction false} JoinFromIsJoinAll(ds: seq<Dom>, olds: seq<Dom>, i: nat)
    requires i <= |ds|
    ensures |JoinFrom(ds, olds, i)| == |ds|
    ensures forall k | 0 <= k < i :: JoinFrom(ds, olds, i)[k] == ds[k]
    ensures forall k | i <= k < |ds| :: JoinFrom(ds, olds, i)[k] == JoinDom(ds[k], olds)
    ensures i == 0 ==> JoinFrom(ds, olds, i) == JoinAll(ds, olds)
    decreases |ds| - i
  {
    hide JoinDom;
    if i == |ds| {
    } else {
      JoinFromIsJoinAll(ds[i := JoinDom(ds[i], olds)], olds, i + 1);
    }
  }

  /** The join of the record `dom` with the record `prevDom`, in place. */
  method JoinInPlace(heap: Heap, dom: Loc, prevDom: Loc)
    requires heap.Valid() && InBounds(heap.blocks, dom) && InBounds(heap.blocks, prevDom)
    requires var d, p := At(heap.blocks, dom), At(heap.blocks, prevDom);
      && d.threads in heap.blocks && |heap.blocks[d.threads]| == d.nlwp
      && p.threads in heap.blocks && |heap.blocks[p.threads]| == p.nlwp
      && dom.block !in {d.threads, p.threads, prevDom.block}
      && d.threads !in {p.threads, prevDom.block}
    modifies heap
    ensures heap.Valid()
    ensures var h := old(heap.blocks);
      var d, p := At(h, dom), At(h, prevDom);
      var r := JoinWith(Dom(d.(threads := NULL), h[d.threads]), Dom(p.(threads := NULL), h[p.threads]));
      heap.blocks == Refill(h, d.threads, r.threads, dom, r.task.(threads := d.threads))
  {
    hide AddMatched, JoinThreads;
    ghost var b0, d, p := heap.blocks, At(heap.blocks, dom), At(heap.blocks, prevDom);
    RefreshDeltaStat(heap, dom, prevDom);
    ghost var d1 := At(heap.blocks, dom);
    RefreshThreads(heap, dom, prevDom);
    ghost var ts := JoinThreads(b0[d.threads], b0[p.threads]);
    PutPut(b0[d.threads := ts], dom, d1, At(heap.blocks, dom));
    AddMatchedAnywhere(WithDeltas(d.(threads := NULL), p.(threads := NULL), UTIME, COUNTERS),
                       d.threads, ts, b0[p.threads]);
  }

  /** The join of one domain of `now`, in place. */
  method RefreshDomain(now: DomainList, pre: DomainList, heap: Heap, i: nat)
    requires now.bandwidth.Length == pre.bandwidth.Length == MAX_NODE_NUM
    requires heap.Valid() && Apart(heap.blocks, now.domains, now.num, pre.domains, pre.num)
    requires i < now.num
    modifies heap
    ensures heap.Valid()
    ensures InPlace(old(heap.blocks), heap.blocks, now.domains, now.num, pre.domains, pre.num)
    ensures var ds, olds := View(old(heap.blocks), now.domains, now.num), View(old(heap.blocks), pre.domains, pre.num);
      View(heap.blocks, now.domains, now.num) == ds[i := JoinDom(ds[i], olds)]
  {
    hide JoinWith;
    ghost var b0, p, n, q, m := heap.blocks, now.domains, now.num, pre.domains, pre.num;
    ghost var ds, olds := View(b0, p, n), View(b0, q, m);
    var dom := Loc(now.domains, i);
    var j := pre.Find(At(heap.blocks, dom).domainId, heap);
    OwnedAt(b0, p, n, i);
    if j < pre.num {
      OwnedAt(b0, q, m, j);
      JoinInPlace(heap, dom, Loc(pre.domains, j));
      JoinKeeps(ds[i], olds[j]);
      Replaced(b0, p, n, i, JoinWith(ds[i], olds[j]));
      Untouched(b0, heap.blocks, q, m);
    }
  }

  /** Where the join loop is: from index i on, it still leads from `h` to the join
      of the lists in `h0`. */
  ghost predicate JoinedTo(h0: Blocks, h: Blocks, p: Ptr, n: int, q: Ptr, m: int, i: nat) {
    && InPlace(h0, h, p, n, q, m)
    && i <= n
    && JoinFrom(View(h, p, n), View(h0, q, m), i) == JoinAll(View(h0, p, n), View(h0, q, m))
  }

  lemma JoinedToStart(h0: Blocks, p: Ptr, n: int, q: Ptr, m: int)
    requires Apart(h0, p, n, q, m)
    ensures n >= 0 && JoinedTo(h0, h0, p, n, q, m, 0)
  {
    JoinFromIsJoinAll(View(h0, p, n), View(h0, q, m), 0);
  }

  lemma JoinedToApart(h0: Blocks, h: Blocks, p: Ptr, n: int, q: Ptr, m: int, i: nat)
    requires JoinedTo(h0, h, p, n, q, m, i)
    ensures Apart(h, p, n, q, m)
  {
  }

  lemma JoinedToNext(h0: Blocks, h: Blocks, h': Blocks, p: Ptr, n: int, q: Ptr, m: int, i: nat)
    requires JoinedTo(h0, h, p, n, q, m, i) && i < n
    requires InPlace(h, h', p, n, q, m)
    requires View(h', p, n) == View(h, p, n)[i := JoinDom(View(h, p, n)[i], View(h, q, m))]
    ensures JoinedTo(h0, h', p, n, q, m, i + 1)
  {
    hide ListOk, Owned, View;
    InPlaceTwice(h0, h, h', p, n, q, m);
  }

  /** refresh_domains' join loop. */
  method JoinDomains(now: DomainList, pre: DomainList, heap: Heap)
    requires now.bandwidth.Length == pre.bandwidth.Length == MAX_NODE_NUM
    requires heap.Valid() && Apart(heap.blocks, now.domains, now.num, pre.domains, pre.num)
    modifies heap
    ensures heap.Valid()
    ensures JoinedTo(old(heap.blocks), heap.blocks, now.domains, now.num, pre.domains, pre.num, now.num)
  {
    hide JoinedTo, Apart, ListOk, View, Owned;
    JoinedToStart(heap.blocks, now.domains, now.num, pre.domains, pre.num);
    ghost var b0 := heap.blocks;
    for i := 0 to now.num
      invariant heap.Valid()
      invariant JoinedTo(b0, heap.blocks, now.domains, now.num, pre.domains, pre.num, i)
    {
      ghost var h := heap.blocks;
      JoinedToApart(b0, h, now.domains, now.num, pre.domains, pre.num, i);
      RefreshDomain(now, pre, heap, i);
      JoinedToNext(b0, h, heap.blocks, now.domains, now.num, pre.domains, pre.num, i);
    }
  }
}
