/** The join does not depend on the order of the lists: permuting domains or threads,
    new or old, permutes the result and nothing else. */
module Permutation {
  import opened Words
  import opened Multisets
  import opened Types
  import opened DomainLists
  import opened ThreadTable
  import opened Refresh
  import opened Aggregation
  import opened Runs

  /** The same domain, its threads in any order. */
  ghost predicate SameDom(a: Dom, b: Dom) {
    a.task == b.task && multiset(a.threads) == multiset(b.threads)
  }

  /** Every id finds the same domain in both lists, or in neither. */
  ghost predicate Equivalent(a: seq<Dom>, b: seq<Dom>) {
    forall id :: FirstId(a, id) < |a| || FirstId(b, id) < |b| ==>
      && FirstId(a, id) < |a| && FirstId(b, id) < |b|
      && SameDom(a[FirstId(a, id)], b[FirstId(b, id)])
  }

  /** A permuted list of domains with distinct ids is equivalent. */
  lemma PermutedIsEquivalent(a: seq<Dom>, b: seq<Dom>)
    requires multiset(a) == multiset(b)
    requires forall i, j | 0 <= i < j < |a| :: a[i].task.domainId != a[j].task.domainId
    ensures Equivalent(a, b)
  {
    forall id | FirstId(a, id) < |a| || FirstId(b, id) < |b|
      ensures FirstId(a, id) < |a| && FirstId(b, id) < |b|
      ensures a[FirstId(a, id)] == b[FirstId(b, id)]
    {
      var i, j := FirstId(a, id), FirstId(b, id);
      if i < |a| {
        assert a[i] in multiset(b);
      }
      if j < |b| {
        assert b[j] in multiset(a);
        assert b[j] in a;
      }
    }
  }

  /** Which of two permuted previous tables a thread is joined to does not matter. */
  lemma JoinThreadPermuted(t: Task, p: seq<Task>, q: seq<Task>)
    requires multiset(p) == multiset(q) && PidDetermines(p)
    ensures Matches(t, p) == Matches(t, q) && JoinThread(t, p) == JoinThread(t, q)
  {
    var i, j := FirstPid(p, t.pid), FirstPid(q, t.pid);
    if i < |p| {
      assert p[i] in multiset(q);
    }
    if j < |q| {
      assert q[j] in multiset(p);
      assert q[j] in p;
      var k :| 0 <= k < |p| && p[k] == q[j];
      assert p[k].pid == p[i].pid;
    }
  }

  lemma {:induction false} JoinThreadsPermutedPrev(ts: seq<Task>, p: seq<Task>, q: seq<Task>)
    requires multiset(p) == multiset(q) && PidDetermines(p)
    ensures JoinThreads(ts, p) == JoinThreads(ts, q)
  {
    hide JoinThread, PidDetermines;
    if ts == [] {
    } else {
      JoinThreadsPermutedPrev(ts[..|ts| - 1], p, q);
      JoinThreadPermuted(ts[|ts| - 1], p, q);
    }
  }

  lemma JoinThreadsConcat(a: seq<Task>, b: seq<Task>, p: seq<Task>)
    ensures JoinThreads(a + b, p) == JoinThreads(a, p) + JoinThreads(b, p)
  {
    hide JoinThread;
  }

  lemma JoinThreadsMoved(u: seq<Task>, x: Task, v: seq<Task>, p: seq<Task>)
    ensures multiset(JoinThreads(u + [x] + v, p)) == multiset(JoinThreads(u + v, p)) + multiset{JoinThread(x, p)}
  {
    hide JoinThread;
    JoinThreadsConcat(u + [x], v, p);
    JoinThreadsConcat(u, [x], p);
    JoinThreadsConcat(u, v, p);
    assert JoinThreads([x], p) == [JoinThread(x, p)];
  }

  lemma {:induction false} JoinThreadsPermuted(a: seq<Task>, b: seq<Task>, p: seq<Task>)
    requires multiset(a) == multiset(b)
    ensures multiset(JoinThreads(a, p)) == multiset(JoinThreads(b, p))
    decreases |a|
  {
    hide JoinThread;
    if a == [] {
      assert |multiset(b)| == 0;
      assert b == [];
    } else {
      var x, a' := a[|a| - 1], a[..|a| - 1];
      assert a == a' + [x] + [] && a' + [] == a' && multiset(a') == multiset(a) - multiset{x};
      var u, v := Without(b, x);
      JoinThreadsPermuted(a', u + v, p);
      JoinThreadsMoved(a', x, [], p);
      JoinThreadsMoved(u, x, v, p);
    }
  }

  /** One step of the summation loop. */
  function Add1(d: Task, t: Task, prev: seq<Task>): Task {
    if t.typ == ISVCPU && Matches(t, prev) then AddThread(d, t) else d
  }

  lemma Add64Commutes(x: u64, a: u64, b: u64)
    ensures Add64(Add64(x, a), b) == Add64(Add64(x, b), a)
  {
    WrapCongruence(x + a, b);
    WrapCongruence(x + b, a);
  }

  /** Wrapping additions commute. */
  lemma AddThreadCommutes(d: Task, a: Task, b: Task)
    ensures AddThread(AddThread(d, a), b) == AddThread(AddThread(d, b), a)
  {
    hide Add64;
    Add64Commutes(d.stat[ST_MAX], a.stat[ST_MAX], b.stat[ST_MAX]);
    var l, r := AddThread(AddThread(d, a), b), AddThread(AddThread(d, b), a);
    forall i | 0 <= i < COUNTERS
      ensures l.delta[i] == r.delta[i]
    {
      Add64Commutes(d.delta[i], a.delta[i], b.delta[i]);
    }
    assert l.delta == r.delta;
    assert l.stat == r.stat;
  }

  lemma Add1Commutes(d: Task, a: Task, b: Task, prev: seq<Task>)
    ensures Add1(Add1(d, a, prev), b, prev) == Add1(Add1(d, b, prev), a, prev)
  {
    hide Matches, AddThread;
    AddThreadCommutes(d, a, b);
  }

  /** A thread can be added last, wherever it stands. */
  lemma {:induction false} AddLast(d: Task, u: seq<Task>, x: Task, v: seq<Task>, prev: seq<Task>)
    ensures AddMatched(d, u + [x] + v, prev) == Add1(AddMatched(d, u + v, prev), x, prev)
    decreases |v|
  {
    hide Matches, AddThread;
    var all := u + [x] + v;
    if v == [] {
      assert all[..|all| - 1] == u && u + v == u;
    } else {
      var y, v' := v[|v| - 1], v[..|v| - 1];
      assert all[..|all| - 1] == u + [x] + v' && (u + v)[..|u + v| - 1] == u + v';
      AddLast(d, u, x, v', prev);
      Add1Commutes(AddMatched(d, u + v', prev), x, y, prev);
    }
  }

  lemma {:induction false} AddMatchedPermuted(d: Task, a: seq<Task>, b: seq<Task>, prev: seq<Task>)
    requires multiset(a) == multiset(b)
    ensures AddMatched(d, a, prev) == AddMatched(d, b, prev)
    decreases |a|
  {
    hide AddMatched, Add1;
    if a == [] {
      Empty(a, b);
    } else {
      var a', x := Last(a);
      var u, v := Without(b, x);
      AddMatchedPermuted(d, a', u + v, prev);
      AddLast(d, a', x, [], prev);
      AddLast(d, u, x, v, prev);
      assert a' + [x] + [] == a && a' + [] == a';
    }
  }

  lemma {:induction false} AddMatchedPermutedPrev(d: Task, ts: seq<Task>, p: seq<Task>, q: seq<Task>)
    requires multiset(p) == multiset(q) && PidDetermines(p)
    ensures AddMatched(d, ts, p) == AddMatched(d, ts, q)
  {
    hide Matches, JoinThread, AddThread, PidDetermines;
    if ts == [] {
    } else {
      AddMatchedPermutedPrev(d, ts[..|ts| - 1], p, q);
      JoinThreadPermuted(ts[|ts| - 1], p, q);
    }
  }

  lemma JoinWithPermuted(a: Dom, b: Dom, p: Dom, q: Dom)
    requires SameDom(a, b) && SameDom(p, q) && PidDetermines(p.threads)
    ensures SameDom(JoinWith(a, p), JoinWith(b, q))
  {
    hide JoinThreads, AddMatched, PidDetermines, WithDeltas;
    var own := WithDeltas(a.task, p.task, UTIME, COUNTERS);
    JoinThreadsPermutedPrev(b.threads, p.threads, q.threads);
    JoinThreadsPermuted(a.threads, b.threads, p.threads);
    AddMatchedPermuted(own, JoinThreads(a.threads, p.threads), JoinThreads(b.threads, p.threads), p.threads);
    AddMatchedPermutedPrev(own, JoinThreads(b.threads, p.threads), p.threads, q.threads);
  }

  lemma JoinDomPermuted(a: Dom, b: Dom, olds: seq<Dom>, olds': seq<Dom>)
    requires SameDom(a, b) && Equivalent(olds, olds')
    requires forall d | d in olds :: PidDetermines(d.threads)
    ensures SameDom(JoinDom(a, olds), JoinDom(b, olds'))
  {
    hide JoinWith, PidDetermines;
    var i, j := FirstId(olds, a.task.domainId), FirstId(olds', a.task.domainId);
    if i < |olds| {
      JoinWithPermuted(a, b, olds[i], olds'[j]);
    }
  }

  /** Permuting domains and threads, new and old, changes no domain's total and no
      thread's record. */
  lemma JoinPermuted(ds: seq<Dom>, ds': seq<Dom>, olds: seq<Dom>, olds': seq<Dom>)
    requires Equivalent(ds, ds') && Equivalent(olds, olds')
    requires forall d | d in olds :: PidDetermines(d.threads)
    ensures Equivalent(JoinAll(ds, olds), JoinAll(ds', olds'))
  {
    hide JoinWith, PidDetermines, SameDom;
    forall id | FirstId(JoinAll(ds, olds), id) < |ds| || FirstId(JoinAll(ds', olds'), id) < |ds'|
      ensures FirstId(ds, id) < |ds| && FirstId(ds', id) < |ds'|
      ensures SameDom(JoinAll(ds, olds)[FirstId(ds, id)], JoinAll(ds', olds')[FirstId(ds', id)])
    {
      FindJoined(ds, olds, id);
      FindJoined(ds', olds', id);
      JoinDomPermuted(ds[FirstId(ds, id)], ds'[FirstId(ds', id)], olds, olds');
    }
    forall id
      ensures FirstId(JoinAll(ds, olds), id) == FirstId(ds, id)
      ensures FirstId(JoinAll(ds', olds'), id) == FirstId(ds', id)
    {
      FindJoined(ds, olds, id);
      FindJoined(ds', olds', id);
    }
  }

  lemma SamePidSameDelta(t: Task, u: Task, prev: seq<Task>)
    requires t.pid == u.pid && t.stat == u.stat && t.delta == u.delta && (t.typ == ISVCPU <==> u.typ == ISVCPU)
    ensures JoinThread(t, prev).delta == JoinThread(u, prev).delta
  {
  }

  /** Joining keeps pids decisive. */
  lemma JoinDetermines(d: Dom, olds: seq<Dom>)
    requires PidDetermines(d.threads)
    ensures PidDetermines(JoinDom(d, olds).threads)
  {
    var i := FirstId(olds, d.task.domainId);
    if i < |olds| {
      var ts, prev := d.threads, olds[i].threads;
      hide JoinThread;
      forall k, m | 0 <= k < |ts| && 0 <= m < |ts| && ts[k].pid == ts[m].pid
        ensures JoinThread(ts[k], prev).delta == JoinThread(ts[m], prev).delta
      {
        SamePidSameDelta(ts[k], ts[m], prev);
      }
      forall k | 0 <= k < |ts|
        ensures JoinThread(ts[k], prev) == ts[k].(delta := JoinThread(ts[k], prev).delta)
      {
        JoinThreadKeeps(ts[k], prev);
      }
    }
  }

  lemma {:induction false} RunDetermines(run: Run, k: nat)
    requires TableOk(run.table) && k <= |run.frames|
    requires forall j | 1 <= j <= k :: forall d | d in LoadedAt(run, j).doms :: PidDetermines(d.threads)
    ensures forall d | d in StateAt(run, k).now :: PidDetermines(d.threads)
  {
    hide PidDetermines, Load, JoinDom;
    if k == 0 {
    } else {
      var ds, olds := LoadedAt(run, k).doms, StateAt(run, k - 1).now;
      forall i | 0 <= i < |ds|
        ensures PidDetermines(JoinDom(ds[i], olds).threads)
      {
        JoinDetermines(ds[i], olds);
      }
    }
  }

  /** Two runs that load equivalent domains in every frame are in equivalent states
      after every frame. */
  lemma {:induction false} RunEquivalent(run: Run, run': Run, k: nat)
    requires TableOk(run.table) && TableOk(run'.table) && k <= |run.frames| && k <= |run'.frames|
    requires forall j | 1 <= j <= k :: Equivalent(LoadedAt(run, j).doms, LoadedAt(run', j).doms)
    requires forall j | 1 <= j <= k :: forall d | d in LoadedAt(run, j).doms :: PidDetermines(d.threads)
    ensures Equivalent(StateAt(run, k).now, StateAt(run', k).now)
  {
    hide PidDetermines, Load, JoinAll, Equivalent;
    if k == 0 {
      PermutedIsEquivalent([], []);
    } else {
      RunEquivalent(run, run', k - 1);
      RunDetermines(run, k - 1);
      JoinPermuted(LoadedAt(run, k).doms, LoadedAt(run', k).doms, StateAt(run, k - 1).now, StateAt(run', k - 1).now);
    }
  }
}
