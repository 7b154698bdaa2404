/** src/domain.c, the growable list of domains and its lookups. */
module DomainLists {
  import opened Types
  import opened CHeap

  /** What a list slot means: the record without its heap address, and its threads. */
  datatype Dom = Dom(task: Task, threads: seq<Task>)

  /** `n` complete records at `p`, each owning its own live block of nlwp threads. */
  ghost predicate ListOk(h: Blocks, p: Ptr, n: int) {
    && 0 <= n
    && (p == NULL ==> n == 0)
    && (p != NULL ==>
          && p in h && n <= |h[p]|
          && (forall i | 0 <= i < n ::
                var t := h[p][i].threads;
                t != NULL && t != p && t in h && |h[t]| == h[p][i].nlwp)
          && (forall i, j | 0 <= i < j < n :: h[p][i].threads != h[p][j].threads))
  }

  lemma ListShape(h: Blocks, p: Ptr, n: int)
    requires ListOk(h, p, n)
    ensures n >= 0 && (p == NULL ==> n == 0) && (p != NULL ==> p in h && n <= |h[p]|)
  {
  }

  /** The thread blocks of the first `n` records. */
  ghost function ThreadBlocks(h: Blocks, p: Ptr, n: int): set<Ptr>
    requires ListOk(h, p, n)
  {
    set i | 0 <= i < n :: h[p][i].threads
  }

  /** Every block reachable from a list. */
  ghost function Owned(h: Blocks, p: Ptr, n: int): set<Ptr>
    requires ListOk(h, p, n)
  {
    (if p == NULL then {} else {p}) + ThreadBlocks(h, p, n)
  }

  /** Two lists that share no block. */
  ghost predicate Apart(h: Blocks, p: Ptr, n: int, q: Ptr, m: int) {
    ListOk(h, p, n) && ListOk(h, q, m) && Owned(h, p, n) !! Owned(h, q, m)
  }

  ghost function View(h: Blocks, p: Ptr, n: int): (ds: seq<Dom>)
    requires ListOk(h, p, n)
    ensures |ds| == n
  {
    seq(n, i requires 0 <= i < n => Dom(h[p][i].(threads := NULL), h[h[p][i].threads]))
  }

  /** From `h` to `h'` no block came, went or changed hands, and the second list
      kept its contents. */
  ghost predicate InPlace(h: Blocks, h': Blocks, p: Ptr, n: int, q: Ptr, m: int) {
    && Apart(h, p, n, q, m) && Apart(h', p, n, q, m)
    && Owned(h', p, n) == Owned(h, p, n) && Owned(h', q, m) == Owned(h, q, m)
    && View(h', q, m) == View(h, q, m)
    && h'.Keys == h.Keys
  }

  lemma ApartLists(h: Blocks, p: Ptr, n: int, q: Ptr, m: int)
    requires Apart(h, p, n, q, m)
    ensures ListOk(h, p, n) && ListOk(h, q, m) && n >= 0 && m >= 0
  {
  }

  lemma InPlaceTwice(h: Blocks, h1: Blocks, h2: Blocks, p: Ptr, n: int, q: Ptr, m: int)
    requires InPlace(h, h1, p, n, q, m) && InPlace(h1, h2, p, n, q, m)
    ensures InPlace(h, h2, p, n, q, m)
  {
  }

  /** A list depends on its own records and their thread blocks only. */
  lemma Unaffected(h: Blocks, h': Blocks, p: Ptr, n: int)
    requires ListOk(h, p, n)
    requires p != NULL ==> p in h' && n <= |h'[p]| && forall i | 0 <= i < n :: h'[p][i] == h[p][i]
    requires forall q | q in ThreadBlocks(h, p, n) :: q in h' && h'[q] == h[q]
    ensures ListOk(h', p, n)
    ensures Owned(h', p, n) == Owned(h, p, n) && View(h', p, n) == View(h, p, n)
  {
    forall i | 0 <= i < n
      ensures h[p][i].threads in h' && h'[h[p][i].threads] == h[h[p][i].threads]
    {
      assert h[p][i].threads in ThreadBlocks(h, p, n);
    }
    assert ListOk(h', p, n);
    assert ThreadBlocks(h', p, n) == ThreadBlocks(h, p, n);
  }

  lemma OwnedAt(h: Blocks, p: Ptr, n: int, i: nat)
    requires ListOk(h, p, n) && i < n
    ensures p in Owned(h, p, n) && h[p][i].threads in Owned(h, p, n)
    ensures Owned(h, p, n) <= h.Keys
  {
    assert h[p][i].threads in ThreadBlocks(h, p, n);
  }

  /** Rewriting one record and its thread block, in place, replaces that domain. */
  lemma Replaced(h: Blocks, p: Ptr, n: nat, i: nat, d: Dom)
    requires ListOk(h, p, n) && i < n
    requires d.task.threads == NULL && |d.threads| == d.task.nlwp
    ensures var t := h[p][i].threads;
            var h' := Refill(h, t, d.threads, Loc(p, i), d.task.(threads := t));
            && ListOk(h', p, n)
            && View(h', p, n) == View(h, p, n)[i := d]
            && Owned(h', p, n) == Owned(h, p, n)
  {
    var t := h[p][i].threads;
    var h' := Refill(h, t, d.threads, Loc(p, i), d.task.(threads := t));
    assert h'[p] == h[p][i := d.task.(threads := t)];
    assert forall k | 0 <= k < n :: h'[p][k].threads == h[p][k].threads;
    assert ListOk(h', p, n);
    assert ThreadBlocks(h', p, n) == ThreadBlocks(h, p, n);
  }

  /** From `h` to `h'` a list's blocks went from `owned` to `owned'` and the blocks
      `lost` were allocated and are no longer reachable; nothing else happened. */
  ghost predicate Exchanged(h: Blocks, owned: set<Ptr>, h': Blocks, owned': set<Ptr>, lost: set<Ptr>) {
    && h'.Keys == h.Keys - owned + owned' + lost
    && owned' !! (h.Keys - owned)
    && lost !! (h.Keys - owned) + owned'
    && forall q | q in h && q !in owned :: h'[q] == h[q]
  }

  lemma ExchangedTwice(h: Blocks, o: set<Ptr>, h1: Blocks, o1: set<Ptr>, l1: set<Ptr>,
                       h2: Blocks, o2: set<Ptr>, l2: set<Ptr>)
    requires Exchanged(h, o, h1, o1, l1) && Exchanged(h1, o1, h2, o2, l2)
    ensures Exchanged(h, o, h2, o2, l1 + l2) && l1 !! l2
  {
    var kept, kept1 := h.Keys - o, h1.Keys - o1;
    assert kept1 == kept + l1;
    assert h2.Keys == kept + o2 + (l1 + l2);
    assert o2 !! kept && (l1 + l2) !! kept + o2;
    assert l1 !! l2;
    forall q | q in h && q !in o
      ensures h2[q] == h[q]
    {
      assert q in kept1;
    }
  }

  lemma CombineExchanges(h: Blocks, o: set<Ptr>, h1: Blocks, o1: set<Ptr>, l1: set<Ptr>,
                         h2: Blocks, o2: set<Ptr>, l2: set<Ptr>) returns (lost: set<Ptr>)
    requires Exchanged(h, o, h1, o1, l1) && Exchanged(h1, o1, h2, o2, l2)
    ensures Exchanged(h, o, h2, o2, lost) && |lost| == |l1| + |l2|
  {
    ExchangedTwice(h, o, h1, o1, l1, h2, o2, l2);
    lost := l1 + l2;
    hide Exchanged;
  }

  lemma ExchangedThenLost(h: Blocks, o: set<Ptr>, h1: Blocks, o1: set<Ptr>,
                          h2: Blocks, o2: set<Ptr>, lost: set<Ptr>)
    requires Exchanged(h, o, h1, o1, {}) && Exchanged(h1, o1, h2, o2, lost)
    ensures Exchanged(h, o, h2, o2, lost)
  {
    ExchangedTwice(h, o, h1, o1, {}, h2, o2, lost);
    assert {} + lost == lost;
  }

  lemma OwnedIsLive(h: Blocks, p: Ptr, n: int)
    requires ListOk(h, p, n)
    ensures Owned(h, p, n) <= h.Keys
  {
  }

  lemma NothingExchanged(h: Blocks, p: Ptr, n: int)
    requires ListOk(h, p, n)
    ensures Exchanged(h, Owned(h, p, n), h, Owned(h, p, n), {})
  {
    OwnedIsLive(h, p, n);
  }

  /** Writing to the record behind the end, possibly with a thread block of its own
      that nothing else refers to, is not part of the list. */
  lemma Popped(h: Blocks, h': Blocks, p: Ptr, n: nat, x: Task, t: Ptr)
    requires ListOk(h, p, n) && p in h && |h[p]| == n + 1 && p != NULL
    requires h' == Put(h, Loc(p, n), x) || (t !in h && t in h' && h' == Refill(h, t, h'[t], Loc(p, n), x))
    ensures ListOk(h', p, n) && View(h', p, n) == View(h, p, n)
    ensures Exchanged(h, Owned(h, p, n), h', Owned(h', p, n), if h' == Put(h, Loc(p, n), x) then {} else {t})
  {
    OwnedIsLive(h, p, n);
    Unaffected(h, h', p, n);
  }

  /** In particular a list is unaffected by what happens to other blocks. */
  lemma Untouched(h: Blocks, h': Blocks, p: Ptr, n: int)
    requires ListOk(h, p, n)
    requires forall q | q in h && q in Owned(h, p, n) :: q in h' && h'[q] == h[q]
    ensures ListOk(h', p, n)
    ensures Owned(h', p, n) == Owned(h, p, n) && View(h', p, n) == View(h, p, n)
  {
    OwnedIsLive(h, p, n);
    Unaffected(h, h', p, n);
  }

  lemma EmptyList(h: Blocks)
    ensures ListOk(h, NULL, 0) && Owned(h, NULL, 0) == {} && View(h, NULL, 0) == []
  {
  }

  /** A complete record behind the end, with its fresh thread block, extends the list. */
  lemma Extended(h: Blocks, p: Ptr, n: nat, t: Ptr, d: Dom)
    requires ListOk(h, p, n) && p in h && |h[p]| == n + 1
    requires p != NULL && t != NULL && t !in h
    requires d.task.threads == NULL && |d.threads| == d.task.nlwp
    ensures var h' := Refill(h, t, d.threads, Loc(p, n), d.task.(threads := t));
            && ListOk(h', p, n + 1)
            && View(h', p, n + 1) == View(h, p, n) + [d]
            && Exchanged(h, Owned(h, p, n), h', Owned(h', p, n + 1), {})
  {
    OwnedIsLive(h, p, n);
    var h' := Refill(h, t, d.threads, Loc(p, n), d.task.(threads := t));
    Unaffected(h, h', p, n);
    assert h'[p] == h[p][n := d.task.(threads := t)] && h'[p][n].threads == t;
    assert forall i | 0 <= i < n :: h'[p][i].threads == h[p][i].threads;
    assert ThreadBlocks(h', p, n + 1) == ThreadBlocks(h, p, n) + {t};
    assert Owned(h', p, n + 1) == Owned(h, p, n) + {t};
  }

  /** Copying the records to a fresh block `p'` and dropping `p` keeps the list. */
  lemma Moved(h: Blocks, h': Blocks, p: Ptr, p': Ptr, n: int)
    requires ListOk(h, p, n) && NULL !in h && p' != NULL && p' !in h
    requires h'.Keys == h.Keys - {p} + {p'}
    requires n <= |h'[p']| && forall i | 0 <= i < n :: h'[p'][i] == h[p][i]
    requires forall q | q in h' && q != p' :: h'[q] == h[q]
    ensures ListOk(h', p', n) && View(h', p', n) == View(h, p, n)
    ensures Exchanged(h, Owned(h, p, n), h', Owned(h', p', n), {})
  {
    OwnedIsLive(h, p, n);
    assert ListOk(h', p', n);
    assert ThreadBlocks(h', p', n) == ThreadBlocks(h, p, n);
    assert p !in ThreadBlocks(h, p, n);
    assert Owned(h', p', n) == Owned(h, p, n) - {p} + {p'};
  }

  lemma {:induction false} ThreadBlocksCount(h: Blocks, p: Ptr, n: int)
    requires ListOk(h, p, n)
    ensures |ThreadBlocks(h, p, n)| == n
  {
    if n == 0 {
    } else {
      ThreadBlocksCount(h, p, n - 1);
      assert ThreadBlocks(h, p, n) == ThreadBlocks(h, p, n - 1) + {h[p][n - 1].threads};
    }
  }

  /** A list of n records owns one block for each record's threads and, once it
      has ever been grown, one for the records. */
  lemma OwnedCount(h: Blocks, p: Ptr, n: int)
    requires ListOk(h, p, n)
    ensures |Owned(h, p, n)| == (if p == NULL then 0 else 1) + n
  {
    if p != NULL {
      ThreadBlocksCount(h, p, n);
      assert p !in ThreadBlocks(h, p, n);
    }
  }

  /** Index of the first domain with this id, or the length if there is none. */
  function FirstId(doms: seq<Dom>, id: int): (i: nat)
    ensures i <= |doms|
    ensures forall k | 0 <= k < i :: doms[k].task.domainId != id
    ensures i < |doms| ==> doms[i].task.domainId == id
  {
    if doms == [] || doms[0].task.domainId == id then 0 else 1 + FirstId(doms[1..], id)
  }

  /** Index of the first thread with this pid, or the length if there is none. */
  function FirstPid(threads: seq<Task>, pid: int): (i: nat)
    ensures i <= |threads|
    ensures forall k | 0 <= k < i :: threads[k].pid != pid
    ensures i < |threads| ==> threads[i].pid == pid
  {
    if threads == [] || threads[0].pid == pid then 0 else 1 + FirstPid(threads[1..], pid)
  }

  /** clear_domains has freed the first i thread blocks. */
  ghost predicate FreedUpTo(h: Blocks, h': Blocks, p: Ptr, n: int, i: int) {
    && ListOk(h, p, n) && ListOk(h, p, i) && i <= n
    && h'.Keys == h.Keys - ThreadBlocks(h, p, i)
    && (forall q | q in h' && q != p :: h'[q] == h[q])
    && (p != NULL ==> p in h' && |h'[p]| == |h[p]|)
    && (forall k | i <= k < n :: h'[p][k] == h[p][k])
  }

  lemma FreedStart(h: Blocks, p: Ptr, n: int)
    requires ListOk(h, p, n)
    ensures n >= 0 && FreedUpTo(h, h, p, n, 0)
  {
  }

  lemma FreedNext(h: Blocks, h': Blocks, p: Ptr, n: int, i: int)
    requires FreedUpTo(h, h', p, n, i) && 0 <= i < n
    ensures p in h' && i < |h'[p]|
    ensures var t := h'[p][i];
            && t.threads in h' && t.threads != NULL && t.threads != p
            && FreedUpTo(h, Put(h' - {t.threads}, Loc(p, i), t.(threads := NULL)), p, n, i + 1)
  {
    var t := h[p][i].threads;
    assert ThreadBlocks(h, p, i + 1) == ThreadBlocks(h, p, i) + {t};
    assert t !in ThreadBlocks(h, p, i);
  }

  lemma FreedAll(h: Blocks, h': Blocks, p: Ptr, n: int)
    requires FreedUpTo(h, h', p, n, n) && NULL !in h
    ensures p != NULL ==> p in h'
    ensures (if p == NULL then h' else h' - {p}) == h - Owned(h, p, n)
  {
    var freed := if p == NULL then h' else h' - {p};
    assert freed.Keys == (h - Owned(h, p, n)).Keys;
  }

  class DomainList {
    var domains: Ptr
    var num: int
    var nodeNum: int
    const bandwidth: array<int>

    ghost predicate Valid(h: Blocks)
      reads this
    {
      bandwidth.Length == MAX_NODE_NUM && ListOk(h, domains, num)
    }

    ghost function Blocks(h: Blocks): set<Ptr>
      requires Valid(h)
      reads this
    {
      Owned(h, domains, num)
    }

    ghost function Doms(h: Blocks): seq<Dom>
      requires Valid(h)
      reads this
    {
      View(h, domains, num)
    }

    /** init_domains */
    method Init()
      requires bandwidth.Length == MAX_NODE_NUM
      modifies this`domains, this`num, bandwidth
      ensures domains == NULL && num == 0
      ensures forall k | 0 <= k < MAX_NODE_NUM :: bandwidth[k] == 0
    {
      domains := NULL;
      num := 0;
      for i := 0 to MAX_NODE_NUM
        invariant domains == NULL && num == 0
        invariant forall k | 0 <= k < i :: bandwidth[k] == 0
      {
        bandwidth[i] := 0;
      }
    }

    constructor ()
      ensures fresh(bandwidth) && bandwidth.Length == MAX_NODE_NUM
      ensures domains == NULL && num == 0
      ensures forall k | 0 <= k < MAX_NODE_NUM :: bandwidth[k] == 0
    {
      bandwidth := new int[MAX_NODE_NUM];
      nodeNum := 0;
      new;
      Init();
    }

    /** clear_domains: frees exactly the blocks the list owns. */
    method Clear(heap: Heap)
      requires heap.Valid() && Valid(heap.blocks)
      modifies heap, this`domains, this`num, bandwidth
      ensures heap.Valid()
      ensures heap.blocks == old(heap.blocks) - old(Blocks(heap.blocks))
      ensures domains == NULL && num == 0
      ensures forall k | 0 <= k < MAX_NODE_NUM :: bandwidth[k] == 0
    {
      hide ListOk, Owned, ThreadBlocks, FreedUpTo;
      ghost var h, p, n := heap.blocks, domains, num;
      FreedStart(h, p, n);
      for i := 0 to num
        invariant heap.Valid() && domains == p && num == n
        invariant FreedUpTo(h, heap.blocks, p, n, i)
      {
        FreedNext(h, heap.blocks, p, n, i);
        var slot := Loc(domains, i);
        var t := At(heap.blocks, slot);
        if t.threads != NULL {
          heap.Free(t.threads);
          heap.Write(slot, t.(threads := NULL));
        }
      }
      FreedAll(h, heap.blocks, p, n);
      if domains != NULL {
        heap.Free(domains);
      }
      Init();
    }

    /** add_domains: the list moves to a block one record longer, whose last
        record is cleared; a failed allocation changes nothing. */
    method Add(heap: Heap, ok: bool) returns (added: bool)
      requires heap.Valid() && Valid(heap.blocks)
      modifies heap, this`domains, this`num
      ensures heap.Valid()
      ensures added == ok
      ensures !ok ==> heap.blocks == old(heap.blocks) && domains == old(domains) && num == old(num)
      ensures ok ==> num == old(num) + 1 && domains != NULL && domains in heap.blocks
      ensures ok ==> |heap.blocks[domains]| == num && heap.blocks[domains][num - 1] == ZERO_TASK
      ensures ok ==> ListOk(heap.blocks, domains, num - 1)
      ensures ok ==> View(heap.blocks, domains, num - 1) == old(Doms(heap.blocks))
      ensures ok ==> Exchanged(old(heap.blocks), old(Blocks(heap.blocks)),
                               heap.blocks, Owned(heap.blocks, domains, num - 1), {})
    {
      hide ListOk, View, Owned, ThreadBlocks, Exchanged;
      ghost var h := heap.blocks;
      ListShape(h, domains, num);
      var newList := heap.Malloc(num + 1, ok);
      if newList == NULL {
        return false;
      }
      heap.Copy(newList, domains, num);
      heap.Free(domains);
      ghost var previous := domains;
      domains := newList;
      num := num + 1;
      heap.Write(Loc(domains, num - 1), ZERO_TASK);
      Moved(h, heap.blocks, previous, domains, num - 1);
      return true;
    }

    /** pop_domains: forgets the last record, whatever it points to. */
    method Pop()
      requires num > 0
      modifies this`num
      ensures num == old(num) - 1
    {
      num := num - 1;
    }

    /** get_domain_from_id */
    method Find(id: int, heap: Heap) returns (i: int)
      requires Valid(heap.blocks)
      ensures i == FirstId(Doms(heap.blocks), id)
    {
      ghost var doms := Doms(heap.blocks);
      i := 0;
      while i < num
        invariant 0 <= i <= num
        invariant forall k | 0 <= k < i :: doms[k].task.domainId != id
      {
        if domains != NULL && At(heap.blocks, Loc(domains, i)).domainId == id {
          assert doms[i].task.domainId == id;
          return;
        }
        i := i + 1;
      }
    }
  }

  /** get_thread_from_pid, over the thread block of the record at `dom`. */
  method FindThread(pid: int, dom: Loc, heap: Heap) returns (i: int)
    requires heap.Valid() && InBounds(heap.blocks, dom)
    requires var d := At(heap.blocks, dom); d.threads in heap.blocks && |heap.blocks[d.threads]| == d.nlwp
    ensures i == FirstPid(heap.blocks[At(heap.blocks, dom).threads], pid)
  {
    var d := At(heap.blocks, dom);
    i := 0;
    while i < d.nlwp
      invariant 0 <= i <= d.nlwp
      invariant forall k | 0 <= k < i :: heap.blocks[d.threads][k].pid != pid
    {
      if d.threads != NULL && At(heap.blocks, Loc(d.threads, i)).pid == pid {
        return;
      }
      i := i + 1;
    }
  }
}
