/** The double-buffered sampling engine: scr_cur, scr_pre, vcpu_list and the heap
    they live in. */
module Engine {
  import opened Types
  import opened CHeap
  import opened VcpuStat
  import opened DomainLists
  import opened Loader
  import opened Refresh

  /** The live blocks that neither list owns. */
  ghost function Lost(h: Blocks, p: Ptr, n: int, q: Ptr, m: int): set<Ptr>
    requires Apart(h, p, n, q, m)
  {
    h.Keys - Owned(h, p, n) - Owned(h, q, m)
  }

  /** Dropping the second list and making the first one second loses nothing. */
  lemma RotateLost(h: Blocks, h': Blocks, p: Ptr, n: int, q: Ptr, m: int)
    requires Apart(h, p, n, q, m) && h' == h - Owned(h, q, m)
    ensures Apart(h', NULL, 0, p, n) && View(h', p, n) == View(h, p, n)
    ensures Lost(h', NULL, 0, p, n) == Lost(h, p, n, q, m)
  {
    EmptyList(h');
    Untouched(h, h', p, n);
  }

  lemma LoadedSets(keys: set<Ptr>, keys': set<Ptr>, owned: set<Ptr>, other: set<Ptr>, newLost: set<Ptr>)
    requires other <= keys && keys' == keys + owned + newLost
    requires owned !! keys && newLost !! keys + owned
    ensures owned !! other && newLost !! keys - other
    ensures keys' - owned - other == keys - other + newLost
  {
  }

  lemma DisjointSize(a: set<Ptr>, b: set<Ptr>)
    requires a !! b
    ensures |a + b| == |a| + |b|
  {
  }

  /** Loading the first list from empty loses `newLost`, and leaves the second alone. */
  lemma LoadLost(h: Blocks, h': Blocks, p: Ptr, n: int, q: Ptr, m: int, newLost: set<Ptr>)
    requires Apart(h, NULL, 0, q, m)
    requires ListOk(h', p, n) && Exchanged(h, Owned(h, NULL, 0), h', Owned(h', p, n), newLost)
    ensures Apart(h', p, n, q, m) && View(h', q, m) == View(h, q, m)
    ensures var l, l' := Lost(h, NULL, 0, q, m), Lost(h', p, n, q, m);
            l <= l' && |l'| == |l| + |newLost|
  {
    hide ListOk, Owned, ThreadBlocks, View;
    EmptyList(h);
    ApartLists(h, NULL, 0, q, m);
    OwnedIsLive(h, q, m);
    assert h.Keys - {} == h.Keys;
    Untouched(h, h', q, m);
    LoadedSets(h.Keys, h'.Keys, Owned(h', p, n), Owned(h, q, m), newLost);
    DisjointSize(h.Keys - Owned(h, q, m), newLost);
  }

  /** When the join loop is done. */
  lemma JoinLost(h0: Blocks, h: Blocks, p: Ptr, n: int, q: Ptr, m: int)
    requires n >= 0 && JoinedTo(h0, h, p, n, q, m, n)
    ensures Apart(h0, p, n, q, m) && Apart(h, p, n, q, m)
    ensures View(h, p, n) == JoinAll(View(h0, p, n), View(h0, q, m)) && View(h, q, m) == View(h0, q, m)
    ensures Lost(h, p, n, q, m) == Lost(h0, p, n, q, m)
  {
  }

  /** The live blocks are those of the two lists and the lost ones. */
  lemma LiveCount(h: Blocks, p: Ptr, n: int, q: Ptr, m: int)
    requires Apart(h, p, n, q, m)
    ensures |h| == (if p == NULL then 0 else 1 + n) + (if q == NULL then 0 else 1 + m) + |Lost(h, p, n, q, m)|
  {
    OwnedIsLive(h, p, n);
    OwnedIsLive(h, q, m);
    OwnedCount(h, p, n);
    OwnedCount(h, q, m);
    var a, b, l := Owned(h, p, n), Owned(h, q, m), Lost(h, p, n, q, m);
    assert h.Keys == a + b + l && (a + b) !! l;
    assert |h| == |h.Keys|;
    hide *;
    DisjointSize(a, b);
    DisjointSize(a + b, l);
  }

  class Sampler {
    const heap: Heap
    const now: DomainList
    const pre: DomainList
    const vcpus: VcpuList
    const monitorId: int

    ghost predicate Valid()
      reads this, heap, now, pre, vcpus
    {
      && heap.Valid() && vcpus.Valid()
      && now != pre && now.bandwidth != pre.bandwidth
      && now.bandwidth.Length == pre.bandwidth.Length == MAX_NODE_NUM
      && Apart(heap.blocks, now.domains, now.num, pre.domains, pre.num)
    }

    ghost function Contents(): (s: State)
      requires Valid()
      reads this, heap, now, pre, vcpus, vcpus.domains
      ensures TableOk(s.table)
    {
      State(View(heap.blocks, now.domains, now.num), View(heap.blocks, pre.domains, pre.num), vcpus.Contents())
    }

    /** Thread blocks that were allocated in some frame and are no longer reachable. */
    ghost function Leaked(): set<Ptr>
      requires Valid()
      reads this, heap, now, pre, vcpus
    {
      Lost(heap.blocks, now.domains, now.num, pre.domains, pre.num)
    }

    /** init_parameter */
    constructor (monitorId: int)
      ensures Valid() && fresh(heap) && fresh(now) && fresh(pre) && fresh(vcpus)
      ensures fresh(now.bandwidth) && fresh(pre.bandwidth) && fresh(vcpus.domains)
      ensures this.monitorId == monitorId
      ensures Contents().now == [] && Contents().pre == [] && Leaked() == {}
    {
      this.monitorId := monitorId;
      heap := new Heap();
      now := new DomainList();
      pre := new DomainList();
      vcpus := new VcpuList();
    }

    /** The buffer swap at the start of refresh_domains: what was current is now
        the previous list, and nothing is freed but the list before it. */
    method Rotate()
      requires Valid()
      modifies heap, now, pre, now.bandwidth, pre.bandwidth
      ensures Valid()
      ensures Contents() == State([], old(Contents()).now, old(Contents()).table)
      ensures now.domains == NULL && now.num == 0 && Leaked() == old(Leaked())
      ensures forall k | 0 <= k < MAX_NODE_NUM :: now.bandwidth[k] == 0
      ensures now.nodeNum == old(now.nodeNum)
    {
      hide Apart, ListOk, View, Owned, ThreadBlocks, Lost;
      ghost var h0, p, n, q, m := heap.blocks, now.domains, now.num, pre.domains, pre.num;
      ApartLists(h0, p, n, q, m);
      pre.Clear(heap);
      RotateLost(h0, heap.blocks, p, n, q, m);
      EmptyList(heap.blocks);
      pre.num := now.num;
      pre.domains := now.domains;
      now.Init();
    }

    /** get_qemu_id on the emptied current list. */
    method LoadDomains(dir: Option<seq<PidFile>>) returns (ret: int)
      requires Valid() && now.domains == NULL && now.num == 0
      modifies heap, now`domains, now`num
      ensures Valid()
      ensures var l := ReadDir(dir, monitorId, vcpus.Contents());
        && Contents() == old(Contents()).(now := l.doms)
        && old(Leaked()) <= Leaked() && |Leaked()| == |old(Leaked())| + l.leaks
        && ret == if l.complete then now.num else -1
    {
      hide Apart, ListOk, View, Owned, ThreadBlocks, ReadDir, Exchanged, Lost;
      ghost var h, newLost := heap.blocks, {};
      EmptyList(h);
      ApartLists(h, now.domains, now.num, pre.domains, pre.num);
      ret, newLost := GetQemuId(now, heap, dir, monitorId, vcpus);
      LoadLost(h, heap.blocks, now.domains, now.num, pre.domains, pre.num, newLost);
    }

    /** refresh_domains: the new state is Step of the old one, and the only
        blocks lost are those of domains rejected after their threads were read. */
    method RefreshDomains(f: Inputs) returns (ret: int)
      requires Valid()
      modifies heap, now, pre, vcpus, now.bandwidth, pre.bandwidth, vcpus.domains
      ensures Valid()
      ensures Contents() == Step(f, monitorId, old(Contents()))
      ensures old(Leaked()) <= Leaked()
      ensures |Leaked()| == |old(Leaked())| + Load(f, monitorId, old(Contents()).table).leaks
      ensures ret == if Load(f, monitorId, old(Contents()).table).complete then now.num else -1
      ensures forall k | 0 <= k < MAX_NODE_NUM :: now.bandwidth[k] == 0
      ensures now.nodeNum == old(now.nodeNum)
    {
      hide Apart, ListOk, View, Owned, ThreadBlocks, ReadDir, ReadRows, JoinAll, JoinedTo, Lost;
      Rotate();
      ret := vcpus.GetVcpuList(f.vcpuText);
      if ret < 0 {
        return -1;
      }
      ret := LoadDomains(f.dir);
      ghost var h := heap.blocks;
      ApartLists(h, now.domains, now.num, pre.domains, pre.num);
      JoinDomains(now, pre, heap);
      JoinLost(h, heap.blocks, now.domains, now.num, pre.domains, pre.num);
    }
  }
}
