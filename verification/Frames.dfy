/** src/vmtop.c, main's loop body as far as data goes: one frame samples the domains
    and then, if resctrl is in use, their bandwidth. */
module Frames {
  import opened Types
  import opened CHeap
  import opened DomainLists
  import opened Refresh
  import opened Engine
  import opened Resctrl
  import opened Bandwidth
  import opened BandwidthLaws

  /** What print_domain_field shows in a node column. */
  function Displayed(vm: VmBandwidth, k: nat): int
    requires k < vm.ctl.Length
    reads vm, vm.ctl
  {
    if vm.updated then vm.ctl[k] else 0
  }

  /** The sum of the first n records' values in the column of node k. */
  function DisplayedSum(vms: seq<VmBandwidth>, n: nat, k: nat): int
    requires n <= |vms| && forall i | 0 <= i < |vms| :: k < vms[i].ctl.Length
    reads vms, set v | v in vms :: v.ctl
  {
    if n == 0 then 0 else DisplayedSum(vms, n - 1, k) + Displayed(vms[n - 1], k)
  }

  /** Records that nothing but add_domains has written to. */
  ghost predicate Cleared(vms: seq<VmBandwidth>)
    reads vms, set v | v in vms :: v.ctl
  {
    Holds(vms, Repeat(ZERO_BUF, |vms|), Repeat(false, |vms|))
  }

  /** One more record. */
  lemma OneMore(host: array<int>, vms: seq<VmBandwidth>, vm: VmBandwidth)
    requires Separate(host, vms) && Cleared(vms)
    requires vm.ctl.Length == MAX_NODE_NUM && vm.ctl != host && !vm.updated
    requires forall k | 0 <= k < MAX_NODE_NUM :: vm.ctl[k] == 0
    requires forall i | 0 <= i < |vms| :: vms[i] != vm && vms[i].ctl != vm.ctl
    ensures Separate(host, vms + [vm]) && Cleared(vms + [vm])
  {
    assert vm.ctl[..] == ZERO_BUF;
  }

  lemma NoRecords(host: array<int>)
    requires host.Length == MAX_NODE_NUM
    ensures Separate(host, []) && Cleared([])
  {
  }

  /** The bandwidth columns of a list's records, fresh from add_domains. */
  method NewRecords(list: DomainList, heap: Heap) returns (vms: seq<VmBandwidth>)
    requires list.Valid(heap.blocks)
    ensures |vms| == list.num && forall i | 0 <= i < |vms| :: fresh(vms[i]) && fresh(vms[i].ctl)
    ensures Separate(list.bandwidth, vms) && Cleared(vms)
    ensures forall i | 0 <= i < |vms| :: vms[i].domainId == list.Doms(heap.blocks)[i].task.domainId
  {
    hide Cleared, Separate;
    vms := [];
    NoRecords(list.bandwidth);
    for i := 0 to list.num
      invariant |vms| == i && forall k | 0 <= k < i :: fresh(vms[k]) && fresh(vms[k].ctl)
      invariant Separate(list.bandwidth, vms) && Cleared(vms)
      invariant forall k | 0 <= k < i :: vms[k].domainId == list.Doms(heap.blocks)[k].task.domainId
    {
      var vm := new VmBandwidth(At(heap.blocks, Loc(list.domains, i)).domainId);
      OneMore(list.bandwidth, vms, vm);
      vms := vms + [vm];
    }
  }

  /** The records' columns are those calculated from cleared ones. */
  ghost predicate ColumnsSampled(vms: seq<VmBandwidth>, e: Samples, n: nat)
    reads vms, set v | v in vms :: v.ctl
  {
    forall i | 0 <= i < |vms| ::
      && vms[i].ctl.Length == MAX_NODE_NUM
      && vms[i].updated == (VmTimes(e, SAMPLE_TIMES_OUTER, i, n) > 0)
      && forall k | 0 <= k < n && k < MAX_NODE_NUM ::
           vms[i].ctl[k] == Averaged(VmSum(e, SAMPLE_TIMES_OUTER, i, n, k), VmTimes(e, SAMPLE_TIMES_OUTER, i, n))
  }

  /** The buffers of vmCount VMs after a call that starts from cleared ones. */
  ghost function FinalBufs(e: Samples, vmCount: nat, n: nat): (bufs: seq<seq<int>>)
    requires n <= MAX_NODE_NUM
    ensures |bufs| == vmCount && Sized(bufs)
  {
    BufsBelow(VmBufs(e, Repeat(ZERO_BUF, vmCount), SAMPLE_TIMES_OUTER, n),
              AllTimes(e, vmCount, SAMPLE_TIMES_OUTER, n), n)
  }

  ghost function FinalUpdated(e: Samples, vmCount: nat, n: nat): (updated: seq<bool>)
    ensures |updated| == vmCount
  {
    UpdatedAfter(Repeat(false, vmCount), AllTimes(e, vmCount, SAMPLE_TIMES_OUTER, n), n)
  }

  lemma FinalColumn(e: Samples, vmCount: nat, i: nat, n: nat, k: nat)
    requires i < vmCount && k < n <= MAX_NODE_NUM
    ensures FinalBufs(e, vmCount, n)[i][k]
            == Averaged(VmSum(e, SAMPLE_TIMES_OUTER, i, n, k), VmTimes(e, SAMPLE_TIMES_OUTER, i, n))
    ensures FinalUpdated(e, vmCount, n)[i] == (VmTimes(e, SAMPLE_TIMES_OUTER, i, n) > 0)
  {
    hide BufsBelow, VmBufs, Averaged, VmSum, VmTimes;
    VmColumn(e, vmCount, i, n, k);
  }

  lemma SampledRecords(vms: seq<VmBandwidth>, e: Samples, n: nat)
    requires 0 < n <= MAX_NODE_NUM && Holds(vms, FinalBufs(e, |vms|, n), FinalUpdated(e, |vms|, n))
    ensures ColumnsSampled(vms, e, n)
  {
    hide FinalBufs, FinalUpdated, Averaged, VmSum, VmTimes;
    forall i | 0 <= i < |vms|
      ensures vms[i].ctl.Length == MAX_NODE_NUM
      ensures vms[i].updated == (VmTimes(e, SAMPLE_TIMES_OUTER, i, n) > 0)
    {
      assert vms[i].ctl[..] == FinalBufs(e, |vms|, n)[i];
      FinalColumn(e, |vms|, i, n, 0);
    }
    forall i, k | 0 <= i < |vms| && 0 <= k < n
      ensures vms[i].ctl[k] == Averaged(VmSum(e, SAMPLE_TIMES_OUTER, i, n, k), VmTimes(e, SAMPLE_TIMES_OUTER, i, n))
    {
      assert vms[i].ctl[k] == vms[i].ctl[..][k];
      FinalColumn(e, |vms|, i, n, k);
    }
  }

  lemma SampledValue(vms: seq<VmBandwidth>, e: Samples, n: nat, k: nat, i: nat)
    requires k < n <= MAX_NODE_NUM && i < |vms| && ColumnsSampled(vms, e, n)
    ensures Sized(Repeat(ZERO_BUF, |vms|)) && vms[i].ctl.Length == MAX_NODE_NUM
    ensures var bufs, r := Repeat(ZERO_BUF, |vms|), SAMPLE_TIMES_OUTER;
            var acc, times := Column(VmBufs(e, bufs, r, n), k)[i], AllTimes(e, |vms|, r, n)[i];
            Displayed(vms[i], k) == if times > 0 then Averaged(acc, times) else 0
  {
    hide VmBuf, VmSum, VmTimes, Averaged;
    VmBufAt(e, ZERO_BUF, SAMPLE_TIMES_OUTER, i, n, k);
  }

  lemma SampledLengths(vms: seq<VmBandwidth>, e: Samples, n: nat)
    requires ColumnsSampled(vms, e, n)
    ensures forall i | 0 <= i < |vms| :: vms[i].ctl.Length == MAX_NODE_NUM
  {
  }

  /** The VMs' share of the host's value is what their columns show. */
  lemma {:induction false} ShareIsDisplayed(vms: seq<VmBandwidth>, e: Samples, n: nat, k: nat, m: nat)
    requires k < n <= MAX_NODE_NUM && m <= |vms| && ColumnsSampled(vms, e, n)
    ensures Sized(Repeat(ZERO_BUF, |vms|)) && forall i | 0 <= i < |vms| :: vms[i].ctl.Length == MAX_NODE_NUM
    ensures var bufs, r := Repeat(ZERO_BUF, |vms|), SAMPLE_TIMES_OUTER;
            VmTotal(Column(VmBufs(e, bufs, r, n), k), AllTimes(e, |vms|, r, n), m) == DisplayedSum(vms, m, k)
  {
    hide ColumnsSampled, VmBufs, AllTimes, Column, Averaged, Displayed;
    SampledLengths(vms, e, n);
    if m == 0 {
    } else {
      ShareIsDisplayed(vms, e, n, k, m - 1);
      SampledValue(vms, e, n, k, m - 1);
    }
  }

  /** No reading of node k is below -1, which stands for a failure. */
  predicate NoNegativeReading(e: Samples, vmCount: nat, k: nat) {
    && (forall r | 0 <= r < SAMPLE_TIMES_OUTER :: NonNegative(e.host(r), SAMPLE_TIMES_INNER, k))
    && (forall r, i | 0 <= r < SAMPLE_TIMES_OUTER && 0 <= i < vmCount && e.vm(r, i).Some? ::
          NonNegative(e.vm(r, i).value, SAMPLE_TIMES_INNER, k))
  }

  /** The host's value of a node is what its own rounds added, divided by its successes
      if there are any, plus what the VMs' columns show, provided no reading was
      negative. */
  lemma HostShowsAll(host: seq<int>, vms: seq<VmBandwidth>, e: Samples, n: nat, k: nat)
    requires k < n <= MAX_NODE_NUM && ColumnsSampled(vms, e, n) && NoNegativeReading(e, |vms|, k)
    requires var bufs, r := Repeat(ZERO_BUF, |vms|), SAMPLE_TIMES_OUTER;
      && Sized(bufs)
      && host == HostBelow(HostBuf(e, ZERO_BUF, r, n), HostTimes(e, r, n),
                           VmBufs(e, bufs, r, n), AllTimes(e, |vms|, r, n), n)
    ensures host[k] == Averaged(HostSum(e, SAMPLE_TIMES_OUTER, n, k), HostTimes(e, SAMPLE_TIMES_OUTER, n))
                     + DisplayedSum(vms, |vms|, k)
  {
    hide HostBelow, HostBuf, VmBufs, HostSum, HostTimes, Averaged, VmTotal, NonNegative,
      ColumnsSampled, DisplayedSum, AllTimes;
    HostColumn(e, |vms|, n, k);
    ShareIsDisplayed(vms, e, n, k, |vms|);
  }

  lemma NothingDisplayed(vms: seq<VmBandwidth>)
    requires Cleared(vms)
    ensures forall i | 0 <= i < |vms| :: vms[i].ctl.Length == MAX_NODE_NUM
    ensures forall k, i | 0 <= k < MAX_NODE_NUM && 0 <= i < |vms| :: Displayed(vms[i], k) == 0
  {
    forall i | 0 <= i < |vms|
      ensures vms[i].ctl.Length == MAX_NODE_NUM
    {
      assert vms[i].ctl[..] == ZERO_BUF;
    }
  }

  /** refresh_domains_bandwidth, called as in every frame on cleared columns. */
  method SampleBandwidth(now: DomainList, numaDir: Option<seq<string>>, vms: seq<VmBandwidth>, e: Samples)
    requires Separate(now.bandwidth, vms) && Named(vms, e)
    requires numaDir.Some? && NodeCount(numaDir.value) > 0 ==> |vms| <= MAX_VM_TASKS_NUM
    requires now.bandwidth[..] == ZERO_BUF && Cleared(vms)
    modifies now`nodeNum, now.bandwidth, vms, set v | v in vms :: v.ctl
    ensures now.nodeNum == if numaDir.None? then old(now.nodeNum) else NodeCount(numaDir.value)
    ensures forall i | 0 <= i < |vms| :: vms[i].ctl.Length == MAX_NODE_NUM
    ensures numaDir.Some? && NodeCount(numaDir.value) > 0 ==>
      && ColumnsSampled(vms, e, now.nodeNum)
      && forall k | 0 <= k < now.nodeNum && NoNegativeReading(e, |vms|, k) ::
           now.bandwidth[k]
           == Averaged(HostSum(e, SAMPLE_TIMES_OUTER, now.nodeNum, k), HostTimes(e, SAMPLE_TIMES_OUTER, now.nodeNum))
            + DisplayedSum(vms, |vms|, k)
    ensures numaDir.None? || NodeCount(numaDir.value) == 0 ==>
      && now.bandwidth[..] == ZERO_BUF
      && forall k, i | 0 <= k < MAX_NODE_NUM && 0 <= i < |vms| :: Displayed(vms[i], k) == 0
  {
    hide ColumnsSampled, DisplayedSum, NoNegativeReading, NodeCount, HostBelow, HostBuf, Holds, Separate, Displayed,
      BufsBelow, UpdatedAfter, VmBufs, AllTimes, HostSum, HostTimes, Averaged;
    RefreshDomainsBandwidth(now, vms, numaDir, e, Repeat(ZERO_BUF, |vms|), Repeat(false, |vms|));
    if numaDir.Some? && NodeCount(numaDir.value) > 0 {
      SampledRecords(vms, e, now.nodeNum);
      SampledLengths(vms, e, now.nodeNum);
      forall k | 0 <= k < now.nodeNum && NoNegativeReading(e, |vms|, k)
        ensures now.bandwidth[k]
          == Averaged(HostSum(e, SAMPLE_TIMES_OUTER, now.nodeNum, k), HostTimes(e, SAMPLE_TIMES_OUTER, now.nodeNum))
           + DisplayedSum(vms, |vms|, k)
      {
        HostShowsAll(now.bandwidth[..], vms, e, now.nodeNum, k);
      }
    } else {
      NothingDisplayed(vms);
    }
  }

  /** refresh_domains, and the bandwidth columns of the records it added. */
  method LoadFrame(s: Sampler, f: Inputs) returns (vms: seq<VmBandwidth>)
    requires s.Valid()
    modifies s.heap, s.now, s.pre, s.vcpus, s.now.bandwidth, s.pre.bandwidth, s.vcpus.domains
    ensures s.Valid() && s.Contents() == Step(f, s.monitorId, old(s.Contents()))
    ensures s.now != s.pre && s.now.nodeNum == old(s.now.nodeNum) && s.now.bandwidth[..] == ZERO_BUF
    ensures |vms| == |Load(f, s.monitorId, old(s.Contents()).table).doms| == |s.Contents().now|
    ensures forall i | 0 <= i < |vms| :: fresh(vms[i]) && fresh(vms[i].ctl)
    ensures forall i | 0 <= i < |vms| :: vms[i].domainId == s.Contents().now[i].task.domainId
    ensures Separate(s.now.bandwidth, vms) && Cleared(vms)
  {
    hide Load, JoinAll, Apart, View, ListOk, Cleared, Separate;
    var ret := s.RefreshDomains(f);
    ApartLists(s.heap.blocks, s.now.domains, s.now.num, s.pre.domains, s.pre.num);
    assert s.now.bandwidth[..] == ZERO_BUF;
    vms := NewRecords(s.now, s.heap);
  }

  /** The ids of a list's domains. */
  function Ids(ds: seq<Dom>): (ids: seq<int>)
    ensures |ids| == |ds| && forall i | 0 <= i < |ds| :: ids[i] == ds[i].task.domainId
  {
    seq(|ds|, i requires 0 <= i < |ds| => ds[i].task.domainId)
  }

  lemma NamedAfter(vms: seq<VmBandwidth>, e: Samples)
    requires |e.ids| == |vms| && forall i | 0 <= i < |vms| :: vms[i].domainId == e.ids[i]
    ensures Named(vms, e)
  {
  }

  /** The state depends on the lists' records, not on their bandwidth columns. */
  twostate lemma SamplerKept(s: Sampler)
    requires old(s.Valid()) && unchanged(s.heap, s.pre, s.vcpus, s.vcpus.domains)
    requires s.now.domains == old(s.now.domains) && s.now.num == old(s.now.num)
    ensures s.Valid() && s.Contents() == old(s.Contents())
  {
  }

  /** One frame; `read` is what the bandwidth call reads. The lists make the step of
      refresh_domains; then, if the node count is known and not 0, every VM's columns
      are the averages of this frame's samples of the group found for its id, and the
      host's value of a node is what its own rounds added, divided by its successes if
      there are any, plus everything the VMs' columns show; otherwise nothing is shown. */
  method SampleFrame(s: Sampler, f: Inputs, resctrlEnable: bool, numaDir: Option<seq<string>>, read: Samples)
    returns (vms: seq<VmBandwidth>)
    requires s.Valid()
    requires resctrlEnable && numaDir.Some? && NodeCount(numaDir.value) > 0 ==>
      |Load(f, s.monitorId, s.Contents().table).doms| <= MAX_VM_TASKS_NUM
    modifies s.heap, s.now, s.pre, s.vcpus, s.now.bandwidth, s.pre.bandwidth, s.vcpus.domains
    ensures s.Valid() && s.Contents() == Step(f, s.monitorId, old(s.Contents()))
    ensures s.now.nodeNum == if resctrlEnable && numaDir.Some? then NodeCount(numaDir.value) else old(s.now.nodeNum)
    ensures |vms| == |s.Contents().now| && forall i | 0 <= i < |vms| :: vms[i].ctl.Length == MAX_NODE_NUM
    ensures resctrlEnable && numaDir.Some? && NodeCount(numaDir.value) > 0 ==>
      var e, n := read.(ids := Ids(s.Contents().now)), NodeCount(numaDir.value);
      && ColumnsSampled(vms, e, n)
      && forall k | 0 <= k < n && NoNegativeReading(e, |vms|, k) ::
           s.now.bandwidth[k]
           == Averaged(HostSum(e, SAMPLE_TIMES_OUTER, n, k), HostTimes(e, SAMPLE_TIMES_OUTER, n))
            + DisplayedSum(vms, |vms|, k)
    ensures !resctrlEnable || numaDir.None? || NodeCount(numaDir.value) == 0 ==>
      forall k | 0 <= k < MAX_NODE_NUM :: s.now.bandwidth[k] == 0 &&
        forall i | 0 <= i < |vms| :: Displayed(vms[i], k) == 0
  {
    hide Sampler.Valid, Sampler.Contents, Step, Load, ColumnsSampled, DisplayedSum, NoNegativeReading, NodeCount,
      HostSum,
      HostTimes, Averaged, Displayed, Cleared, Separate, Named;
    vms := LoadFrame(s, f);
    if resctrlEnable {
      var e := read.(ids := seq(|vms|, i requires 0 <= i < |vms| => vms[i].domainId));
      assert e.ids == Ids(s.Contents().now);
      NamedAfter(vms, e);
      label Loaded:
      SampleBandwidth(s.now, numaDir, vms, e);
      SamplerKept@Loaded(s);
    } else {
      NothingDisplayed(vms);
    }
  }
}
