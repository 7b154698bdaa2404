/** src/domain.c, refresh_domains_bandwidth: per-node bandwidth of the host and of
    every virtual machine, averaged over several rounds of sampling. */
module Bandwidth {
  import opened Words
  import opened Types
  import opened DomainLists
  import opened Resctrl

  const MAX_VM_TASKS_NUM := 1024

  /** The bandwidth columns of a domain's record, with its id, which no other part of the program
      writes: add_domains clears them with the record. */
  class VmBandwidth {
    const domainId: int
    const ctl: array<int>
    var updated: bool

    constructor (domainId: int)
      ensures fresh(ctl) && ctl.Length == MAX_NODE_NUM && !updated && this.domainId == domainId
      ensures forall k | 0 <= k < MAX_NODE_NUM :: ctl[k] == 0
    {
      this.domainId := domainId;
      ctl := new int[MAX_NODE_NUM](_ => 0);
      updated := false;
    }
  }

  /** What a call reads: the listed VMs' ids; in each round, for each VM, the resctrl
      directory if it can be opened, and the files of every group in it; and in each
      round the files of the root group. */
  datatype Samples = Samples(
    ids: seq<int>,
    groups: (nat, nat) -> Option<seq<string>>,
    files: (nat, nat) -> string -> MonFiles,
    host: nat -> MonFiles)
  {
    /** The files read for VM i in round r. */
    function vm(r: nat, i: nat): Option<MonFiles> {
      GroupFiles(groups(r, i), if i < |ids| then ids[i] else -1, files(r, i))
    }
  }

  /** The records are those of the VMs sampled. */
  ghost predicate Named(vms: seq<VmBandwidth>, e: Samples) {
    |e.ids| == |vms| && forall i | 0 <= i < |vms| :: vms[i].domainId == e.ids[i]
  }

  // ----- What the sampling loops accumulate -----

  predicate VmSucceeds(e: Samples, r: nat, i: nat, nodeNum: nat) {
    e.vm(r, i).Some? && Succeeds(e.vm(r, i).value, nodeNum, SAMPLE_TIMES_INNER)
  }

  function VmAdded(e: Samples, r: nat, i: nat, nodeNum: nat, k: nat): int {
    if e.vm(r, i).None? then 0 else Added(e.vm(r, i).value, nodeNum, SAMPLE_TIMES_INNER, k)
  }

  function VmSum(e: Samples, rounds: nat, i: nat, nodeNum: nat, k: nat): int {
    if rounds == 0 then 0 else VmSum(e, rounds - 1, i, nodeNum, k) + VmAdded(e, rounds - 1, i, nodeNum, k)
  }

  function VmTimes(e: Samples, rounds: nat, i: nat, nodeNum: nat): nat {
    if rounds == 0 then 0
    else VmTimes(e, rounds - 1, i, nodeNum) + if VmSucceeds(e, rounds - 1, i, nodeNum) then 1 else 0
  }

  function HostSum(e: Samples, rounds: nat, nodeNum: nat, k: nat): int {
    if rounds == 0 then 0
    else HostSum(e, rounds - 1, nodeNum, k) + Added(e.host(rounds - 1), nodeNum, SAMPLE_TIMES_INNER, k)
  }

  function HostTimes(e: Samples, rounds: nat, nodeNum: nat): nat {
    if rounds == 0 then 0
    else HostTimes(e, rounds - 1, nodeNum) + if Succeeds(e.host(rounds - 1), nodeNum, SAMPLE_TIMES_INNER) then 1 else 0
  }

  // ----- What calculate_all_bandwidth makes of it -----

  /** The average of what was accumulated; without a success it stays as it is. */
  function Averaged(acc: int, times: int): int {
    if times > 0 then TruncDiv(acc, times) else acc
  }

  /** Sum of the averages of the first n VMs, of those sampled at least once. */
  function VmTotal(accs: seq<int>, times: seq<int>, n: nat): int
    requires n <= |accs| && n <= |times|
  {
    if n == 0 then 0
    else VmTotal(accs, times, n - 1) + if times[n - 1] > 0 then Averaged(accs[n - 1], times[n - 1]) else 0
  }

  /** The host value: its own average plus the VMs', but not less than the VMs' as
      the unsigned 32-bit variable node_vms holds them. */
  function HostValue(base: int, vmTotal: int): int {
    var sum, nodeVms := base + vmTotal, vmTotal % TWO32;
    if sum < nodeVms then nodeVms else sum
  }

  /** The VMs' buffers and the host's are separate objects. */
  ghost predicate Separate(bandwidth: array<int>, vms: seq<VmBandwidth>) {
    && bandwidth.Length == MAX_NODE_NUM
    && (forall i | 0 <= i < |vms| :: vms[i].ctl.Length == MAX_NODE_NUM && vms[i].ctl != bandwidth)
    && (forall i, j | 0 <= i < j < |vms| :: vms[i] != vms[j] && vms[i].ctl != vms[j].ctl)
  }

  /** The values of node k in a list of buffers. */
  function Column(bufs: seq<seq<int>>, k: nat): (s: seq<int>)
    requires forall b | b in bufs :: k < |b|
    ensures |s| == |bufs| && forall i | 0 <= i < |bufs| :: s[i] == bufs[i][k]
  {
    if bufs == [] then [] else Column(bufs[..|bufs| - 1], k) + [bufs[|bufs| - 1][k]]
  }

  /** The contents of the VMs' buffers. */
  ghost function Buffers(vms: seq<VmBandwidth>): (s: seq<seq<int>>)
    reads set v | v in vms :: v.ctl
    ensures |s| == |vms| && forall i | 0 <= i < |vms| :: s[i] == vms[i].ctl[..]
  {
    if vms == [] then [] else Buffers(vms[..|vms| - 1]) + [vms[|vms| - 1].ctl[..]]
  }

  /** Node `node` of a VM's buffer averaged. */
  function AveragedAt(buf: seq<int>, node: nat, times: int): seq<int>
    requires node < |buf|
  {
    buf[node := Averaged(buf[node], times)]
  }

  lemma Unsampled(buf: seq<int>, node: nat, times: int)
    requires node < |buf|
    ensures times <= 0 ==> AveragedAt(buf, node, times) == buf
  {
  }

  lemma AveragedNode(buf: seq<int>, node: nat, times: int)
    requires node < |buf|
    ensures |AveragedAt(buf, node, times)| == |buf| && AveragedAt(buf, node, times)[node] == Averaged(buf[node], times)
  {
  }

  /** The first n VMs are done with this node, the others as they were. */
  ghost predicate NodeDone(vms: seq<VmBandwidth>, bufs: seq<seq<int>>, updated: seq<bool>,
                           times: seq<int>, node: nat, n: nat)
    requires |bufs| == |updated| == |times| == |vms| && forall b | b in bufs :: node < |b|
    reads vms, set v | v in vms :: v.ctl
  {
    forall j | 0 <= j < |vms| ::
      && vms[j].ctl[..] == (if j < n then AveragedAt(bufs[j], node, times[j]) else bufs[j])
      && vms[j].updated == (updated[j] || (j < n && times[j] > 0))
  }

  /** calculate_all_bandwidth's body for a VM that was sampled. */
  method AverageVm(bandwidth: array<int>, vm: VmBandwidth, times: int, node: nat)
    requires bandwidth.Length == vm.ctl.Length == MAX_NODE_NUM && bandwidth != vm.ctl
    requires times > 0 && node < MAX_NODE_NUM
    modifies bandwidth, vm, vm.ctl
    ensures vm.updated
    ensures vm.ctl[..] == AveragedAt(old(vm.ctl[..]), node, times)
    ensures bandwidth[..] == old(bandwidth[..])[node := old(bandwidth[node]) + Averaged(old(vm.ctl[node]), times)]
  {
    hide TruncDiv;
    vm.ctl[node] := TruncDiv(vm.ctl[node], times);
    vm.updated := true;
    bandwidth[node] := bandwidth[node] + vm.ctl[node];
  }

  /** calculate_all_bandwidth's body for VM i and one node. */
  method CalculateVm(bandwidth: array<int>, vms: seq<VmBandwidth>, times: seq<int>, node: nat, i: nat,
                     ghost bufs: seq<seq<int>>, ghost updated: seq<bool>) returns (added: int)
    requires Separate(bandwidth, vms) && node < MAX_NODE_NUM && i < |vms|
    requires |bufs| == |updated| == |times| == |vms| && forall b | b in bufs :: node < |b|
    requires NodeDone(vms, bufs, updated, times, node, i)
    modifies bandwidth, vms, set v | v in vms :: v.ctl
    ensures NodeDone(vms, bufs, updated, times, node, i + 1)
    ensures added == if times[i] > 0 then Averaged(bufs[i][node], times[i]) else 0
    ensures bandwidth[..] == old(bandwidth[..])[node := old(bandwidth[node]) + added]
  {
    hide TruncDiv, AveragedAt;
    added := 0;
    Unsampled(bufs[i], node, times[i]);
    if times[i] > 0 {
      assert vms[i].ctl[..] == bufs[i];
      AverageVm(bandwidth, vms[i], times[i], node);
      added := vms[i].ctl[node];
      AveragedNode(bufs[i], node, times[i]);
    }
  }

  lemma AddUnsigned(u: int, total: int, x: int)
    requires u == total % TWO32
    ensures (u + x) % TWO32 == (total + x) % TWO32
  {
  }

  /** calculate_all_bandwidth's loop over the VMs, for one node. */
  method CalculateNode(bandwidth: array<int>, vms: seq<VmBandwidth>, times: seq<int>, node: nat,
                       ghost bufs: seq<seq<int>>, ghost updated: seq<bool>)
    requires Separate(bandwidth, vms) && node < MAX_NODE_NUM
    requires |bufs| == |updated| == |times| == |vms| && forall b | b in bufs :: node < |b|
    requires NodeDone(vms, bufs, updated, times, node, 0)
    modifies bandwidth, vms, set v | v in vms :: v.ctl
    ensures NodeDone(vms, bufs, updated, times, node, |vms|)
    ensures bandwidth[..]
      == old(bandwidth[..])[node := HostValue(old(bandwidth[node]), VmTotal(Column(bufs, node), times, |vms|))]
  {
    hide TruncDiv, NodeDone, Averaged;
    ghost var accs, base := Column(bufs, node), bandwidth[..];
    var nodeVms := 0;
    for i := 0 to |vms|
      invariant 0 <= nodeVms < TWO32 && nodeVms == VmTotal(accs, times, i) % TWO32
      invariant bandwidth[..] == base[node := base[node] + VmTotal(accs, times, i)]
      invariant NodeDone(vms, bufs, updated, times, node, i)
    {
      var added := CalculateVm(bandwidth, vms, times, node, i, bufs, updated);
      AddUnsigned(nodeVms, VmTotal(accs, times, i), added);
      nodeVms := (nodeVms + added) % TWO32;
    }
    if bandwidth[node] < nodeVms {
      bandwidth[node] := nodeVms;
    }
  }

  /** The VMs' buffers and flags have these contents. */
  ghost predicate Holds(vms: seq<VmBandwidth>, bufs: seq<seq<int>>, updated: seq<bool>)
    reads vms, set v | v in vms :: v.ctl
  {
    && |bufs| == |updated| == |vms|
    && forall j | 0 <= j < |vms| :: vms[j].ctl[..] == bufs[j] && vms[j].updated == updated[j]
  }

  predicate Sized(bufs: seq<seq<int>>) {
    forall b | b in bufs :: |b| == MAX_NODE_NUM
  }

  function AveragedBelow(buf: seq<int>, times: int, n: nat): (r: seq<int>)
    requires |buf| == MAX_NODE_NUM && n <= MAX_NODE_NUM
    ensures |r| == MAX_NODE_NUM
  {
    if n == 0 then buf else AveragedAt(AveragedBelow(buf, times, n - 1), n - 1, times)
  }

  /** All buffers with the nodes below n averaged. */
  ghost function BufsBelow(bufs: seq<seq<int>>, times: seq<int>, n: nat): (r: seq<seq<int>>)
    requires Sized(bufs) && |times| == |bufs| && n <= MAX_NODE_NUM
    ensures |r| == |bufs| && Sized(r)
  {
    seq(|bufs|, j requires 0 <= j < |bufs| => AveragedBelow(bufs[j], times[j], n))
  }

  ghost function UpdatedAfter(updated: seq<bool>, times: seq<int>, n: nat): (r: seq<bool>)
    requires |times| == |updated|
    ensures |r| == |updated|
  {
    seq(|updated|, j requires 0 <= j < |updated| => updated[j] || (n > 0 && times[j] > 0))
  }

  /** The host's buffer with the nodes below n calculated. */
  function HostBelow(host: seq<int>, hostTimes: nat, bufs: seq<seq<int>>, times: seq<int>, n: nat): (r: seq<int>)
    requires |host| == MAX_NODE_NUM && Sized(bufs) && |times| == |bufs| && n <= MAX_NODE_NUM
    ensures |r| == MAX_NODE_NUM
  {
    if n == 0 then host
    else HostBelow(host, hostTimes, bufs, times, n - 1)
           [n - 1 := HostValue(Averaged(host[n - 1], hostTimes), VmTotal(Column(bufs, n - 1), times, |bufs|))]
  }

  lemma {:induction false} AveragedBelowAt(buf: seq<int>, times: int, n: nat, k: nat)
    requires |buf| == MAX_NODE_NUM && n <= MAX_NODE_NUM && k < MAX_NODE_NUM
    ensures AveragedBelow(buf, times, n)[k] == if k < n then Averaged(buf[k], times) else buf[k]
  {
    hide Averaged;
    if n == 0 {
    } else {
      AveragedBelowAt(buf, times, n - 1, k);
    }
  }

  lemma {:induction false} HostBelowAt(host: seq<int>, hostTimes: nat, bufs: seq<seq<int>>,
                                   times: seq<int>, n: nat, k: nat)
    requires |host| == MAX_NODE_NUM && Sized(bufs) && |times| == |bufs| && n <= MAX_NODE_NUM && k < MAX_NODE_NUM
    ensures HostBelow(host, hostTimes, bufs, times, n)[k]
            == if k < n then HostValue(Averaged(host[k], hostTimes), VmTotal(Column(bufs, k), times, |bufs|))
               else host[k]
  {
    hide Averaged, HostValue, VmTotal;
    if n == 0 {
    } else {
      HostBelowAt(host, hostTimes, bufs, times, n - 1, k);
    }
  }

  lemma ColumnUnchanged(bufs: seq<seq<int>>, times: seq<int>, n: nat)
    requires Sized(bufs) && |times| == |bufs| && n < MAX_NODE_NUM
    ensures Column(BufsBelow(bufs, times, n), n) == Column(bufs, n)
  {
    forall j | 0 <= j < |bufs|
      ensures AveragedBelow(bufs[j], times[j], n)[n] == bufs[j][n]
    {
      AveragedBelowAt(bufs[j], times[j], n, n);
    }
  }

  lemma NextNode(vms: seq<VmBandwidth>, bufs: seq<seq<int>>, updated: seq<bool>, times: seq<int>, n: nat)
    requires Sized(bufs) && |times| == |bufs| == |updated| == |vms| && n < MAX_NODE_NUM
    requires NodeDone(vms, BufsBelow(bufs, times, n), UpdatedAfter(updated, times, n), times, n, |vms|)
    ensures Holds(vms, BufsBelow(bufs, times, n + 1), UpdatedAfter(updated, times, n + 1))
  {
    var b, b' := BufsBelow(bufs, times, n), BufsBelow(bufs, times, n + 1);
    forall j | 0 <= j < |vms|
      ensures AveragedAt(b[j], n, times[j]) == b'[j]
    {
    }
  }

  lemma NodeStart(vms: seq<VmBandwidth>, bufs: seq<seq<int>>, updated: seq<bool>, times: seq<int>, n: nat)
    requires |times| == |bufs| == |updated| == |vms| && forall b | b in bufs :: n < |b|
    requires Holds(vms, bufs, updated)
    ensures NodeDone(vms, bufs, updated, times, n, 0)
  {
  }

  /** calculate_all_bandwidth's body for one node. */
  method CalculateHostNode(bandwidth: array<int>, vms: seq<VmBandwidth>, times: seq<int>, hostTimes: nat, node: nat,
                           ghost bufs: seq<seq<int>>, ghost updated: seq<bool>)
    requires Separate(bandwidth, vms) && node < MAX_NODE_NUM
    requires Sized(bufs) && |times| == |vms| == |bufs| == |updated|
    requires Holds(vms, BufsBelow(bufs, times, node), UpdatedAfter(updated, times, node))
    modifies bandwidth, vms, set v | v in vms :: v.ctl
    ensures Holds(vms, BufsBelow(bufs, times, node + 1), UpdatedAfter(updated, times, node + 1))
    ensures bandwidth[..] == old(bandwidth[..])[node :=
      HostValue(Averaged(old(bandwidth[node]), hostTimes), VmTotal(Column(bufs, node), times, |bufs|))]
  {
    hide Holds, NodeDone, BufsBelow, UpdatedAfter, HostValue, TruncDiv, VmTotal;
    ghost var b, u := BufsBelow(bufs, times, node), UpdatedAfter(updated, times, node);
    NodeStart(vms, b, u, times, node);
    ColumnUnchanged(bufs, times, node);
    if hostTimes > 0 {
      bandwidth[node] := TruncDiv(bandwidth[node], hostTimes);
    }
    NodeStart(vms, b, u, times, node);
    CalculateNode(bandwidth, vms, times, node, b, u);
    NextNode(vms, bufs, updated, times, node);
  }

  lemma HoldsStart(vms: seq<VmBandwidth>, bufs: seq<seq<int>>, updated: seq<bool>, times: seq<int>)
    requires Sized(bufs) && |times| == |vms| && Holds(vms, bufs, updated)
    ensures |bufs| == |updated| == |vms|
    ensures Holds(vms, BufsBelow(bufs, times, 0), UpdatedAfter(updated, times, 0))
  {
  }

  /** calculate_all_bandwidth */
  method CalculateAllBandwidth(now: DomainList, vms: seq<VmBandwidth>, times: seq<int>, hostTimes: nat,
                               ghost bufs: seq<seq<int>>, ghost updated: seq<bool>)
    requires Separate(now.bandwidth, vms) && 0 <= now.nodeNum <= MAX_NODE_NUM
    requires Sized(bufs) && |times| == |vms| && Holds(vms, bufs, updated)
    modifies now.bandwidth, vms, set v | v in vms :: v.ctl
    ensures Holds(vms, BufsBelow(bufs, times, now.nodeNum), UpdatedAfter(updated, times, now.nodeNum))
    ensures now.bandwidth[..] == HostBelow(old(now.bandwidth[..]), hostTimes, bufs, times, now.nodeNum)
  {
    hide Holds, BufsBelow, UpdatedAfter, Averaged, HostValue, VmTotal;
    HoldsStart(vms, bufs, updated, times);
    ghost var host := now.bandwidth[..];
    for node := 0 to now.nodeNum
      invariant Holds(vms, BufsBelow(bufs, times, node), UpdatedAfter(updated, times, node))
      invariant now.bandwidth[..] == HostBelow(host, hostTimes, bufs, times, node)
    {
      HostBelowAt(host, hostTimes, bufs, times, node, node);
      CalculateHostNode(now.bandwidth, vms, times, hostTimes, node, bufs, updated);
    }
  }

  // ----- The sampling rounds -----

  /** A buffer after a call of get_mon_MB on it. */
  function AddTo(buf: seq<int>, m: MonFiles, nodeNum: nat): (r: seq<int>)
    requires |buf| == MAX_NODE_NUM
    ensures |r| == MAX_NODE_NUM && forall k | 0 <= k < MAX_NODE_NUM ::
              r[k] == buf[k] + Added(m, nodeNum, SAMPLE_TIMES_INNER, k)
  {
    seq(MAX_NODE_NUM, k requires 0 <= k < MAX_NODE_NUM => buf[k] + Added(m, nodeNum, SAMPLE_TIMES_INNER, k))
  }

  /** VM i's buffer after some rounds. */
  function VmBuf(e: Samples, buf: seq<int>, rounds: nat, i: nat, nodeNum: nat): (r: seq<int>)
    requires |buf| == MAX_NODE_NUM
    ensures |r| == MAX_NODE_NUM
  {
    if rounds == 0 then buf
    else
      var b := VmBuf(e, buf, rounds - 1, i, nodeNum);
      if e.vm(rounds - 1, i).None? then b else AddTo(b, e.vm(rounds - 1, i).value, nodeNum)
  }

  function HostBuf(e: Samples, buf: seq<int>, rounds: nat, nodeNum: nat): (r: seq<int>)
    requires |buf| == MAX_NODE_NUM
    ensures |r| == MAX_NODE_NUM
  {
    if rounds == 0 then buf else AddTo(HostBuf(e, buf, rounds - 1, nodeNum), e.host(rounds - 1), nodeNum)
  }

  lemma {:induction false} VmBufAt(e: Samples, buf: seq<int>, rounds: nat, i: nat, nodeNum: nat, k: nat)
    requires |buf| == MAX_NODE_NUM && k < MAX_NODE_NUM
    ensures VmBuf(e, buf, rounds, i, nodeNum)[k] == buf[k] + VmSum(e, rounds, i, nodeNum, k)
  {
    hide Added;
    if rounds == 0 {
    } else {
      VmBufAt(e, buf, rounds - 1, i, nodeNum, k);
    }
  }

  lemma {:induction false} HostBufAt(e: Samples, buf: seq<int>, rounds: nat, nodeNum: nat, k: nat)
    requires |buf| == MAX_NODE_NUM && k < MAX_NODE_NUM
    ensures HostBuf(e, buf, rounds, nodeNum)[k] == buf[k] + HostSum(e, rounds, nodeNum, k)
  {
    hide Added;
    if rounds == 0 {
    } else {
      HostBufAt(e, buf, rounds - 1, nodeNum, k);
    }
  }

  lemma VmStep(e: Samples, buf: seq<int>, r: nat, i: nat, nodeNum: nat)
    requires |buf| == MAX_NODE_NUM
    ensures VmBuf(e, buf, r + 1, i, nodeNum)
            == var b := VmBuf(e, buf, r, i, nodeNum);
               if e.vm(r, i).None? then b else AddTo(b, e.vm(r, i).value, nodeNum)
    ensures VmTimes(e, r + 1, i, nodeNum)
            == VmTimes(e, r, i, nodeNum)
             + if e.vm(r, i).Some? && Succeeds(e.vm(r, i).value, nodeNum, SAMPLE_TIMES_INNER) then 1 else 0
  {
    hide AddTo, Succeeds;
  }

  /** Round r is over for the first n VMs. */
  ghost predicate Sampled(vms: seq<VmBandwidth>, times: array<int>, e: Samples, bufs: seq<seq<int>>, updated: seq<bool>,
                          nodeNum: nat, r: nat, n: nat)
    requires Sized(bufs) && |bufs| == |updated| == |vms| <= times.Length
    reads vms, times, set v | v in vms :: v.ctl
  {
    forall j | 0 <= j < |vms| ::
      && vms[j].ctl[..] == VmBuf(e, bufs[j], if j < n then r + 1 else r, j, nodeNum)
      && vms[j].updated == updated[j]
      && times[j] == VmTimes(e, if j < n then r + 1 else r, j, nodeNum)
  }

  /** get_vm_ctl_bandwidth; `dir` is None when the directory cannot be opened. */
  method GetVmCtlBandwidth(vm: VmBandwidth, dir: Option<seq<string>>, files: string -> MonFiles, nodeNum: nat)
    returns (ret: int)
    requires nodeNum <= MAX_NODE_NUM == vm.ctl.Length
    modifies vm.ctl
    ensures var m := GroupFiles(dir, vm.domainId, files);
      && ret == (if m.Some? && Succeeds(m.value, nodeNum, SAMPLE_TIMES_INNER) then 0 else -1)
      && vm.ctl[..] == if m.None? then old(vm.ctl[..]) else AddTo(old(vm.ctl[..]), m.value, nodeNum)
  {
    hide Added, Succeeds, FirstGroup;
    if dir.None? {
      return -1;
    }
    var i := GetVmCtlPath(dir.value, vm.domainId);
    if i < 0 {
      return -1;
    }
    ret := GetMonMB(vm.ctl, files(dir.value[i]), nodeNum, SAMPLE_TIMES_INNER);
  }

  /** get_root_mon_bandwidth */
  method GetRootMonBandwidth(host: array<int>, m: MonFiles, nodeNum: nat) returns (ret: int)
    requires nodeNum <= MAX_NODE_NUM == host.Length
    modifies host
    ensures ret == if Succeeds(m, nodeNum, SAMPLE_TIMES_INNER) then 0 else -1
    ensures host[..] == AddTo(old(host[..]), m, nodeNum)
  {
    hide Added, Succeeds;
    ret := GetMonMB(host, m, nodeNum, SAMPLE_TIMES_INNER);
  }

  /** Distinct records and buffers, and a counter array apart from them. */
  ghost predicate VmsOk(vms: seq<VmBandwidth>, times: array<int>) {
    && (forall i | 0 <= i < |vms| :: vms[i].ctl.Length == MAX_NODE_NUM && vms[i].ctl != times)
    && (forall i, j | 0 <= i < j < |vms| :: vms[i] != vms[j] && vms[i].ctl != vms[j].ctl)
  }

  /** One VM in one round. */
  method SampleVm(vms: seq<VmBandwidth>, times: array<int>, e: Samples, nodeNum: nat, r: nat, i: nat,
                  ghost bufs: seq<seq<int>>, ghost updated: seq<bool>)
    requires nodeNum <= MAX_NODE_NUM && i < |vms| && VmsOk(vms, times) && Named(vms, e)
    requires Sized(bufs) && |bufs| == |updated| == |vms| <= times.Length
    requires Sampled(vms, times, e, bufs, updated, nodeNum, r, i)
    modifies times, set v | v in vms :: v.ctl
    ensures Sampled(vms, times, e, bufs, updated, nodeNum, r, i + 1)
  {
    hide Added, Succeeds, AddTo, VmBuf, VmTimes, GroupFiles;
    VmStep(e, bufs[i], r, i, nodeNum);
    var ret := GetVmCtlBandwidth(vms[i], e.groups(r, i), e.files(r, i), nodeNum);
    if ret >= 0 {
      times[i] := times[i] + 1;
    }
    assert forall j | 0 <= j < |vms| && j != i :: vms[j].ctl[..] == old(vms[j].ctl[..]) && times[j] == old(times[j]);
  }

  lemma SampledStart(vms: seq<VmBandwidth>, times: array<int>, e: Samples, bufs: seq<seq<int>>, updated: seq<bool>,
                     nodeNum: nat)
    requires Sized(bufs) && |bufs| == |updated| == |vms| <= times.Length
    requires Holds(vms, bufs, updated) && forall j | 0 <= j < |vms| :: times[j] == 0
    ensures Sampled(vms, times, e, bufs, updated, nodeNum, 0, 0)
  {
  }

  lemma SampledRound(vms: seq<VmBandwidth>, times: array<int>, e: Samples, bufs: seq<seq<int>>, updated: seq<bool>,
                     nodeNum: nat, r: nat)
    requires Sized(bufs) && |bufs| == |updated| == |vms| <= times.Length
    requires Sampled(vms, times, e, bufs, updated, nodeNum, r, |vms|)
    ensures Sampled(vms, times, e, bufs, updated, nodeNum, r + 1, 0)
  {
  }

  /** All VMs' buffers, and success counts, after some rounds. */
  ghost function VmBufs(e: Samples, bufs: seq<seq<int>>, rounds: nat, nodeNum: nat): (r: seq<seq<int>>)
    requires Sized(bufs)
    ensures |r| == |bufs| && Sized(r)
  {
    seq(|bufs|, j requires 0 <= j < |bufs| => VmBuf(e, bufs[j], rounds, j, nodeNum))
  }

  ghost function AllTimes(e: Samples, n: nat, rounds: nat, nodeNum: nat): (r: seq<int>)
    ensures |r| == n && forall j | 0 <= j < n :: r[j] == VmTimes(e, rounds, j, nodeNum)
  {
    seq(n, j requires 0 <= j < n => VmTimes(e, rounds, j, nodeNum))
  }

  lemma SampledEnd(vms: seq<VmBandwidth>, times: array<int>, e: Samples, bufs: seq<seq<int>>, updated: seq<bool>,
                   nodeNum: nat, r: nat)
    requires Sized(bufs) && |bufs| == |updated| == |vms| <= times.Length
    requires Sampled(vms, times, e, bufs, updated, nodeNum, r, 0)
    ensures Holds(vms, VmBufs(e, bufs, r, nodeNum), updated)
    ensures times[..|vms|] == AllTimes(e, |vms|, r, nodeNum)
  {
  }

  /** refresh_domains_bandwidth's loop over the VMs in one round. */
  method SampleVms(vms: seq<VmBandwidth>, times: array<int>, e: Samples, nodeNum: nat, r: nat,
                   ghost bufs: seq<seq<int>>, ghost updated: seq<bool>)
    requires nodeNum <= MAX_NODE_NUM && VmsOk(vms, times) && Named(vms, e)
    requires Sized(bufs) && |bufs| == |updated| == |vms| <= times.Length
    requires Sampled(vms, times, e, bufs, updated, nodeNum, r, 0)
    modifies times, set v | v in vms :: v.ctl
    ensures Sampled(vms, times, e, bufs, updated, nodeNum, r + 1, 0)
  {
    hide Sampled;
    for i := 0 to |vms|
      invariant Sampled(vms, times, e, bufs, updated, nodeNum, r, i)
    {
      SampleVm(vms, times, e, nodeNum, r, i, bufs, updated);
    }
    SampledRound(vms, times, e, bufs, updated, nodeNum, r);
  }

  /** refresh_domains_bandwidth's sampling rounds. */
  method SampleAll(host: array<int>, vms: seq<VmBandwidth>, times: array<int>, e: Samples, nodeNum: nat, rounds: nat,
                   ghost bufs: seq<seq<int>>, ghost updated: seq<bool>) returns (hostTimes: nat)
    requires nodeNum <= MAX_NODE_NUM && VmsOk(vms, times) && Separate(host, vms) && host != times && Named(vms, e)
    requires Sized(bufs) && |bufs| == |updated| == |vms| <= times.Length
    requires Holds(vms, bufs, updated) && forall j | 0 <= j < |vms| :: times[j] == 0
    modifies host, times, set v | v in vms :: v.ctl
    ensures Sampled(vms, times, e, bufs, updated, nodeNum, rounds, 0)
    ensures host[..] == HostBuf(e, old(host[..]), rounds, nodeNum)
    ensures hostTimes == HostTimes(e, rounds, nodeNum)
  {
    hide Sampled, Holds, AddTo, Added, Succeeds;
    SampledStart(vms, times, e, bufs, updated, nodeNum);
    hostTimes := 0;
    for r := 0 to rounds
      invariant Sampled(vms, times, e, bufs, updated, nodeNum, r, 0)
      invariant host[..] == HostBuf(e, old(host[..]), r, nodeNum)
      invariant hostTimes == HostTimes(e, r, nodeNum)
    {
      SampleVms(vms, times, e, nodeNum, r, bufs, updated);
      var ret := GetRootMonBandwidth(host, e.host(r), nodeNum);
      if ret >= 0 {
        hostTimes := hostTimes + 1;
      }
    }
  }

  /** refresh_domains_bandwidth: every VM that was sampled at least once holds its
      average, every other what was added to it; the host holds HostValue of both. */
  method RefreshDomainsBandwidth(now: DomainList, vms: seq<VmBandwidth>, numaDir: Option<seq<string>>, e: Samples,
                                 ghost bufs: seq<seq<int>>, ghost updated: seq<bool>)
    requires Separate(now.bandwidth, vms) && Named(vms, e)
    requires numaDir.Some? && NodeCount(numaDir.value) > 0 ==> |vms| <= MAX_VM_TASKS_NUM
    requires Sized(bufs) && |bufs| == |updated| == |vms| && Holds(vms, bufs, updated)
    modifies now`nodeNum, now.bandwidth, vms, set v | v in vms :: v.ctl
    ensures now.nodeNum == if numaDir.None? then old(now.nodeNum) else NodeCount(numaDir.value)
    ensures numaDir.None? || NodeCount(numaDir.value) == 0 ==>
      Holds(vms, bufs, updated) && now.bandwidth[..] == old(now.bandwidth[..])
    ensures numaDir.Some? && NodeCount(numaDir.value) > 0 ==>
      var n, r := NodeCount(numaDir.value), SAMPLE_TIMES_OUTER;
      var sums, times := VmBufs(e, bufs, r, n), AllTimes(e, |vms|, r, n);
      && Holds(vms, BufsBelow(sums, times, n), UpdatedAfter(updated, times, n))
      && now.bandwidth[..]
         == HostBelow(HostBuf(e, old(now.bandwidth[..]), r, n), HostTimes(e, r, n), sums, times, n)
  {
    hide Holds, Sampled, BufsBelow, UpdatedAfter, HostBelow, HostBuf, HostTimes, VmBufs, NodeOf;
    var ret, nodeNum := GetNumaNum(numaDir, now.nodeNum);
    now.nodeNum := nodeNum;
    if ret < 0 {
      return;
    }
    var times := new int[MAX_VM_TASKS_NUM](_ => 0);
    var hostTimes := SampleAll(now.bandwidth, vms, times, e, now.nodeNum, SAMPLE_TIMES_OUTER, bufs, updated);
    SampledEnd(vms, times, e, bufs, updated, now.nodeNum, SAMPLE_TIMES_OUTER);
    CalculateAllBandwidth(now, vms, times[..|vms|], hostTimes,
                          VmBufs(e, bufs, SAMPLE_TIMES_OUTER, now.nodeNum), updated);
  }
}
