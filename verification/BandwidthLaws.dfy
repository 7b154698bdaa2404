/** What the bandwidth columns mean: exact values, when the host value is the sum it
    is meant to be, and how much the nested integer averages lose. */
module BandwidthLaws {
  import opened Words
  import opened Types
  import opened Resctrl
  import opened Bandwidth

  /** Every reading is a failure or not negative. */
  predicate NonNegative(m: MonFiles, rounds: nat, k: nat) {
    forall r | 0 <= r < rounds :: m.reading(r, k) >= -1
  }

  predicate AllNonNegative(s: seq<int>) {
    forall i | 0 <= i < |s| :: s[i] >= 0
  }

  lemma {:induction false} ReadingsNonNegative(m: MonFiles, k: nat, rounds: nat)
    requires NonNegative(m, rounds, k)
    ensures AllNonNegative(Readings(m, k, rounds))
  {
    if rounds <= 1 {
    } else {
      assert m.reading(rounds - 1, k) >= -1;
      ReadingsNonNegative(m, k, rounds - 1);
    }
  }

  lemma {:induction false} SumNonNegative(s: seq<int>)
    requires AllNonNegative(s)
    ensures Sum(s) >= 0
  {
    if s == [] {
    } else {
      SumNonNegative(s[..|s| - 1]);
    }
  }

  lemma AddedNonNegative(m: MonFiles, nodeNum: nat, rounds: nat, k: nat)
    requires NonNegative(m, rounds, k)
    ensures Added(m, nodeNum, rounds, k) >= 0
  {
    if Opened(m, nodeNum) && k < FirstSilent(m, nodeNum, rounds) {
      ReadingsNonNegative(m, k, rounds);
      SumNonNegative(Readings(m, k, rounds));
      DivNonNegative(Sum(Readings(m, k, rounds)), |Readings(m, k, rounds)|);
    }
  }

  // ----- The host value -----

  /** The host value is the host's average plus the VMs' if and only if the host's
      average makes up for what node_vms is too large by; when the VMs' total fits
      node_vms this says that the host's average is not negative. */
  lemma HostValueExact(base: int, vmTotal: int)
    ensures HostValue(base, vmTotal) == base + vmTotal <==> base >= -TWO32 * (vmTotal / TWO32)
    ensures 0 <= vmTotal < TWO32 ==> (HostValue(base, vmTotal) == base + vmTotal <==> base >= 0)
    ensures base >= 0 && vmTotal >= 0 ==> HostValue(base, vmTotal) == base + vmTotal
    ensures HostValue(base, vmTotal) >= vmTotal % TWO32
  {
    assert vmTotal == TWO32 * (vmTotal / TWO32) + vmTotal % TWO32;
  }

  lemma {:induction false} VmSumNonNegative(e: Samples, rounds: nat, i: nat, nodeNum: nat, k: nat)
    requires forall r | 0 <= r < rounds :: e.vm(r, i).Some? ==> NonNegative(e.vm(r, i).value, SAMPLE_TIMES_INNER, k)
    ensures VmSum(e, rounds, i, nodeNum, k) >= 0
  {
    hide Added, NonNegative;
    if rounds == 0 {
    } else {
      VmSumNonNegative(e, rounds - 1, i, nodeNum, k);
      if e.vm(rounds - 1, i).Some? {
        AddedNonNegative(e.vm(rounds - 1, i).value, nodeNum, SAMPLE_TIMES_INNER, k);
      }
    }
  }

  lemma {:induction false} HostSumNonNegative(e: Samples, rounds: nat, nodeNum: nat, k: nat)
    requires forall r | 0 <= r < rounds :: NonNegative(e.host(r), SAMPLE_TIMES_INNER, k)
    ensures HostSum(e, rounds, nodeNum, k) >= 0
  {
    hide Added, NonNegative;
    if rounds == 0 {
    } else {
      HostSumNonNegative(e, rounds - 1, nodeNum, k);
      AddedNonNegative(e.host(rounds - 1), nodeNum, SAMPLE_TIMES_INNER, k);
    }
  }

  lemma {:induction false} VmTotalNonNegative(accs: seq<int>, times: seq<int>, n: nat)
    requires n <= |accs| && n <= |times|
    requires forall i | 0 <= i < n :: accs[i] >= 0
    ensures VmTotal(accs, times, n) >= 0
  {
    if n == 0 {
    } else {
      VmTotalNonNegative(accs, times, n - 1);
    }
  }

  const ZERO_BUF: seq<int> := Repeat(0, MAX_NODE_NUM)

  /** A call that starts from cleared columns, as every frame's does, leaves in a
      VM's column the average of its successful rounds, failed rounds' partial
      additions included; or, without a success, just those additions. */
  lemma VmColumn(e: Samples, vmCount: nat, i: nat, n: nat, k: nat)
    requires i < vmCount && k < n <= MAX_NODE_NUM
    ensures var bufs, r := Repeat(ZERO_BUF, vmCount), SAMPLE_TIMES_OUTER;
            && Sized(bufs)
            && BufsBelow(VmBufs(e, bufs, r, n), AllTimes(e, vmCount, r, n), n)[i][k]
               == Averaged(VmSum(e, r, i, n, k), VmTimes(e, r, i, n))
  {
    hide VmBuf, AveragedBelow, Averaged, VmSum, VmTimes;
    VmBufAt(e, ZERO_BUF, SAMPLE_TIMES_OUTER, i, n, k);
    AveragedBelowAt(VmBuf(e, ZERO_BUF, SAMPLE_TIMES_OUTER, i, n), VmTimes(e, SAMPLE_TIMES_OUTER, i, n), n, k);
  }

  // ----- Additions of failed rounds -----

  /** What a VM's successful rounds add. */
  function VmGood(e: Samples, rounds: nat, i: nat, nodeNum: nat, k: nat): int {
    if rounds == 0 then 0
    else
      VmGood(e, rounds - 1, i, nodeNum, k)
      + if VmSucceeds(e, rounds - 1, i, nodeNum) then VmAdded(e, rounds - 1, i, nodeNum, k) else 0
  }

  /** What its failed rounds add all the same. */
  function VmBad(e: Samples, rounds: nat, i: nat, nodeNum: nat, k: nat): int {
    if rounds == 0 then 0
    else
      VmBad(e, rounds - 1, i, nodeNum, k)
      + if VmSucceeds(e, rounds - 1, i, nodeNum) then 0 else VmAdded(e, rounds - 1, i, nodeNum, k)
  }

  function HostGood(e: Samples, rounds: nat, nodeNum: nat, k: nat): int {
    if rounds == 0 then 0
    else
      HostGood(e, rounds - 1, nodeNum, k)
      + if Succeeds(e.host(rounds - 1), nodeNum, SAMPLE_TIMES_INNER)
        then Added(e.host(rounds - 1), nodeNum, SAMPLE_TIMES_INNER, k) else 0
  }

  function HostBad(e: Samples, rounds: nat, nodeNum: nat, k: nat): int {
    if rounds == 0 then 0
    else
      HostBad(e, rounds - 1, nodeNum, k)
      + if Succeeds(e.host(rounds - 1), nodeNum, SAMPLE_TIMES_INNER)
        then 0 else Added(e.host(rounds - 1), nodeNum, SAMPLE_TIMES_INNER, k)
  }

  /** Every node's file opens, and its second reading is none that failed. */
  predicate Reads(m: MonFiles, nodeNum: nat) {
    forall j | 0 <= j < nodeNum :: m.openable(j) && m.reading(1, j) != -1
  }

  lemma SucceedsReads(m: MonFiles, nodeNum: nat)
    ensures Succeeds(m, nodeNum, SAMPLE_TIMES_INNER) <==> Reads(m, nodeNum)
  {
    hide Succeeds;
    AddedSecond(m, nodeNum, 0);
  }

  /** The rounds in which every node is read for VM i, and for the host. */
  ghost function VmReadRounds(e: Samples, rounds: nat, i: nat, nodeNum: nat): set<nat> {
    set r: nat | r < rounds && e.vm(r, i).Some? && Reads(e.vm(r, i).value, nodeNum)
  }

  ghost function HostReadRounds(e: Samples, rounds: nat, nodeNum: nat): set<nat> {
    set r: nat | r < rounds && Reads(e.host(r), nodeNum)
  }

  lemma NextReadRound(e: Samples, rounds: nat, i: nat, nodeNum: nat)
    ensures var all, host := VmReadRounds(e, rounds, i, nodeNum), HostReadRounds(e, rounds, nodeNum);
            && rounds !in all && rounds !in host
            && VmReadRounds(e, rounds + 1, i, nodeNum)
               == (if e.vm(rounds, i).Some? && Reads(e.vm(rounds, i).value, nodeNum) then all + {rounds} else all)
            && HostReadRounds(e, rounds + 1, nodeNum)
               == if Reads(e.host(rounds), nodeNum) then host + {rounds} else host
  {
    hide Reads, GroupFiles;
  }

  lemma NoRounds(e: Samples, i: nat, nodeNum: nat)
    ensures VmReadRounds(e, 0, i, nodeNum) == HostReadRounds(e, 0, nodeNum) == {}
  {
  }

  /** The success counts are the numbers of rounds in which every node is read. */
  lemma {:induction false} Successes(e: Samples, rounds: nat, i: nat, nodeNum: nat)
    ensures VmTimes(e, rounds, i, nodeNum) == |VmReadRounds(e, rounds, i, nodeNum)|
    ensures HostTimes(e, rounds, nodeNum) == |HostReadRounds(e, rounds, nodeNum)|
  {
    hide Reads, Succeeds, VmReadRounds, HostReadRounds, Samples.vm;
    if rounds == 0 {
      NoRounds(e, i, nodeNum);
    } else {
      Successes(e, rounds - 1, i, nodeNum);
      NextReadRound(e, rounds - 1, i, nodeNum);
      SucceedsReads(e.host(rounds - 1), nodeNum);
      if e.vm(rounds - 1, i).Some? {
        SucceedsReads(e.vm(rounds - 1, i).value, nodeNum);
      }
    }
  }

  lemma {:induction false} VmSplit(e: Samples, rounds: nat, i: nat, nodeNum: nat, k: nat)
    ensures VmSum(e, rounds, i, nodeNum, k) == VmGood(e, rounds, i, nodeNum, k) + VmBad(e, rounds, i, nodeNum, k)
    ensures VmTimes(e, rounds, i, nodeNum) == 0 ==> VmGood(e, rounds, i, nodeNum, k) == 0
  {
    hide VmSucceeds, VmAdded;
    if rounds == 0 {
    } else {
      VmSplit(e, rounds - 1, i, nodeNum, k);
    }
  }

  lemma {:induction false} HostSplit(e: Samples, rounds: nat, nodeNum: nat, k: nat)
    ensures HostSum(e, rounds, nodeNum, k) == HostGood(e, rounds, nodeNum, k) + HostBad(e, rounds, nodeNum, k)
    ensures HostTimes(e, rounds, nodeNum) == 0 ==> HostGood(e, rounds, nodeNum, k) == 0
  {
    hide Succeeds, Added;
    if rounds == 0 {
    } else {
      HostSplit(e, rounds - 1, nodeNum, k);
    }
  }

  /** A rest of `sum` too small to matter: adding `more` to it keeps the truncated
      average of t values. */
  predicate Negligible(sum: int, more: int, t: int)
    requires t > 0
  {
    if sum >= t then 0 <= sum % t + more < t
    else if sum <= -t then 0 <= -sum % t - more < t
    else -t < sum + more < t
  }

  lemma MulStep(a: int, b: int, t: int)
    requires a < b && t > 0
    ensures a * t + t <= b * t
  {
    assert (b - a - 1) * t >= 0;
    assert (b - a - 1) * t == b * t - a * t - t;
  }

  lemma Quotient(x: int, t: int, q: int)
    requires t > 0
    ensures x / t == q <==> 0 <= x - q * t < t
  {
    var p, r := x / t, x % t;
    assert x == p * t + r;
    if p < q {
      MulStep(p, q, t);
    } else if q < p {
      MulStep(q, p, t);
    }
  }

  lemma AverageKeptUp(sum: nat, more: int, t: int)
    requires t > 0
    ensures TruncDiv(sum + more, t) == TruncDiv(sum, t)
            <==> if sum >= t then 0 <= sum % t + more < t else -t < sum + more < t
  {
    var q, x := sum / t, sum + more;
    assert x - q * t == sum % t + more;
    Quotient(sum, t, q);
    Quotient(x, t, q);
    Quotient(sum, t, 0);
    Quotient(-x, t, 0);
    Quotient(-x, t, -q);
    if sum >= t {
      assert q != 0;
      DivNonNegative(sum, t);
      if x < 0 {
        DivNonNegative(-x, t);
        assert q * t >= t by { MulStep(0, q, t); }
      }
    }
  }

  lemma Mirrored(x: int, t: int)
    requires t > 0
    ensures TruncDiv(-x, t) == -TruncDiv(x, t)
  {
  }

  lemma AverageKept(sum: int, more: int, t: int)
    requires t > 0
    ensures TruncDiv(sum + more, t) == TruncDiv(sum, t) <==> Negligible(sum, more, t)
  {
    if sum >= 0 {
      AverageKeptUp(sum, more, t);
    } else {
      AverageKeptUp(-sum, -more, t);
      Mirrored(sum, t);
      Mirrored(sum + more, t);
    }
  }

  /** What stands in a VM's column is the average over its successful rounds if and
      only if what its failed rounds added is negligible; without a successful round it
      is what the failed ones added, and the column is not shown. */
  lemma VmFailedRounds(e: Samples, rounds: nat, i: nat, nodeNum: nat, k: nat)
    ensures var good, bad := VmGood(e, rounds, i, nodeNum, k), VmBad(e, rounds, i, nodeNum, k);
            var t := VmTimes(e, rounds, i, nodeNum);
            && (Averaged(VmSum(e, rounds, i, nodeNum, k), t) == Averaged(good, t)
                <==> if t == 0 then bad == 0 else Negligible(good, bad, t))
            && (t == 0 ==> Averaged(VmSum(e, rounds, i, nodeNum, k), t) == bad)
  {
    hide VmSum, VmGood, VmBad, VmTimes, TruncDiv, Negligible;
    VmSplit(e, rounds, i, nodeNum, k);
    if VmTimes(e, rounds, i, nodeNum) > 0 {
      AverageKept(VmGood(e, rounds, i, nodeNum, k), VmBad(e, rounds, i, nodeNum, k), VmTimes(e, rounds, i, nodeNum));
    }
  }

  /** The same for the host's own part, which is shown in any case: without a
      successful round it is the undivided sum of what the failed ones added. */
  lemma HostFailedRounds(e: Samples, rounds: nat, nodeNum: nat, k: nat)
    ensures var good, bad := HostGood(e, rounds, nodeNum, k), HostBad(e, rounds, nodeNum, k);
            var t := HostTimes(e, rounds, nodeNum);
            && (Averaged(HostSum(e, rounds, nodeNum, k), t) == Averaged(good, t)
                <==> if t == 0 then bad == 0 else Negligible(good, bad, t))
            && (t == 0 ==> Averaged(HostSum(e, rounds, nodeNum, k), t) == bad)
  {
    hide HostSum, HostGood, HostBad, HostTimes, TruncDiv, Negligible;
    HostSplit(e, rounds, nodeNum, k);
    if HostTimes(e, rounds, nodeNum) > 0 {
      AverageKept(HostGood(e, rounds, nodeNum, k), HostBad(e, rounds, nodeNum, k), HostTimes(e, rounds, nodeNum));
    }
  }

  /** The accumulated values of one node, VM by VM. */
  lemma SumsNonNegative(e: Samples, vmCount: nat, r: nat, n: nat, k: nat)
    requires k < MAX_NODE_NUM
    requires forall q, i | 0 <= q < r && 0 <= i < vmCount && e.vm(q, i).Some? ::
      NonNegative(e.vm(q, i).value, SAMPLE_TIMES_INNER, k)
    ensures Sized(Repeat(ZERO_BUF, vmCount))
    ensures AllNonNegative(Column(VmBufs(e, Repeat(ZERO_BUF, vmCount), r, n), k))
  {
    hide VmBuf, VmSum, NonNegative;
    forall i | 0 <= i < vmCount
      ensures VmBuf(e, ZERO_BUF, r, i, n)[k] >= 0
    {
      VmBufAt(e, ZERO_BUF, r, i, n, k);
      VmSumNonNegative(e, r, i, n, k);
    }
  }

  lemma AveragedNonNegative(acc: int, times: int)
    requires acc >= 0
    ensures Averaged(acc, times) >= 0
  {
    if times > 0 {
      DivNonNegative(acc, times);
    }
  }

  lemma HostValueOfNonNegative(host: int, hostTimes: nat, accs: seq<int>, times: seq<int>, n: nat)
    requires host >= 0 && AllNonNegative(accs) && n <= |accs| && n <= |times|
    ensures HostValue(Averaged(host, hostTimes), VmTotal(accs, times, n))
            == Averaged(host, hostTimes) + VmTotal(accs, times, n)
  {
    hide HostValue, Averaged, VmTotal;
    AveragedNonNegative(host, hostTimes);
    VmTotalNonNegative(accs, times, n);
    HostValueExact(Averaged(host, hostTimes), VmTotal(accs, times, n));
  }

  /** The host's column is the host's own part, which is what its rounds added divided
      by its successes if there are any, plus the averages of all VMs sampled at least
      once; if and only if its own part makes up for what node_vms is too large by. */
  lemma HostColumnExact(e: Samples, vmCount: nat, n: nat, k: nat)
    requires k < n <= MAX_NODE_NUM
    ensures Sized(Repeat(ZERO_BUF, vmCount))
    ensures var bufs, r := Repeat(ZERO_BUF, vmCount), SAMPLE_TIMES_OUTER;
            var sums, times := VmBufs(e, bufs, r, n), AllTimes(e, vmCount, r, n);
            var own, total := Averaged(HostSum(e, r, n, k), HostTimes(e, r, n)),
                VmTotal(Column(sums, k), times, vmCount);
            HostBelow(HostBuf(e, ZERO_BUF, r, n), HostTimes(e, r, n), sums, times, n)[k] == own + total
            <==> own >= -TWO32 * (total / TWO32)
  {
    hide VmBufs, HostBuf, HostBelow, HostSum, HostTimes, HostValue, VmTotal, Averaged, AllTimes, Column;
    var r := SAMPLE_TIMES_OUTER;
    assert Sized(Repeat(ZERO_BUF, vmCount));
    var sums, times := VmBufs(e, Repeat(ZERO_BUF, vmCount), r, n), AllTimes(e, vmCount, r, n);
    HostBelowAt(HostBuf(e, ZERO_BUF, r, n), HostTimes(e, r, n), sums, times, n, k);
    HostBufAt(e, ZERO_BUF, r, n, k);
    HostValueExact(Averaged(HostSum(e, r, n, k), HostTimes(e, r, n)), VmTotal(Column(sums, k), times, vmCount));
  }

  /** That is so when no reading is negative: the correction for a host below its VMs
      never applies then, wrapping of node_vms included. */
  lemma HostColumn(e: Samples, vmCount: nat, n: nat, k: nat)
    requires k < n <= MAX_NODE_NUM
    requires forall r | 0 <= r < SAMPLE_TIMES_OUTER :: NonNegative(e.host(r), SAMPLE_TIMES_INNER, k)
    requires forall r, i | 0 <= r < SAMPLE_TIMES_OUTER && 0 <= i < vmCount && e.vm(r, i).Some? ::
      NonNegative(e.vm(r, i).value, SAMPLE_TIMES_INNER, k)
    ensures Sized(Repeat(ZERO_BUF, vmCount))
    ensures var bufs, r := Repeat(ZERO_BUF, vmCount), SAMPLE_TIMES_OUTER;
            var sums, times := VmBufs(e, bufs, r, n), AllTimes(e, vmCount, r, n);
            HostBelow(HostBuf(e, ZERO_BUF, r, n), HostTimes(e, r, n), sums, times, n)[k]
            == Averaged(HostSum(e, r, n, k), HostTimes(e, r, n)) + VmTotal(Column(sums, k), times, vmCount)
  {
    hide VmBufs, HostBuf, HostBelow, HostSum, HostTimes, HostValue, VmTotal, NonNegative, Averaged, AllTimes, Column,
      AllNonNegative;
    var r := SAMPLE_TIMES_OUTER;
    SumsNonNegative(e, vmCount, r, n, k);
    var sums, times := VmBufs(e, Repeat(ZERO_BUF, vmCount), r, n), AllTimes(e, vmCount, r, n);
    HostBelowAt(HostBuf(e, ZERO_BUF, r, n), HostTimes(e, r, n), sums, times, n, k);
    HostBufAt(e, ZERO_BUF, r, n, k);
    HostSumNonNegative(e, r, n, k);
    HostValueOfNonNegative(HostSum(e, r, n, k), HostTimes(e, r, n), Column(sums, k), times, vmCount);
  }

  // ----- What truncation loses -----

  lemma {:induction false} CastProduct(b: nat, q: nat)
    ensures (b * q) as real == b as real * q as real
    decreases q
  {
    if q == 0 {
    } else {
      CastProduct(b, q - 1);
      assert b * q == b * (q - 1) + b;
    }
  }

  lemma MulLess(x: real, y: real, c: real)
    requires x < y && c > 0.0
    ensures x * c < y * c
  {
  }

  lemma DivReal(a: nat, b: nat)
    requires b > 0
    ensures (a / b) as real <= a as real / b as real < (a / b) as real + 1.0
  {
    var q, x, c := a / b, a as real / b as real, b as real;
    assert x * c == a as real;
    CastProduct(b, q);
    assert q as real * c <= x * c;
    assert (q as real + 1.0) * c == (b * q + b) as real;
    if x < q as real {
      MulLess(x, q as real, c);
    }
    if x >= q as real + 1.0 {
      assert x > q as real + 1.0 || x == q as real + 1.0;
      if x > q as real + 1.0 {
        MulLess(q as real + 1.0, x, c);
      }
    }
  }

  /** The exact mean of a round's readings. */
  ghost function RealMean(s: seq<int>): real
    requires s != []
  {
    Sum(s) as real / |s| as real
  }

  predicate NoneEmpty(ss: seq<seq<int>>) {
    forall i | 0 <= i < |ss| :: ss[i] != []
  }

  /** The sum of the exact means of several rounds. */
  ghost function RealMeans(ss: seq<seq<int>>): real
    requires NoneEmpty(ss)
  {
    if ss == [] then 0.0 else RealMeans(ss[..|ss| - 1]) + RealMean(ss[|ss| - 1])
  }

  /** The sum of the truncated means, which is what is accumulated. */
  function Means(ss: seq<seq<int>>): int
    requires NoneEmpty(ss)
  {
    if ss == [] then 0 else Means(ss[..|ss| - 1]) + Mean(ss[|ss| - 1])
  }

  lemma {:induction false} MeansBound(ss: seq<seq<int>>)
    requires NoneEmpty(ss) && forall i | 0 <= i < |ss| :: AllNonNegative(ss[i])
    ensures Means(ss) >= 0
    ensures Means(ss) as real <= RealMeans(ss)
    ensures RealMeans(ss) - |ss| as real <= Means(ss) as real
  {
    if ss == [] {
    } else {
      var s := ss[|ss| - 1];
      MeansBound(ss[..|ss| - 1]);
      SumNonNegative(s);
      DivReal(Sum(s), |s|);
    }
  }

  lemma DivideBound(x: real, y: real, c: real)
    requires c > 0.0 && x - c <= y <= x
    ensures x / c - 1.0 <= y / c <= x / c
  {
    var u, v := x / c, y / c;
    assert u * c == x;
    assert v * c == y;
    if u < v {
      MulLess(u, v, c);
      assert false;
    }
    var w := u - 1.0;
    assert w * c == u * c - c;
    if v < w {
      MulLess(v, w, c);
      assert false;
    }
  }

  /** Averaging the rounds' truncated averages, again truncated, never exceeds the
      exact mean of the rounds' exact means, and is below it by less than 2; this
      for any number of rounds and of readings in each. */
  lemma NestedTruncation(ss: seq<seq<int>>)
    requires ss != [] && NoneEmpty(ss) && forall i | 0 <= i < |ss| :: AllNonNegative(ss[i])
    ensures var stored, exact := Averaged(Means(ss), |ss|), RealMeans(ss) / |ss| as real;
            exact - 2.0 < stored as real <= exact
  {
    MeansBound(ss);
    DivReal(Means(ss), |ss|);
    DivideBound(RealMeans(ss), Means(ss) as real, |ss| as real);
  }

  /** The readings of node k in each of the first rounds. */
  function RoundReadings(e: Samples, rounds: nat, i: nat, k: nat): (ss: seq<seq<int>>)
    requires forall r | 0 <= r < rounds :: e.vm(r, i).Some?
    ensures |ss| == rounds
  {
    if rounds == 0 then []
    else RoundReadings(e, rounds - 1, i, k) + [Readings(e.vm(rounds - 1, i).value, k, SAMPLE_TIMES_INNER)]
  }

  predicate AllSucceed(e: Samples, rounds: nat, i: nat, nodeNum: nat) {
    forall r | 0 <= r < rounds :: e.vm(r, i).Some? && Succeeds(e.vm(r, i).value, nodeNum, SAMPLE_TIMES_INNER)
  }

  /** What a VM accumulates when every round succeeds. */
  lemma {:induction false} AllRoundsSucceed(e: Samples, rounds: nat, i: nat, nodeNum: nat, k: nat)
    requires k < nodeNum && AllSucceed(e, rounds, i, nodeNum)
    ensures |RoundReadings(e, rounds, i, k)| == rounds == VmTimes(e, rounds, i, nodeNum)
    ensures NoneEmpty(RoundReadings(e, rounds, i, k))
    ensures VmSum(e, rounds, i, nodeNum, k) == Means(RoundReadings(e, rounds, i, k))
  {
    hide Mean, Readings;
    if rounds == 0 {
    } else {
      assert e.vm(rounds - 1, i).Some?;
      AllRoundsSucceed(e, rounds - 1, i, nodeNum, k);
      var init := RoundReadings(e, rounds - 1, i, k);
      assert RoundReadings(e, rounds, i, k)[..rounds - 1] == init;
    }
  }

  lemma SingleReading(m: MonFiles, k: nat)
    requires NonNegative(m, SAMPLE_TIMES_INNER, k) && Readings(m, k, SAMPLE_TIMES_INNER) != []
    ensures var s := Readings(m, k, SAMPLE_TIMES_INNER); |s| == 1 && s[0] >= 0
  {
    assert Readings(m, k, 1) == [];
  }

  lemma SingleMean(s: seq<int>)
    requires |s| == 1 && s[0] >= 0
    ensures Sum(s) == Mean(s) == s[0] && RealMean(s) == s[0] as real
  {
    assert s[..0] == [];
  }

  lemma {:induction false} SingleReadings(e: Samples, rounds: nat, i: nat, k: nat)
    requires forall r | 0 <= r < rounds :: e.vm(r, i).Some? && NonNegative(e.vm(r, i).value, SAMPLE_TIMES_INNER, k)
    requires NoneEmpty(RoundReadings(e, rounds, i, k))
    ensures var ss := RoundReadings(e, rounds, i, k);
            && (forall j | 0 <= j < |ss| :: |ss[j]| == 1)
            && Means(ss) >= 0 && RealMeans(ss) == Means(ss) as real
  {
    hide NonNegative, Readings, Mean, RealMean;
    if rounds == 0 {
    } else {
      var ss := RoundReadings(e, rounds, i, k);
      assert e.vm(rounds - 1, i).Some?;
      var init, s := RoundReadings(e, rounds - 1, i, k), ss[rounds - 1];
      assert ss[..rounds - 1] == init;
      SingleReadings(e, rounds - 1, i, k);
      SingleReading(e.vm(rounds - 1, i).value, k);
      SingleMean(s);
    }
  }

  /** A VM all of whose rounds succeed with readings that are not negative shows the
      mean of the readings, rounded down: with the two inner samples the program
      takes, the first of which does not count, only the outer division loses. */
  lemma VmAverageBound(e: Samples, rounds: nat, i: nat, nodeNum: nat, k: nat)
    requires rounds > 0 && k < nodeNum && AllSucceed(e, rounds, i, nodeNum)
    requires forall r | 0 <= r < rounds :: e.vm(r, i).Some? && NonNegative(e.vm(r, i).value, SAMPLE_TIMES_INNER, k)
    ensures var ss := RoundReadings(e, rounds, i, k);
            var stored := Averaged(VmSum(e, rounds, i, nodeNum, k), VmTimes(e, rounds, i, nodeNum));
            && (forall j | 0 <= j < |ss| :: |ss[j]| == 1)
            && NoneEmpty(ss)
            && RealMeans(ss) / rounds as real - 1.0 < stored as real <= RealMeans(ss) / rounds as real
  {
    hide Succeeds, NonNegative, VmSum, VmTimes, RoundReadings;
    AllRoundsSucceed(e, rounds, i, nodeNum, k);
    SingleReadings(e, rounds, i, k);
    DivReal(Means(RoundReadings(e, rounds, i, k)), rounds);
  }

  /** The host's second readings of node k in the first rounds. */
  function HostReadings(e: Samples, rounds: nat, k: nat): (s: seq<int>)
    ensures |s| == rounds && forall r | 0 <= r < rounds :: s[r] == e.host(r).reading(1, k)
  {
    if rounds == 0 then [] else HostReadings(e, rounds - 1, k) + [e.host(rounds - 1).reading(1, k)]
  }

  lemma NoReadings()
    ensures Sum([]) == 0
  {
  }

  lemma ReadAdds(m: MonFiles, nodeNum: nat, k: nat)
    requires k < nodeNum && Reads(m, nodeNum)
    ensures Succeeds(m, nodeNum, SAMPLE_TIMES_INNER)
    ensures Added(m, nodeNum, SAMPLE_TIMES_INNER, k) == m.reading(1, k)
  {
    hide Succeeds, Added;
    AddedSecond(m, nodeNum, k);
  }

  lemma {:induction false} HostRoundsSucceed(e: Samples, rounds: nat, nodeNum: nat, k: nat)
    requires k < nodeNum && forall r | 0 <= r < rounds :: Reads(e.host(r), nodeNum)
    ensures HostTimes(e, rounds, nodeNum) == rounds
    ensures HostSum(e, rounds, nodeNum, k) == Sum(HostReadings(e, rounds, k))
  {
    hide Succeeds, Added, Sum, Reads;
    if rounds == 0 {
      NoReadings();
    } else {
      HostRoundsSucceed(e, rounds - 1, nodeNum, k);
      SumAppend(HostReadings(e, rounds - 1, k), e.host(rounds - 1).reading(1, k));
      ReadAdds(e.host(rounds - 1), nodeNum, k);
    }
  }

  /** A host all of whose rounds succeed has as its own part the mean of its readings,
      cut towards zero; so it is at most the mean and above it minus 1, if no reading is
      negative. */
  lemma HostAverageBound(e: Samples, rounds: nat, nodeNum: nat, k: nat)
    requires rounds > 0 && k < nodeNum && forall r | 0 <= r < rounds :: Reads(e.host(r), nodeNum)
    ensures var s := HostReadings(e, rounds, k);
            var own := Averaged(HostSum(e, rounds, nodeNum, k), HostTimes(e, rounds, nodeNum));
            && own == TruncDiv(Sum(s), rounds)
            && (AllNonNegative(s) ==> RealMean(s) - 1.0 < own as real <= RealMean(s))
  {
    hide HostSum, HostTimes, HostReadings, Reads, Sum;
    HostRoundsSucceed(e, rounds, nodeNum, k);
    var s := HostReadings(e, rounds, k);
    if AllNonNegative(s) {
      SumNonNegative(s);
      DivReal(Sum(s), rounds);
    }
  }
}
