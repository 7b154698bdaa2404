/** Bandwidth samples for which the columns are not what they seem to be. */
module BandwidthCases {
  import opened Words
  import opened Types
  import opened Text
  import opened Resctrl
  import opened Bandwidth
  import opened BandwidthLaws

  /** Files from which node 0 always reads v. */
  function Constant(v: int): MonFiles {
    MonFiles(_ => true, (round, node) => v)
  }

  lemma ConstantAdds(v: int)
    requires v != -1
    ensures Succeeds(Constant(v), 1, SAMPLE_TIMES_INNER)
    ensures Added(Constant(v), 1, SAMPLE_TIMES_INNER, 0) == v
  {
    hide Readings, Mean;
    TwoRounds(Constant(v), 0);
    assert FirstSilent(Constant(v), 1, SAMPLE_TIMES_INNER) == 1;
  }

  const OWN := "qemu-1-a"
  const OTHER := "qemu-12-b"

  /** One machine, of id 1, whose group stands behind that of machine 12. */
  function Behind(): Samples {
    Samples([1], (r, i) => Some([OTHER, OWN]), (r, i) => name => Constant(if name == OTHER then 700 else 5),
            r => Constant(0))
  }

  /** One machine, of id 1, alone; v is what it reads. */
  function Alone(v: int): Samples {
    Samples([1], (r, i) => Some([OWN]), (r, i) => name => Constant(v), r => Constant(0))
  }

  /** The same on two nodes: in round 0 node 0 reads 6 and node 1 nothing. */
  function HalfRead(): Samples {
    Samples([1], (r, i) => Some([OWN]),
            (r, i) => name => MonFiles(_ => true, (round, node) => if r > 0 then 0 else if node == 0 then 6 else -1),
            r => Constant(0))
  }

  lemma Digits()
    ensures Dec(1) == "1" && Dec(12) == "12"
  {
    assert Dec(12) == Dec(1) + [Digit(2)];
  }

  lemma Found()
    ensures FirstGroup([OWN], 1) == 0 && FirstGroup([OTHER, OWN], 1) == 0
  {
    Digits();
    assert CtlPrefix(1) == "qemu-1";
    assert CtlPrefix(1) <= OWN && CtlPrefix(1) <= OTHER;
  }

  /** What one machine's node 0 adds up to, if every round reads v. */
  lemma ThreeRounds(e: Samples, v: int)
    requires v != -1 && forall r: nat | r < 3 :: e.vm(r, 0) == Some(Constant(v))
    ensures VmSum(e, SAMPLE_TIMES_OUTER, 0, 1, 0) == 3 * v && VmTimes(e, SAMPLE_TIMES_OUTER, 0, 1) == 3
  {
    hide Succeeds, Added, Samples.vm, Constant;
    ConstantAdds(v);
    assert VmSum(e, 1, 0, 1, 0) == v && VmTimes(e, 1, 0, 1) == 1;
    assert VmSum(e, 2, 0, 1, 0) == 2 * v && VmTimes(e, 2, 0, 1) == 2;
  }

  /** Machine 1 shows the readings of machine 12's group. */
  lemma WrongGroupShown()
    ensures var e, r := Behind(), SAMPLE_TIMES_OUTER;
            && Sized([ZERO_BUF])
            && BufsBelow(VmBufs(e, [ZERO_BUF], r, 1), AllTimes(e, 1, r, 1), 1)[0][0] == 700
  {
    hide VmBufs, BufsBelow, AllTimes, VmSum, VmTimes, Constant, FirstGroup;
    var e := Behind();
    Found();
    forall r: nat | r < 3
      ensures e.vm(r, 0) == Some(Constant(700))
    {
    }
    ThreeRounds(e, 700);
    assert Repeat(ZERO_BUF, 1) == [ZERO_BUF];
    VmColumn(e, 1, 0, 1, 0);
  }

  lemma IdleHost(e: Samples)
    requires forall r: nat | r < 3 :: e.host(r) == Constant(0)
    ensures HostSum(e, SAMPLE_TIMES_OUTER, 1, 0) == 0
  {
    hide Added, Constant;
    ConstantAdds(0);
    assert HostSum(e, 1, 1, 0) == 0;
    assert HostSum(e, 2, 1, 0) == 0;
  }

  /** A single machine that reads -3 makes an idle host show almost 2^32. */
  lemma NegativeReadingWraps()
    ensures var e, r := Alone(-3), SAMPLE_TIMES_OUTER;
            && Sized([ZERO_BUF])
            && HostBelow(HostBuf(e, ZERO_BUF, r, 1), HostTimes(e, r, 1),
                         VmBufs(e, [ZERO_BUF], r, 1), AllTimes(e, 1, r, 1), 1)[0]
               == TWO32 - 3
  {
    hide VmBuf, BufsBelow, VmSum, VmTimes, Constant, FirstGroup, HostBelow, HostBuf, HostSum, HostTimes;
    var e, r := Alone(-3), SAMPLE_TIMES_OUTER;
    Found();
    assert forall q: nat | q < 3 :: e.vm(q, 0) == Some(Constant(-3));
    ThreeRounds(e, -3);
    IdleHost(e);
    HostBelowAt(HostBuf(e, ZERO_BUF, r, 1), HostTimes(e, r, 1), VmBufs(e, [ZERO_BUF], r, 1),
                AllTimes(e, 1, r, 1), 1, 0);
    HostBufAt(e, ZERO_BUF, r, 1, 0);
    VmBufAt(e, ZERO_BUF, r, 0, 1, 0);
    var sums, times := Column(VmBufs(e, [ZERO_BUF], r, 1), 0), AllTimes(e, 1, r, 1);
    assert sums == [-9] && times == [3];
    assert VmTotal(sums, times, 0) == 0;
    assert VmTotal(sums, times, 1) == -3;
  }

  lemma HalfRound(r: nat)
    requires r < 3
    ensures VmSucceeds(HalfRead(), r, 0, 2) <==> r > 0
    ensures VmAdded(HalfRead(), r, 0, 2, 0) == if r == 0 then 6 else 0
  {
    hide Readings, Mean, FirstGroup;
    var e := HalfRead();
    Found();
    TwoRounds(e.vm(r, 0).value, 0);
    TwoRounds(e.vm(r, 0).value, 1);
  }

  /** Two successful rounds that read 0 and a failed one that had already added 6: the
      column shows 3 instead of 0. */
  lemma FailedRoundShown()
    ensures var e, r := HalfRead(), SAMPLE_TIMES_OUTER;
            && Sized([ZERO_BUF])
            && VmTimes(e, r, 0, 2) == 2 && VmGood(e, r, 0, 2, 0) == 0
            && BufsBelow(VmBufs(e, [ZERO_BUF], r, 2), AllTimes(e, 1, r, 2), 2)[0][0] == 3
  {
    hide VmBufs, BufsBelow, AllTimes, VmSucceeds, VmAdded, HalfRead;
    var e := HalfRead();
    HalfRound(0);
    HalfRound(1);
    HalfRound(2);
    assert VmSum(e, 1, 0, 2, 0) == 6 && VmTimes(e, 1, 0, 2) == 0 && VmGood(e, 1, 0, 2, 0) == 0;
    assert VmSum(e, 2, 0, 2, 0) == 6 && VmTimes(e, 2, 0, 2) == 1 && VmGood(e, 2, 0, 2, 0) == 0;
    assert Repeat(ZERO_BUF, 1) == [ZERO_BUF];
    VmColumn(e, 1, 0, 2, 0);
  }

  /** No machine, and two nodes: in every round node 0 of the host reads 6 and node 1
      nothing. */
  function UnreadHost(): Samples {
    Samples([], (r, i) => None, (r, i) => name => Constant(0),
            r => MonFiles(_ => true, (round, node) => if node == 0 then 6 else -1))
  }

  /** No round succeeds, and the host shows the sum of what they added, 18. */
  lemma UnreadHostShown()
    ensures var e, r := UnreadHost(), SAMPLE_TIMES_OUTER;
            && Sized([])
            && HostTimes(e, r, 2) == 0 && HostGood(e, r, 2, 0) == 0
            && HostBelow(HostBuf(e, ZERO_BUF, r, 2), HostTimes(e, r, 2),
                         VmBufs(e, [], r, 2), AllTimes(e, 0, r, 2), 2)[0]
               == 18
  {
    hide VmBufs, AllTimes, HostBelow, HostBuf, Readings, Mean;
    var e, r := UnreadHost(), SAMPLE_TIMES_OUTER;
    forall q: nat | q < 3
      ensures !Succeeds(e.host(q), 2, SAMPLE_TIMES_INNER) && Added(e.host(q), 2, SAMPLE_TIMES_INNER, 0) == 6
    {
      TwoRounds(e.host(q), 0);
      TwoRounds(e.host(q), 1);
    }
    hide Succeeds, Added;
    assert HostSum(e, 1, 2, 0) == 6 && HostTimes(e, 1, 2) == 0 && HostGood(e, 1, 2, 0) == 0;
    assert HostSum(e, 2, 2, 0) == 12 && HostTimes(e, 2, 2) == 0 && HostGood(e, 2, 2, 0) == 0;
    HostBufAt(e, ZERO_BUF, r, 2, 0);
    var sums, times := VmBufs(e, [], r, 2), AllTimes(e, 0, r, 2);
    HostBelowAt(HostBuf(e, ZERO_BUF, r, 2), 0, sums, times, 2, 0);
    assert VmTotal(Column(sums, 0), times, 0) == 0;
  }
}
