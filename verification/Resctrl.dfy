/** src/resctrl.c: memory bandwidth readings of the resctrl file system. */
module Resctrl {
  import opened Words
  import opened Types
  import opened Text

  const SAMPLE_TIMES_INNER := 2
  const SAMPLE_TIMES_OUTER := 3
  const MON_DATA_PREFIX := "mon_MB_"
  const CTL_GROUP_PREFIX := "qemu-"

  /** The monitoring files of a group: which node's file opens, and what atol makes
      of each reading of it, -1 standing for a failed one. */
  datatype MonFiles = MonFiles(openable: nat -> bool, reading: (nat, nat) -> int)

  predicate Opened(m: MonFiles, nodeNum: nat) {
    forall k | 0 <= k < nodeNum :: m.openable(k)
  }

  /** The readings that count: round 0 only warms up, and -1 is a failure. */
  function Readings(m: MonFiles, node: nat, rounds: nat): seq<int> {
    if rounds <= 1 then []
    else
      var v := m.reading(rounds - 1, node);
      Readings(m, node, rounds - 1) + if v != -1 then [v] else []
  }

  function FirstSilentFrom(m: MonFiles, k: nat, nodeNum: nat, rounds: nat): (n: nat)
    requires k <= nodeNum
    ensures k <= n <= nodeNum
    ensures forall j | k <= j < n :: Readings(m, j, rounds) != []
    ensures n < nodeNum ==> Readings(m, n, rounds) == []
    decreases nodeNum - k
  {
    if k == nodeNum || Readings(m, k, rounds) == [] then k else FirstSilentFrom(m, k + 1, nodeNum, rounds)
  }

  /** The first node without a counted reading, or nodeNum. */
  function FirstSilent(m: MonFiles, nodeNum: nat, rounds: nat): (n: nat)
    ensures n <= nodeNum
    ensures forall k | 0 <= k < n :: Readings(m, k, rounds) != []
    ensures n < nodeNum ==> Readings(m, n, rounds) == []
  {
    FirstSilentFrom(m, 0, nodeNum, rounds)
  }

  function Mean(s: seq<int>): int
    requires s != []
  {
    TruncDiv(Sum(s), |s|)
  }

  predicate Succeeds(m: MonFiles, nodeNum: nat, rounds: nat) {
    Opened(m, nodeNum) && FirstSilent(m, nodeNum, rounds) == nodeNum
  }

  /** What get_mon_MB adds to node k. */
  function Added(m: MonFiles, nodeNum: nat, rounds: nat, k: nat): int {
    if Opened(m, nodeNum) && k < FirstSilent(m, nodeNum, rounds) then Mean(Readings(m, k, rounds)) else 0
  }

  predicate Counts(m: MonFiles, round: nat, node: nat) {
    m.reading(round, node) != -1 && round > 0
  }

  lemma ReadingsStep(m: MonFiles, node: nat, round: nat)
    ensures var s, s' := Readings(m, node, round), Readings(m, node, round + 1);
            && |s'| == |s| + (if Counts(m, round, node) then 1 else 0)
            && Sum(s') == Sum(s) + (if Counts(m, round, node) then m.reading(round, node) else 0)
  {
    var s, v := Readings(m, node, round), m.reading(round, node);
    SumAppend(s, v);
    assert round > 0 ==> Readings(m, node, round + 1) == if v != -1 then s + [v] else s;
  }

  /** get_mon_MB's inner sampling loop. */
  method SampleRound(m: MonFiles, nodeNum: nat, round: nat, sampleTimes: array<int>, bandwidthSum: array<int>)
    requires nodeNum <= MAX_NODE_NUM == sampleTimes.Length == bandwidthSum.Length && sampleTimes != bandwidthSum
    modifies sampleTimes, bandwidthSum
    ensures forall k | 0 <= k < nodeNum ::
      && sampleTimes[k] == old(sampleTimes[k]) + (if Counts(m, round, k) then 1 else 0)
      && bandwidthSum[k] == old(bandwidthSum[k]) + (if Counts(m, round, k) then m.reading(round, k) else 0)
  {
    for node := 0 to nodeNum
      invariant forall k | 0 <= k < node ::
        && sampleTimes[k] == old(sampleTimes[k]) + (if Counts(m, round, k) then 1 else 0)
        && bandwidthSum[k] == old(bandwidthSum[k]) + (if Counts(m, round, k) then m.reading(round, k) else 0)
      invariant forall k | node <= k < nodeNum ::
        sampleTimes[k] == old(sampleTimes[k]) && bandwidthSum[k] == old(bandwidthSum[k])
    {
      var v := m.reading(round, node);
      if v != -1 && round > 0 {
        bandwidthSum[node] := bandwidthSum[node] + v;
        sampleTimes[node] := sampleTimes[node] + 1;
      }
    }
  }

  /** get_mon_MB's sampling loops. */
  method SampleNodes(m: MonFiles, nodeNum: nat, rounds: nat, sampleTimes: array<int>, bandwidthSum: array<int>)
    requires nodeNum <= MAX_NODE_NUM == sampleTimes.Length == bandwidthSum.Length && sampleTimes != bandwidthSum
    requires forall k | 0 <= k < MAX_NODE_NUM :: sampleTimes[k] == bandwidthSum[k] == 0
    modifies sampleTimes, bandwidthSum
    ensures forall k | 0 <= k < nodeNum :: sampleTimes[k] == |Readings(m, k, rounds)|
    ensures forall k | 0 <= k < nodeNum :: bandwidthSum[k] == Sum(Readings(m, k, rounds))
  {
    for i := 0 to rounds
      invariant forall k | 0 <= k < nodeNum :: sampleTimes[k] == |Readings(m, k, i)|
      invariant forall k | 0 <= k < nodeNum :: bandwidthSum[k] == Sum(Readings(m, k, i))
    {
      SampleRound(m, nodeNum, i, sampleTimes, bandwidthSum);
      forall k | 0 <= k < nodeNum
        ensures sampleTimes[k] == |Readings(m, k, i + 1)| && bandwidthSum[k] == Sum(Readings(m, k, i + 1))
      {
        ReadingsStep(m, k, i);
      }
    }
  }

  /** All readings of a node but the first, which does not count, failed. */
  predicate Silent(m: MonFiles, node: nat, rounds: nat) {
    forall r | 1 <= r < rounds :: m.reading(r, node) == -1
  }

  lemma {:induction false} SilentIs(m: MonFiles, node: nat, rounds: nat)
    ensures Readings(m, node, rounds) == [] <==> Silent(m, node, rounds)
  {
    if rounds <= 1 {
    } else {
      SilentIs(m, node, rounds - 1);
      assert Silent(m, node, rounds) <==> Silent(m, node, rounds - 1) && m.reading(rounds - 1, node) == -1;
    }
  }

  /** What a sample does not add, and when it succeeds. */
  lemma AddedNothing(m: MonFiles, nodeNum: nat, rounds: nat)
    ensures forall k | nodeNum <= k :: Added(m, nodeNum, rounds, k) == 0
    ensures forall j, k | 0 <= j < nodeNum && !m.openable(j) && 0 <= k :: Added(m, nodeNum, rounds, k) == 0
    ensures forall j, k | 0 <= j < nodeNum && j <= k && Silent(m, j, rounds) :: Added(m, nodeNum, rounds, k) == 0
    ensures Succeeds(m, nodeNum, rounds) <==> forall j | 0 <= j < nodeNum :: m.openable(j) && !Silent(m, j, rounds)
  {
    hide Readings, Mean, Silent;
    forall j: nat
      ensures Readings(m, j, rounds) == [] <==> Silent(m, j, rounds)
    {
      SilentIs(m, j, rounds);
    }
  }

  /** With two inner rounds, of which one counts, a node's readings are its second. */
  lemma TwoRounds(m: MonFiles, k: nat)
    ensures var v := m.reading(1, k);
            Readings(m, k, SAMPLE_TIMES_INNER) == if v != -1 then [v] else []
    ensures m.reading(1, k) != -1 ==> Mean(Readings(m, k, SAMPLE_TIMES_INNER)) == m.reading(1, k)
  {
    assert Readings(m, k, 1) == [];
    var v := m.reading(1, k);
    assert Sum([v]) == v by { assert [v][..0] == []; }
  }

  /** With the two readings the program takes, the second is what a node adds; unless a
      file could not be opened, or the second reading failed for it or a node before. */
  lemma AddedSecond(m: MonFiles, nodeNum: nat, k: nat)
    ensures Added(m, nodeNum, SAMPLE_TIMES_INNER, k)
            == if (forall j | 0 <= j < nodeNum :: m.openable(j)) && k < nodeNum
                  && (forall j | 0 <= j <= k :: m.reading(1, j) != -1)
               then m.reading(1, k) else 0
    ensures Succeeds(m, nodeNum, SAMPLE_TIMES_INNER)
            <==> forall j | 0 <= j < nodeNum :: m.openable(j) && m.reading(1, j) != -1
  {
    hide Readings, Mean;
    forall j: nat
      ensures var v := m.reading(1, j);
              Readings(m, j, SAMPLE_TIMES_INNER) == if v != -1 then [v] else []
    {
      TwoRounds(m, j);
    }
    if m.reading(1, k) != -1 {
      TwoRounds(m, k);
    }
  }

  /** get_mon_MB: on success the mean of the counted readings is added to every node
      below nodeNum; a failure still adds it to the nodes before the first one
      without a counted reading, which are none if a file could not be opened. */
  method GetMonMB(bandwidth: array<int>, m: MonFiles, nodeNum: nat, rounds: nat) returns (ret: int)
    requires nodeNum <= MAX_NODE_NUM == bandwidth.Length
    modifies bandwidth
    ensures ret == if Succeeds(m, nodeNum, rounds) then 0 else -1
    ensures ret == 0 <==> forall j | 0 <= j < nodeNum :: m.openable(j) && !Silent(m, j, rounds)
    ensures forall k | 0 <= k < MAX_NODE_NUM :: bandwidth[k] == old(bandwidth[k]) + Added(m, nodeNum, rounds, k)
    ensures forall k | nodeNum <= k < MAX_NODE_NUM :: bandwidth[k] == old(bandwidth[k])
    ensures forall j | 0 <= j < nodeNum && !m.openable(j) :: bandwidth[..] == old(bandwidth[..])
    ensures forall j, k | 0 <= j < nodeNum && j <= k < MAX_NODE_NUM && Silent(m, j, rounds) ::
      bandwidth[k] == old(bandwidth[k])
  {
    hide Readings, TruncDiv, FirstSilent, Sum, Silent;
    AddedNothing(m, nodeNum, rounds);
    for node := 0 to nodeNum
      invariant forall k | 0 <= k < node :: m.openable(k)
    {
      if !m.openable(node) {
        return -1;
      }
    }
    var sampleTimes := new int[MAX_NODE_NUM](_ => 0);
    var bandwidthSum := new int[MAX_NODE_NUM](_ => 0);
    SampleNodes(m, nodeNum, rounds, sampleTimes, bandwidthSum);
    for i := 0 to nodeNum
      invariant i <= FirstSilent(m, nodeNum, rounds)
      invariant forall k | 0 <= k < nodeNum :: sampleTimes[k] == |Readings(m, k, rounds)|
      invariant forall k | 0 <= k < nodeNum :: bandwidthSum[k] == Sum(Readings(m, k, rounds))
      invariant forall k | 0 <= k < i :: bandwidth[k] == old(bandwidth[k]) + Mean(Readings(m, k, rounds))
      invariant forall k | i <= k < MAX_NODE_NUM :: bandwidth[k] == old(bandwidth[k])
    {
      if sampleTimes[i] == 0 {
        return -1;
      }
      bandwidth[i] := bandwidth[i] + TruncDiv(bandwidthSum[i], sampleTimes[i]);
    }
    ret := 0;
  }

  /** The node number of a directory entry, if it is one of at most MAX_NODE_NUM. */
  function NodeOf(name: string): Option<nat> {
    if MON_DATA_PREFIX <= name && 0 <= Atoi(name[|MON_DATA_PREFIX|..]) < MAX_NODE_NUM
    then Some(Atoi(name[|MON_DATA_PREFIX|..])) else None
  }

  /** Names as the kernel writes them, with two digits. */
  lemma NodeOfName(n: nat)
    requires n < 100
    ensures var digits := if n < 10 then "0" + Dec(n) else Dec(n);
            NodeOf(MON_DATA_PREFIX + digits) == if n < MAX_NODE_NUM then Some(n) else None
  {
    hide Dec, Atoi;
    var digits := if n < 10 then "0" + Dec(n) else Dec(n);
    AtoiDec(n, "");
    assert Dec(n) + "" == Dec(n) && "0" + Dec(n) + "" == "0" + Dec(n);
    assert (MON_DATA_PREFIX + digits)[|MON_DATA_PREFIX|..] == digits;
  }

  /** What the directories give for the node count, as get_numa_num reads it. */
  function NodeCount(dir: seq<string>): (n: nat)
    ensures n <= MAX_NODE_NUM
  {
    if dir == [] then 0
    else
      var n := NodeCount(dir[..|dir| - 1]);
      match NodeOf(dir[|dir| - 1])
      case None => n
      case Some(k) => if k + 1 > n then k + 1 else n
  }

  lemma {:induction false} NodeCountBounds(dir: seq<string>)
    ensures forall name | name in dir && NodeOf(name).Some? :: NodeOf(name).value < NodeCount(dir)
    ensures NodeCount(dir) > 0 ==> exists name | name in dir :: NodeOf(name) == Some(NodeCount(dir) - 1)
  {
    hide NodeOf;
    if dir == [] {
    } else {
      var init, last := dir[..|dir| - 1], dir[|dir| - 1];
      NodeCountBounds(init);
      assert forall name :: name in dir <==> name in init || name == last;
    }
  }

  lemma {:induction false} NodeCountIs(dir: seq<string>, max: int)
    requires forall name | name in dir && NodeOf(name).Some? :: NodeOf(name).value <= max
    requires max >= 0 ==> exists name | name in dir :: NodeOf(name) == Some(max)
    requires max >= -1
    ensures NodeCount(dir) == max + 1
  {
    NodeCountBounds(dir);
  }

  /** get_numa_num: the largest node number listed, and -1 if there is none or the
      directory cannot be opened; only then is the node count left alone. */
  method GetNumaNum(dir: Option<seq<string>>, nodeNum: int) returns (ret: int, newNodeNum: int)
    ensures dir.None? ==> ret == -1 && newNodeNum == nodeNum
    ensures dir.Some? ==> newNodeNum == ret + 1 == NodeCount(dir.value)
    ensures -1 <= ret < MAX_NODE_NUM
    ensures dir.Some? ==> forall name | name in dir.value && NodeOf(name).Some? :: NodeOf(name).value <= ret
    ensures ret >= 0 ==> exists name | name in dir.value :: NodeOf(name) == Some(ret)
  {
    if dir.None? {
      return -1, nodeNum;
    }
    var maxNode := -1;
    for i := 0 to |dir.value|
      invariant -1 <= maxNode < MAX_NODE_NUM
      invariant forall name | name in dir.value[..i] && NodeOf(name).Some? :: NodeOf(name).value <= maxNode
      invariant maxNode >= 0 ==> exists name | name in dir.value :: NodeOf(name) == Some(maxNode)
    {
      var name := dir.value[i];
      assert name in dir.value && dir.value[..i + 1] == dir.value[..i] + [name];
      if MON_DATA_PREFIX <= name {
        var curNode := Atoi(name[|MON_DATA_PREFIX|..]);
        if 0 <= curNode < MAX_NODE_NUM {
          assert NodeOf(name) == Some(curNode);
          maxNode := if curNode > maxNode then curNode else maxNode;
        }
      }
    }
    assert dir.value[..|dir.value|] == dir.value;
    NodeCountIs(dir.value, maxNode);
    return maxNode, maxNode + 1;
  }

  /** snprintf "qemu-%d". */
  function CtlPrefix(id: int): string {
    CTL_GROUP_PREFIX + if id < 0 then "-" + Dec(-id) else Dec(id)
  }

  /** strncmp with it: the test get_vm_ctl_path makes of an entry. */
  predicate IsCtlGroup(name: string, id: int) {
    CtlPrefix(id) <= name
  }

  /** Index of the first entry that passes it, or the length if there is none. */
  function FirstGroup(dir: seq<string>, id: int): (i: nat)
    ensures i <= |dir|
    ensures forall k | 0 <= k < i :: !IsCtlGroup(dir[k], id)
    ensures i < |dir| ==> IsCtlGroup(dir[i], id)
  {
    if dir == [] || IsCtlGroup(dir[0], id) then 0 else 1 + FirstGroup(dir[1..], id)
  }

  lemma PassesTest(name: string, id: int)
    ensures IsCtlGroup(name, id) == (CtlPrefix(id) <= name)
  {
  }

  /** get_vm_ctl_path: the first matching entry, or -1. */
  method GetVmCtlPath(dir: seq<string>, id: int) returns (i: int)
    ensures i == if FirstGroup(dir, id) < |dir| then FirstGroup(dir, id) else -1
  {
    hide IsCtlGroup, FirstGroup;
    var prefix := CtlPrefix(id);
    for k := 0 to |dir|
      invariant forall j | 0 <= j < k :: !IsCtlGroup(dir[j], id)
    {
      assert IsCtlGroup(dir[k], id) == (prefix <= dir[k]) by { PassesTest(dir[k], id); }
      if prefix <= dir[k] {
        return k;
      }
    }
    return -1;
  }

  /** The monitoring files get_vm_ctl_bandwidth opens: those of the group found, if
      the directory can be opened and has one. */
  function GroupFiles(dir: Option<seq<string>>, id: int, files: string -> MonFiles): Option<MonFiles> {
    if dir.None? || FirstGroup(dir.value, id) == |dir.value| then None
    else Some(files(dir.value[FirstGroup(dir.value, id)]))
  }

  /** The digits behind "qemu-" in a name. */
  function GroupDigits(name: string): string {
    if CTL_GROUP_PREFIX <= name
    then name[|CTL_GROUP_PREFIX|..][..DigitRun(name[|CTL_GROUP_PREFIX|..])]
    else ""
  }

  lemma PrefixAfter(p: string, a: string, name: string)
    ensures p + a <= name <==> p <= name && a <= name[|p|..]
  {
    if p + a <= name {
      assert name[..|p| + |a|] == p + a;
      assert name[|p|..][..|a|] == name[|p|..|p| + |a|] == a;
      assert name[..|p|] == (p + a)[..|p|] == p;
    }
    if p <= name && a <= name[|p|..] {
      assert name == p + name[|p|..];
      assert name[|p|..] == a + name[|p|..][|a|..];
      assert name == p + a + name[|p|..][|a|..];
    }
  }

  /** A run of digits at the start of a text is a prefix of its longest such run. */
  lemma DigitsFirst(a: string, text: string)
    requires forall k | 0 <= k < |a| :: IsDigit(a[k])
    ensures a <= text <==> a <= text[..DigitRun(text)]
  {
    var n := DigitRun(text);
    if a <= text {
      assert forall k | 0 <= k < |a| :: text[k] == a[k] && k != n;
      assert a == text[..|a|] == text[..n][..|a|];
    }
    if a <= text[..n] {
      assert a == text[..n][..|a|] == text[..|a|];
    }
  }

  /** An entry passes the test for `id` when its digits merely start with those of
      `id`: a group of domain 12 is taken for one of domain 1. */
  lemma GroupMatches(name: string, id: nat)
    ensures IsCtlGroup(name, id) <==> CTL_GROUP_PREFIX <= name && Dec(id) <= GroupDigits(name)
  {
    hide Dec, DigitRun;
    var p, a := CTL_GROUP_PREFIX, Dec(id);
    DecIsDigits(id);
    forall k | 0 <= k < |a|
      ensures IsDigit(a[k])
    {
      assert a[k] in a;
    }
    PrefixAfter(p, a, name);
    if p <= name {
      DigitsFirst(a, name[|p|..]);
    }
  }

  /** An entry is a group of the domain. */
  predicate IsOwnGroup(name: string, id: nat) {
    CTL_GROUP_PREFIX <= name && GroupDigits(name) == Dec(id)
  }

  /** An entry's digits are those of the domain and more. */
  predicate IsMistaken(name: string, id: nat) {
    CTL_GROUP_PREFIX <= name && Dec(id) < GroupDigits(name)
  }

  /** Index of the domain's first own group, or the length if it has none. */
  function FirstOwn(dir: seq<string>, id: nat): (i: nat)
    ensures i <= |dir|
    ensures forall k | 0 <= k < i :: !IsOwnGroup(dir[k], id)
    ensures i < |dir| ==> IsOwnGroup(dir[i], id)
  {
    if dir == [] || IsOwnGroup(dir[0], id) then 0 else 1 + FirstOwn(dir[1..], id)
  }

  /** So in any directory what is found is the domain's first own group, or nothing
      when it has none, if and only if no entry before that group, or anywhere, has the
      domain's digits and more; if one has, the first such entry is found. */
  lemma GroupFound(dir: seq<string>, id: nat)
    ensures FirstGroup(dir, id) <= FirstOwn(dir, id)
    ensures FirstGroup(dir, id) == FirstOwn(dir, id)
            <==> forall k | 0 <= k < FirstOwn(dir, id) :: !IsMistaken(dir[k], id)
    ensures FirstGroup(dir, id) < FirstOwn(dir, id) ==> IsMistaken(dir[FirstGroup(dir, id)], id)
  {
    hide GroupDigits, IsCtlGroup, Dec, FirstGroup, FirstOwn;
    forall k | 0 <= k < |dir|
      ensures IsCtlGroup(dir[k], id) <==> IsOwnGroup(dir[k], id) || IsMistaken(dir[k], id)
    {
      GroupMatches(dir[k], id);
    }
  }
}
