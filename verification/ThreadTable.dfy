/** What get_child_pid leaves in the thread table, for any directory contents. */
module ThreadTable {
  import opened Types
  import opened Text
  import opened Proc
  import opened VcpuStat
  import opened DomainLists
  import opened Loader

  /** The record of a task, if it is read successfully. */
  function GoodTask(e: TaskEntry, ppid: int, table: Table): (r: seq<Task>)
    requires table.num <= |table.rows|
    ensures |r| <= 1
  {
    if IsDots(e.name) || !e.isDir || e.Pid() < 1 then []
    else
      match TaskRecord(ZERO_TASK, e.Pid(), ppid, e.stat, table)
      case None => []
      case Some(t) => [t]
  }

  /** The records of all successfully read threads, in directory order. */
  function GoodTasks(entries: seq<TaskEntry>, ppid: int, table: Table): seq<Task>
    requires table.num <= |table.rows|
  {
    if entries == [] then []
    else GoodTask(entries[0], ppid, table) + GoodTasks(entries[1..], ppid, table)
  }

  /** A read thread's record: a vCPU is whatever has "CPU" in its name, with or
      without a row in the vcpu_stat table; its table counters are those of the first
      row of its pid, and otherwise what the record held before. */
  lemma RecordContents(t: Task, pid: int, ppid: int, stat: Option<StatFile>, table: Table)
    requires table.num <= |table.rows| && TaskRecord(t, pid, ppid, stat, table).Some?
    ensures var u, i := TaskRecord(t, pid, ppid, stat, table).value, FirstPid(table.rows[..table.num], pid);
            && stat.Some? && Comm(stat.value.text) == Some(u.vmname)
            && u.pid == pid && u.ppid == stat.value.ppid
            && u.stat[UTIME] == stat.value.utime && u.stat[STIME] == stat.value.stime
            && u.delta == t.delta && u.smpVcpus == 1
            && (u.typ == ISVCPU <==> Contains(u.vmname, "CPU"))
            && (forall r | 1 <= r < VCPU_STAT_SIZE ::
                  u.stat[r] == if u.typ == ISVCPU && i < table.num then table.rows[i].stat[r] else t.stat[r])
  {
    hide Comm, Contains;
  }

  function VcpuCount(threads: seq<Task>): nat {
    if threads == [] then 0
    else VcpuCount(threads[..|threads| - 1]) + if threads[|threads| - 1].typ == ISVCPU then 1 else 0
  }

  /** A record for which reading a stat file failed: no counter, no name, not a vCPU. */
  predicate Partial(t: Task) {
    t == ZERO_TASK.(pid := t.pid, typ := t.typ, ppid := t.ppid) && t.typ != ISVCPU
  }

  /** The table holds `done` and, behind it, at most one partly written record. */
  ghost predicate Holds(s: Slots, n: nat, done: seq<Task>) {
    && |s.threads| == n
    && s.filled == |done| <= n
    && s.threads[..s.filled] == done
    && (s.filled < n ==> Partial(s.threads[s.filled]))
    && (forall k | s.filled < k < n :: s.threads[k] == ZERO_TASK)
    && s.vcpus == VcpuCount(done)
  }

  function Min(a: nat, b: nat): nat {
    if a <= b then a else b
  }

  lemma TableStep(s: Slots, n: nat, done: seq<Task>, e: TaskEntry, ppid: int, table: Table)
    requires Holds(s, n, done) && s.filled < n && table.num <= |table.rows|
    ensures Holds(ReadTask(s, e, ppid, table), n, done + GoodTask(e, ppid, table))
  {
    hide Comm, WithVcpuStat;
    var t := s.threads[s.filled];
    assert t.(pid := e.Pid(), typ := ISTHREAD, ppid := ppid)
           == ZERO_TASK.(pid := e.Pid(), typ := ISTHREAD, ppid := ppid);
    assert TaskRecord(t, e.Pid(), ppid, e.stat, table) == TaskRecord(ZERO_TASK, e.Pid(), ppid, e.stat, table);
    var good := GoodTask(e, ppid, table);
    if good != [] {
      assert (done + good)[..|done|] == done;
    } else {
      assert done + good == done;
    }
  }

  lemma HoldsSizes(s: Slots, n: nat, done: seq<Task>)
    requires Holds(s, n, done)
    ensures |s.threads| == n && s.filled == |done| <= n
  {
  }

  lemma {:induction false} TableRun(s: Slots, n: nat, done: seq<Task>, entries: seq<TaskEntry>, ppid: int, table: Table)
    requires Holds(s, n, done) && table.num <= |table.rows|
    ensures var good := GoodTasks(entries, ppid, table);
            Holds(ReadTasks(s, entries, ppid, table), n, done + good[..Min(|good|, n - |done|)])
    decreases |entries|
  {
    hide ReadTask, GoodTask, Holds;
    HoldsSizes(s, n, done);
    var good := GoodTasks(entries, ppid, table);
    if entries == [] || |done| == n {
      assert done + good[..0] == done;
    } else {
      var first, rest := GoodTask(entries[0], ppid, table), GoodTasks(entries[1..], ppid, table);
      TableStep(s, n, done, entries[0], ppid, table);
      var s' := ReadTask(s, entries[0], ppid, table);
      HoldsSizes(s', n, done + first);
      TableRun(s', n, done + first, entries[1..], ppid, table);
      var k := Min(|rest|, n - |done + first|);
      assert done + first + rest[..k] == done + good[..Min(|good|, n - |done|)];
    }
  }

  lemma {:induction false} VcpuCountAppend(a: seq<Task>, b: seq<Task>)
    ensures VcpuCount(a + b) == VcpuCount(a) + VcpuCount(b)
    decreases |b|
  {
    if b == [] {
      assert a + b == a;
    } else {
      assert (a + b)[..|a + b| - 1] == a + b[..|b| - 1];
      VcpuCountAppend(a, b[..|b| - 1]);
    }
  }

  lemma {:induction false} NoVcpuCount(threads: seq<Task>)
    requires forall t | t in threads :: t.typ != ISVCPU
    ensures VcpuCount(threads) == 0
  {
    if threads == [] {
    } else {
      assert threads[|threads| - 1] in threads;
      NoVcpuCount(threads[..|threads| - 1]);
    }
  }

  lemma TableCount(s: Slots, n: nat, done: seq<Task>)
    requires Holds(s, n, done)
    ensures s.vcpus == VcpuCount(s.threads)
  {
    assert s.threads == s.threads[..s.filled] + s.threads[s.filled..];
    VcpuCountAppend(s.threads[..s.filled], s.threads[s.filled..]);
    NoVcpuCount(s.threads[s.filled..]);
  }

  /** The thread table of n records: the first records are the successfully read
      tasks in directory order, as many as fit; at most the record behind them is
      partly written, the others are cleared; and the vCPU count is the number of
      vCPU records in the whole table. */
  lemma TableContents(n: nat, entries: seq<TaskEntry>, ppid: int, table: Table)
    requires table.num <= |table.rows|
    ensures var s, good := ReadTasks(EmptySlots(n), entries, ppid, table), GoodTasks(entries, ppid, table);
            && |s.threads| == n
            && s.filled == Min(|good|, n)
            && s.threads[..s.filled] == good[..s.filled]
            && (s.filled < n ==> Partial(s.threads[s.filled]))
            && (forall k | s.filled < k < n :: s.threads[k] == ZERO_TASK)
            && s.vcpus == VcpuCount(s.threads)
  {
    hide GoodTasks, ReadTasks;
    assert Holds(EmptySlots(n), n, []);
    TableRun(EmptySlots(n), n, [], entries, ppid, table);
    var s, good := ReadTasks(EmptySlots(n), entries, ppid, table), GoodTasks(entries, ppid, table);
    assert [] + good[..Min(|good|, n)] == good[..Min(|good|, n)];
    TableCount(s, n, good[..Min(|good|, n)]);
  }

  /** A thread record that no refresh has touched yet. */
  predicate FreshThread(t: Task) {
    && t.delta == ZERO_COUNTERS
    && t.smpVcpus <= 1
    && (t.typ == ISVCPU ==> t.smpVcpus == 1)
    && (t.typ != ISVCPU ==> forall r | 0 <= r < VCPU_STAT_SIZE :: t.stat[r] == 0)
  }

  /** A domain as get_qemu_id leaves it. */
  ghost predicate FreshDom(d: Dom) {
    && d.task.delta == ZERO_COUNTERS
    && d.task.threads == NULL
    && (forall r | 0 <= r < VCPU_STAT_SIZE :: d.task.stat[r] == 0)
    && d.task.smpVcpus == VcpuCount(d.threads)
    && |d.threads| == d.task.nlwp
    && forall t | t in d.threads :: FreshThread(t)
  }

  lemma {:induction false} GoodTasksFresh(entries: seq<TaskEntry>, ppid: int, table: Table)
    requires table.num <= |table.rows|
    ensures forall t | t in GoodTasks(entries, ppid, table) :: FreshThread(t)
  {
    hide Comm, FirstPid;
    if entries == [] {
    } else {
      GoodTasksFresh(entries[1..], ppid, table);
    }
  }

  lemma PartialFresh(t: Task)
    requires Partial(t) || t == ZERO_TASK
    ensures FreshThread(t)
  {
  }

  lemma TableFresh(n: nat, entries: seq<TaskEntry>, ppid: int, table: Table)
    requires table.num <= |table.rows|
    ensures var s := ReadTasks(EmptySlots(n), entries, ppid, table);
            |s.threads| == n && forall k | 0 <= k < n :: FreshThread(s.threads[k])
  {
    hide ReadTasks, GoodTasks, FreshThread, Partial, VcpuCount;
    TableContents(n, entries, ppid, table);
    GoodTasksFresh(entries, ppid, table);
    var s, good := ReadTasks(EmptySlots(n), entries, ppid, table), GoodTasks(entries, ppid, table);
    forall k | 0 <= k < n
      ensures FreshThread(s.threads[k])
    {
      if k < s.filled {
        assert s.threads[..s.filled][k] == good[..s.filled][k];
        assert good[k] in good;
      } else {
        PartialFresh(s.threads[k]);
      }
    }
  }

  lemma LoadedFresh(f: PidFile, monitorId: int, table: Table)
    requires |f.name| > 4 && table.num <= |table.rows|
    ensures var r := LoadDomain(f, monitorId, table); r.Loaded? ==> FreshDom(r.dom)
  {
    hide ReadTasks, Comm, FreshThread, VcpuCount, Partial;
    LoadedShape(f, monitorId, table);
    var r := LoadDomain(f, monitorId, table);
    if r.Loaded? {
      TableContents(r.dom.task.nlwp, f.tasks.value, r.dom.task.pid, table);
      TableFresh(r.dom.task.nlwp, f.tasks.value, r.dom.task.pid, table);
    }
  }

  lemma {:induction false} LoadAllFresh(files: seq<PidFile>, monitorId: int, table: Table)
    requires table.num <= |table.rows|
    ensures forall d | d in LoadAll(files, monitorId, table).doms :: FreshDom(d)
  {
    hide FreshDom, LoadDomain;
    if files == [] {
    } else {
      LoadAllFresh(files[1..], monitorId, table);
      if !Skipped(files[0]) {
        LoadedFresh(files[0], monitorId, table);
      }
    }
  }

  /** Records of the same pid cannot be told apart by a join. */
  ghost predicate PidDetermines(ts: seq<Task>) {
    forall i, j | 0 <= i < |ts| && 0 <= j < |ts| && ts[i].pid == ts[j].pid ::
      ts[i].stat == ts[j].stat && ts[i].delta == ts[j].delta && (ts[i].typ == ISVCPU <==> ts[j].typ == ISVCPU)
  }

  /** No two records up to the partly written one share a pid other than 0, and all
      pids come from `seen`. */
  ghost predicate PidsDistinct(s: Slots, seen: set<int>) {
    && s.filled <= |s.threads|
    && (forall k | 0 <= k < s.filled :: s.threads[k].pid >= 1)
    && (forall k | 0 <= k < |s.threads| && s.threads[k].pid != 0 :: k <= s.filled && s.threads[k].pid in seen)
    && (forall i, j | 0 <= i < j < |s.threads| && s.threads[i].pid != 0 :: s.threads[j].pid != s.threads[i].pid)
  }

  lemma DistinctStep(s: Slots, e: TaskEntry, ppid: int, table: Table, seen: set<int>)
    requires PidsDistinct(s, seen) && s.filled < |s.threads| && table.num <= |table.rows|
    requires e.Pid() >= 1 ==> e.Pid() !in seen
    ensures PidsDistinct(ReadTask(s, e, ppid, table), seen + {e.Pid()})
  {
    hide Comm, WithVcpuStat;
    var t := s.threads[s.filled];
    if TaskRecord(t, e.Pid(), ppid, e.stat, table).Some? {
      RecordContents(t, e.Pid(), ppid, e.stat, table);
    }
  }

  lemma {:induction false} DistinctRun(s: Slots, entries: seq<TaskEntry>, ppid: int, table: Table, seen: set<int>)
    returns (all: set<int>)
    requires PidsDistinct(s, seen) && table.num <= |table.rows|
    requires forall k | 0 <= k < |entries| :: entries[k].Pid() >= 1 ==> entries[k].Pid() !in seen
    requires forall i, j | 0 <= i < j < |entries| :: entries[i].Pid() >= 1 ==> entries[i].Pid() != entries[j].Pid()
    ensures PidsDistinct(ReadTasks(s, entries, ppid, table), all)
    decreases |entries|
  {
    hide ReadTask;
    all := seen;
    if entries == [] || s.filled == |s.threads| {
    } else {
      DistinctStep(s, entries[0], ppid, table, seen);
      all := DistinctRun(ReadTask(s, entries[0], ppid, table), entries[1..], ppid, table, seen + {entries[0].Pid()});
    }
  }

  lemma DistinctDetermines(s: Slots, seen: set<int>)
    requires PidsDistinct(s, seen)
    requires s.filled < |s.threads| ==> Partial(s.threads[s.filled])
    requires forall k | s.filled < k < |s.threads| :: s.threads[k] == ZERO_TASK
    ensures PidDetermines(s.threads)
  {
    forall i, j | 0 <= i < |s.threads| && 0 <= j < |s.threads| && s.threads[i].pid == s.threads[j].pid
      ensures i == j || (i >= s.filled && j >= s.filled)
    {
      if s.threads[i].pid != 0 {
        assert !(i < j) && !(j < i);
      }
    }
  }

  /** No number is listed twice. */
  predicate NumbersDistinct(entries: seq<TaskEntry>) {
    forall i, j | 0 <= i < j < |entries| :: entries[i].Pid() >= 1 ==> entries[i].Pid() != entries[j].Pid()
  }

  /** When a task directory lists no number twice, pids are decisive in the table
      read from it, unused and partly written records included. */
  lemma TableDetermines(n: nat, entries: seq<TaskEntry>, ppid: int, table: Table)
    requires table.num <= |table.rows| && NumbersDistinct(entries)
    ensures PidDetermines(ReadTasks(EmptySlots(n), entries, ppid, table).threads)
  {
    hide ReadTasks, GoodTasks, PidDetermines;
    TableContents(n, entries, ppid, table);
    assert PidsDistinct(EmptySlots(n), {});
    var all := DistinctRun(EmptySlots(n), entries, ppid, table, {});
    DistinctDetermines(ReadTasks(EmptySlots(n), entries, ppid, table), all);
  }
}
