/** Files as the kernel, libvirt and QEMU write them, for the concrete cases. */
module Examples {
  import opened Words
  import opened Types
  import opened Text
  import opened Proc
  import opened VcpuStat
  import opened DomainLists
  import opened Loader
  import opened Refresh
  import opened Leaks
  import opened VcpuText
  import opened ThreadTable
  import opened Aggregation
  import opened Orders
  import opened Listings
  import opened Runs

  /** "(comm)" and the numbers behind it. */
  function Stat(comm: string, nlwp: int, utime: u64): StatFile {
    var text: StatText := "(" + comm + ")";
    StatFile(text, 1, nlwp, utime, 0)
  }

  lemma StatComm(comm: string, nlwp: int, utime: u64)
    requires '(' !in comm && |comm| < DOMAIN_NAME_MAX
    ensures Comm(Stat(comm, nlwp, utime).text) == Some(comm)
  {
    CommRecovery("", comm, "");
    assert "" + "(" + comm + ")" + "" == "(" + comm + ")";
  }

  function Entry(pid: nat, stat: Option<StatFile>): TaskEntry {
    TaskEntry(Dec(pid), true, stat)
  }

  lemma SmallPid(pid: nat)
    requires pid < 1000
    ensures ParsePid(Dec(pid)) == pid && |Dec(pid)| < PID_STRING_MAX
    ensures !IsDots(Dec(pid))
  {
    hide Dec, ScanUnsigned;
    ScanDec(pid);
    assert Pow10(3) == 1000 by { assert Pow10(2) == 100; }
    DecLength(pid, 3);
    DecIsDigits(pid);
    assert Dec(pid)[0] in Dec(pid);
  }

  function Cgroup(id: nat): string {
    CPUSET + MACHINE + Dec(id) + "" + "\n" + ""
  }

  lemma {:induction false} TooShort(s: string, word: string)
    requires |s| < |word|
    ensures !Contains(s, word)
  {
    if s == [] {
    } else {
      TooShort(s[1..], word);
    }
  }

  lemma CgroupIs(id: nat)
    requires id < 1000
    ensures CgroupId(Cgroup(id)) == id
  {
    hide Dec, CgroupId, Contains;
    assert Pow10(3) == 1000 by { assert Pow10(2) == 100; }
    DecLength(id, 3);
    TooShort(CPUSET, MACHINE);
    assert Contains(CPUSET, CPUSET) by { ContainsAt(CPUSET, CPUSET, 0); }
    CgroupIdRead(CPUSET, id, "", "");
  }

  /** The pid file of a machine whose main process has this pid. */
  function File(name: string, pid: nat, id: nat, stat: StatFile, tasks: seq<TaskEntry>): PidFile {
    PidFile(name, true, Some(Dec(pid)), Some(Cgroup(id)), Some(stat), Some(tasks), true, true)
  }

  lemma FileIs(name: string, pid: nat, id: nat, stat: StatFile, tasks: seq<TaskEntry>)
    requires pid < 1000 && id < 1000
    ensures var f := File(name, pid, id, stat, tasks); f.Pid() == pid && f.Id() == id
  {
    hide Dec, CgroupId, Cgroup, ParsePid;
    SmallPid(pid);
    CgroupIs(id);
  }

  /** An empty table, at start-up. */
  const EMPTY_TABLE := Table(Repeat(ZERO_TASK, MAX_VCPU_NUM), 0)

  lemma OneFile(f: PidFile, monitorId: int, table: Table)
    requires !Skipped(f) && f.slotAlloc && table.num <= |table.rows|
    ensures |f.name| > 4
    ensures var r := LoadDomain(f, monitorId, table);
            LoadAll([f], monitorId, table) == Listing(LoadedDoms(r), if r.Leaked? then 1 else 0, true)
  {
    hide LoadDomain;
    assert LoadAll([f][1..], monitorId, table) == Listing([], 0, true);
  }

  lemma {:induction false} NothingToJoin(ds: seq<Dom>)
    ensures JoinAll(ds, []) == ds
  {
    assert forall i | 0 <= i < |ds| :: JoinDom(ds[i], []) == ds[i];
  }

  /** A first frame that finds one pid file and no vCPU. */
  lemma FirstFrame(run: Run, f: PidFile)
    requires run.table == EMPTY_TABLE && |run.frames| >= 1
    requires run.frames[0] == Inputs(Some(""), Some([f])) && !Skipped(f) && f.slotAlloc
    ensures |f.name| > 4
    ensures var r := LoadDomain(f, run.monitorId, EMPTY_TABLE);
            && LoadedAt(run, 1) == Listing(LoadedDoms(r), if r.Leaked? then 1 else 0, true)
            && StateAt(run, 1) == State(LoadedDoms(r), [], EMPTY_TABLE)
  {
    hide LoadDomain, JoinAll, LoadAll, Skipped, Repeat;
    OneFile(f, run.monitorId, EMPTY_TABLE);
    assert StateAt(run, 0) == State([], [], EMPTY_TABLE);
    assert ReadRows("", EMPTY_TABLE) == EMPTY_TABLE;
    NothingToJoin(LoadedAt(run, 1).doms);
  }

  /** A second frame that finds one pid file. */
  lemma NextFrame(run: Run, text: string, f: PidFile)
    requires run.table == EMPTY_TABLE && |run.frames| >= 2 && StateAt(run, 1).table == EMPTY_TABLE
    requires run.frames[1] == Inputs(Some(text), Some([f])) && !Skipped(f) && f.slotAlloc
    ensures |f.name| > 4
    ensures LoadedAt(run, 2).doms == LoadedDoms(LoadDomain(f, run.monitorId, ReadRows(text, EMPTY_TABLE)))
    ensures StateAt(run, 2).now == JoinAll(LoadedAt(run, 2).doms, StateAt(run, 1).now)
  {
    hide LoadDomain, JoinAll, LoadAll, Skipped, Repeat, ReadRows;
    OneFile(f, run.monitorId, ReadRows(text, EMPTY_TABLE));
    assert Table(EMPTY_TABLE.rows, 0) == EMPTY_TABLE;
  }

  /** A name with exactly one character too many. */
  function LongName(): (name: string)
    ensures |name| == DOMAIN_NAME_MAX - 1 && CheckPidFile(name)
  {
    Repeat('a', DOMAIN_NAME_MAX - 5) + ".pid"
  }

  /** One frame with such a file costs a block, and lists nothing. */
  lemma LongNameLeaks()
    ensures var f := File(LongName(), 10, 1, Stat("vm", 1, 0), []);
            var run := Run([Inputs(Some(""), Some([f]))], -1, EMPTY_TABLE);
            LeaksUpTo(run, 1) == 1 && StateAt(run, 1).now == []
  {
    hide LongName, LoadDomain, Comm, StateAt, LoadedAt, Dec, Cgroup, ParsePid, CgroupId;
    var name, stat := LongName(), Stat("vm", 1, 0);
    var f := File(name, 10, 1, stat, []);
    FileIs(name, 10, 1, stat, []);
    StatComm("vm", 1, 0);
    Outcome(f, -1, EMPTY_TABLE);
    var run := Run([Inputs(Some(""), Some([f]))], -1, EMPTY_TABLE);
    assert name != "." && name != "..";
    FirstFrame(run, f);
    assert LeaksUpTo(run, 0) == 0;
  }

  const MACHINE_FILE := "a.pid"

  /** The file of machine 1, with process 10 and this task directory. */
  function Machine(nlwp: int, tasks: seq<TaskEntry>): PidFile {
    File(MACHINE_FILE, 10, 1, Stat("vm", nlwp, 0), tasks)
  }

  lemma MachineLoads(nlwp: nat, tasks: seq<TaskEntry>, table: Table)
    requires nlwp > 0 && table.num <= |table.rows|
    ensures var f := Machine(nlwp, tasks);
            && !Skipped(f) && f.slotAlloc && |f.name| > 4
            && var r := LoadDomain(f, -1, table);
               r.Loaded? && r.dom.threads == TableOf(nlwp, tasks, 10, table) && r.dom.task.domainId == 1
  {
    hide Comm, LoadDomain, TableOf, Cgroup, Dec, ParsePid, CgroupId, VcpuCount;
    var f := Machine(nlwp, tasks);
    assert f.name[|f.name| - 4..] == ".pid";
    FileIs(MACHINE_FILE, 10, 1, f.stat.value, tasks);
    StatComm("vm", nlwp, 0);
    LoadedAs(f, -1, table);
  }

  /** A thread named `comm`, as it is read. */
  lemma EntryIs(pid: nat, comm: string, nlwp: int, utime: u64, table: Table)
    requires 1 <= pid < 1000 && '(' !in comm && |comm| < DOMAIN_NAME_MAX && table.num <= |table.rows|
    ensures var e := Entry(pid, Some(Stat(comm, nlwp, utime)));
            && Readable(e) && e.Pid() == pid
            && var g := GoodTask(e, 10, table);
               && |g| == 1 && g[0].pid == pid && g[0].stat[UTIME] == utime && g[0].delta == ZERO_COUNTERS
               && (g[0].typ == ISVCPU <==> Contains(comm, "CPU"))
               && var i := FirstPid(table.rows[..table.num], pid);
                  Contains(comm, "CPU") && i < table.num ==>
                    forall r | 1 <= r < VCPU_STAT_SIZE :: g[0].stat[r] == table.rows[i].stat[r]
  {
    hide Comm, Contains, Dec, ParsePid, FirstPid, WithVcpuStat;
    var e := Entry(pid, Some(Stat(comm, nlwp, utime)));
    SmallPid(pid);
    StatComm(comm, nlwp, utime);
    GoodIsReadable(e, 10, table);
    RecordContents(ZERO_TASK, pid, 10, e.stat, table);
  }

  /** Directories of one and of two entries. */
  lemma OneEntry(e: TaskEntry, table: Table)
    requires table.num <= |table.rows|
    ensures GoodTasks([e], 10, table) == GoodTask(e, 10, table)
    ensures CountReadable([e]) == if Readable(e) then 1 else 0
  {
    hide GoodTask, Readable;
    assert [e][1..] == [];
    assert GoodTasks([], 10, table) == [];
  }

  lemma TwoEntries(a: TaskEntry, b: TaskEntry, table: Table)
    requires table.num <= |table.rows|
    ensures GoodTasks([a, b], 10, table) == GoodTask(a, 10, table) + GoodTask(b, 10, table)
    ensures CountReadable([a, b]) == (if Readable(a) then 1 else 0) + if Readable(b) then 1 else 0
    ensures Residue(ZERO_TASK, [a, b], 10) == ResidueStep(ResidueStep(ZERO_TASK, a, 10), b, 10)
  {
    hide GoodTask, Readable, ResidueStep;
    OneEntry(b, table);
    assert [a, b][1..] == [b] && [b][1..] == [];
    assert Residue(ResidueStep(ZERO_TASK, a, 10), [b], 10) == ResidueStep(ResidueStep(ZERO_TASK, a, 10), b, 10);
  }

  // ----- The order of a task directory that matters -----

  /** Thread 1's stat file cannot be read in the first frame; thread 2's can. */
  const VANISHED := Entry(1, None)
  const OTHER_THREAD := Entry(2, Some(Stat("vm", 2, 0)))
  const RETURNED := Entry(1, Some(Stat("vm", 2, 100)))

  function TwoFrames(tasks: seq<TaskEntry>): Run {
    Run([Inputs(Some(""), Some([Machine(2, tasks)])), Inputs(Some(""), Some([Machine(2, [RETURNED])]))],
        -1, EMPTY_TABLE)
  }

  lemma VanishedLeft()
    ensures TableOf(2, [VANISHED, OTHER_THREAD], 10, EMPTY_TABLE)
            == GoodTask(OTHER_THREAD, 10, EMPTY_TABLE) + [ZERO_TASK]
    ensures var t := TableOf(2, [OTHER_THREAD, VANISHED], 10, EMPTY_TABLE);
            && |t| == 2 && t[0].pid == 2 && t[1].pid == 1 && t[1].stat == t[1].delta == ZERO_COUNTERS
  {
    hide Comm, Dec, ParsePid, TableOf, TaskRecord;
    SmallPid(1);
    EntryIs(2, "vm", 2, 0, EMPTY_TABLE);
    var a, b, g := VANISHED, OTHER_THREAD, GoodTask(OTHER_THREAD, 10, EMPTY_TABLE);
    assert Unreadable(a);
    GoodIsReadable(a, 10, EMPTY_TABLE);
    TwoEntries(a, b, EMPTY_TABLE);
    TwoEntries(b, a, EMPTY_TABLE);
    assert ResidueStep(ZERO_TASK, b, 10) == ZERO_TASK;
    hide GoodTask, Readable, Entry;
    SpareTable(2, [a, b], 10, EMPTY_TABLE);
    SpareTable(2, [b, a], 10, EMPTY_TABLE);
  }

  lemma NothingRead()
    ensures ReadRows("", EMPTY_TABLE) == EMPTY_TABLE
  {
  }

  lemma ReturnedRead()
    ensures var t := TableOf(2, [RETURNED], 10, EMPTY_TABLE);
            |t| == 2 && t[0].pid == 1 && t[0].stat[UTIME] == 100
  {
    hide GoodTask, Readable, GoodTasks, CountReadable, TableOf, Entry;
    EntryIs(1, "vm", 2, 100, EMPTY_TABLE);
    OneEntry(RETURNED, EMPTY_TABLE);
    SpareTable(2, [RETURNED], 10, EMPTY_TABLE);
  }

  /** The second frame, by what the first left for thread 1. */
  lemma SecondFrame(tasks: seq<TaskEntry>)
    ensures var x, run, t := TheThread(1, 1), TwoFrames(tasks), TableOf(2, tasks, 10, EMPTY_TABLE);
            && Found(StateAt(run, 2).now, x, UTIME)
            && (FirstPid(t, 1) == |t| ==> DeltaIn(StateAt(run, 2).now, x, UTIME) == 0)
            && (FirstPid(t, 1) < |t| && t[FirstPid(t, 1)].stat[UTIME] == 0 ==>
                  DeltaIn(StateAt(run, 2).now, x, UTIME) == 100)
  {
    hide StateAt, Machine, LoadDomain, JoinAll, TableOf, Skipped, ReadRows, LoadedAt;
    var run, x := TwoFrames(tasks), TheThread(1, 1);
    MachineLoads(2, tasks, EMPTY_TABLE);
    MachineLoads(2, [RETURNED], EMPTY_TABLE);
    FirstFrame(run, Machine(2, tasks));
    assert ReadRows("", EMPTY_TABLE) == EMPTY_TABLE by { NothingRead(); }
    NextFrame(run, "", Machine(2, [RETURNED]));
    ReturnedRead();
    LoadedAtFresh(run, 2);
    FindStep(LoadedAt(run, 2).doms, StateAt(run, 1).now, x, UTIME);
  }

  /** In the second frame thread 1 has used 100 ticks. It is shown with none if thread 1
      was listed before thread 2 in the first frame, and with 100 if behind it. */
  lemma OrderMatters()
    ensures var x, first, last := TheThread(1, 1),
              TwoFrames([VANISHED, OTHER_THREAD]), TwoFrames([OTHER_THREAD, VANISHED]);
            && Found(StateAt(first, 2).now, x, UTIME) && DeltaIn(StateAt(first, 2).now, x, UTIME) == 0
            && Found(StateAt(last, 2).now, x, UTIME) && DeltaIn(StateAt(last, 2).now, x, UTIME) == 100
  {
    hide StateAt, Machine, Found, DeltaIn;
    VanishedLeft();
    EntryIs(2, "vm", 2, 0, EMPTY_TABLE);
    SecondFrame([VANISHED, OTHER_THREAD]);
    SecondFrame([OTHER_THREAD, VANISHED]);
  }

  // ----- A vCPU missing from st_max -----

  const MAIN_THREAD := Entry(10, Some(Stat("vm", 1, 0)))
  const NEW_VCPU := Entry(11, Some(Stat("CPU 0/KVM", 1, 0)))
  const VCPU_ROW := ZERO_TASK.(pid := 11, stat := ZERO_COUNTERS[STEAL := 5][ST_MAX := 5])

  /** A machine whose vCPU 11, with a steal and an st_max of 5, appears in the second frame. */
  function NewVcpu(): Run {
    Run([Inputs(Some(""), Some([Machine(1, [MAIN_THREAD])])),
         Inputs(Some(RenderTable([VCPU_ROW])), Some([Machine(2, [MAIN_THREAD, NEW_VCPU])]))],
        -1, EMPTY_TABLE)
  }

  function VcpuTable(): (t: Table)
    ensures TableOk(t)
  {
    ReadRows(RenderTable([VCPU_ROW]), EMPTY_TABLE)
  }

  lemma VcpuTableIs()
    ensures var t := VcpuTable();
            t.num == 1 && t.rows[0].pid == 11 && t.rows[0].stat[STEAL] == t.rows[0].stat[ST_MAX] == 5
    ensures FirstPid(VcpuTable().rows[..1], 11) == 0
  {
    hide RenderTable, ReadRows, Columns;
    RoundTrip([VCPU_ROW], EMPTY_TABLE);
    var t := VcpuTable();
    assert SameRow(t.rows[0..1][0], VCPU_ROW);
    assert t.rows[0].stat[STEAL] == t.rows[0].stat[1..VCPU_STAT_SIZE][STEAL - 1];
    assert t.rows[0].stat[ST_MAX] == t.rows[0].stat[1..VCPU_STAT_SIZE][ST_MAX - 1];
  }

  lemma OnlyMainThread()
    ensures var t := TableOf(1, [MAIN_THREAD], 10, EMPTY_TABLE); |t| == 1 && t[0].pid == 10
  {
    hide GoodTask, Readable, GoodTasks, CountReadable, TableOf, Entry;
    EntryIs(10, "vm", 1, 0, EMPTY_TABLE);
    OneEntry(MAIN_THREAD, EMPTY_TABLE);
    FullTable(1, [MAIN_THREAD], 10, EMPTY_TABLE);
  }

  lemma BothThreads()
    ensures var t := TableOf(2, [MAIN_THREAD, NEW_VCPU], 10, VcpuTable());
            && |t| == 2 && t[0].pid == 10 && t[0].typ != ISVCPU
            && t[1].pid == 11 && t[1].typ == ISVCPU && t[1].stat[STEAL] == t[1].stat[ST_MAX] == 5
  {
    hide GoodTask, Readable, GoodTasks, CountReadable, TableOf, Entry, VcpuTable, Contains, FirstPid;
    var a, b, table := MAIN_THREAD, NEW_VCPU, VcpuTable();
    VcpuTableIs();
    EntryIs(10, "vm", 1, 0, table);
    EntryIs(11, "CPU 0/KVM", 1, 0, table);
    TooShort("vm", "CPU");
    ContainsAt("CPU 0/KVM", "CPU", 0);
    TwoEntries(a, b, table);
    FullTable(2, [a, b], 10, table);
  }

  lemma NewVcpuAlone(d: Dom, olds: seq<Dom>)
    requires FreshDom(d) && |olds| == 1 && olds[0].task.domainId == d.task.domainId
    requires |olds[0].threads| == 1 && olds[0].threads[0].pid == 10
    requires |d.threads| == 2 && d.threads[0].typ != ISVCPU
    requires d.threads[1].pid == 11 && d.threads[1].typ == ISVCPU && d.threads[1].stat[ST_MAX] == 5
    ensures var j := JoinDom(d, olds); j.task.stat[ST_MAX] == 0 && TotalStMax(j.threads) == 5
  {
    hide FreshDom, JoinThread, AddMatched, WithDeltas;
    DomainStMax(d, olds);
    var j, prev := JoinDom(d, olds), olds[0].threads;
    assert FirstId(olds, d.task.domainId) == 0 && PrevThreads(olds, d.task.domainId) == prev;
    assert j.threads == JoinThreads(d.threads, prev);
    JoinThreadKeeps(d.threads[0], prev);
    JoinThreadKeeps(d.threads[1], prev);
    assert !Matches(j.threads[1], prev);
    assert MatchedStMax(j.threads[..0], prev) == 0 && TotalStMax(j.threads[..0]) == 0;
    assert j.threads[..2] == j.threads && j.threads[..2][..1] == j.threads[..1] &&
      j.threads[..1][..0] == j.threads[..0];
    assert MatchedStMax(j.threads[..1], prev) == 0 && TotalStMax(j.threads[..1]) == 0;
  }

  /** Its domain's st_max is 0, while that of its vCPUs is 5. */
  lemma StMaxMissesNewVcpu()
    ensures var now := StateAt(NewVcpu(), 2).now;
            |now| == 1 && now[0].task.stat[ST_MAX] == 0 && TotalStMax(now[0].threads) == 5
  {
    hide StateAt, Machine, LoadDomain, TableOf, Skipped, ReadRows, LoadedAt, JoinDom, RenderTable;
    var run, table := NewVcpu(), VcpuTable();
    MachineLoads(1, [MAIN_THREAD], EMPTY_TABLE);
    MachineLoads(2, [MAIN_THREAD, NEW_VCPU], table);
    FirstFrame(run, Machine(1, [MAIN_THREAD]));
    NextFrame(run, RenderTable([VCPU_ROW]), Machine(2, [MAIN_THREAD, NEW_VCPU]));
    OnlyMainThread();
    BothThreads();
    LoadedAtFresh(run, 2);
    var d, olds := LoadedAt(run, 2).doms[0], StateAt(run, 1).now;
    NewVcpuAlone(d, olds);
  }

  // ----- A thread that becomes a vCPU -----

  const OLD_NAME := Entry(11, Some(Stat("vm", 1, 0)))

  /** The same, but thread 11 is there in the first frame, under another name. */
  function Renamed(): Run {
    Run([Inputs(Some(""), Some([Machine(2, [MAIN_THREAD, OLD_NAME])])),
         Inputs(Some(RenderTable([VCPU_ROW])), Some([Machine(2, [MAIN_THREAD, NEW_VCPU])]))],
        -1, EMPTY_TABLE)
  }

  lemma BothOldThreads()
    ensures var t := TableOf(2, [MAIN_THREAD, OLD_NAME], 10, EMPTY_TABLE);
            |t| == 2 && t[0].pid == 10 && t[1].pid == 11 && t[1].typ != ISVCPU
  {
    hide GoodTask, Readable, GoodTasks, CountReadable, TableOf, Entry, Contains;
    EntryIs(10, "vm", 1, 0, EMPTY_TABLE);
    EntryIs(11, "vm", 1, 0, EMPTY_TABLE);
    TooShort("vm", "CPU");
    TwoEntries(MAIN_THREAD, OLD_NAME, EMPTY_TABLE);
    FullTable(2, [MAIN_THREAD, OLD_NAME], 10, EMPTY_TABLE);
  }

  /** What the join finds for thread 11. */
  lemma ThreadElevenFound(d: Dom, prev: Dom)
    requires d.task.domainId == prev.task.domainId == 1
    requires |d.threads| == 2 && d.threads[0].pid == 10 && d.threads[1].pid == 11 && d.threads[1].typ == ISVCPU
    ensures var x, now := TheThread(1, 11), JoinAll([d], [prev]);
            && Find([d], x) == Some(d.threads[1])
            && Found(now, x, STEAL)
  {
    hide JoinWith, JoinThreads, FirstId, FirstPid;
    FirstIdUnique([d], 1, 0);
    FirstIdUnique([prev], 1, 0);
    FirstPidUnique(d.threads, 11, 1);
    var js := JoinAll([d], [prev]);
    assert js == [JoinWith(d, prev)];
    FindJoined([d], [prev], 1);
    JoinedSlots(d, prev);
    FirstPidUnique(js[0].threads, 11, 1);
  }

  /** Its whole steal is its first delta. */
  lemma WholeCounterFirst()
    ensures var x, before, now := TheThread(1, 11), StateAt(Renamed(), 1).now, StateAt(Renamed(), 2).now;
            && Find(before, x).Some? && !Found(before, x, STEAL)
            && Found(now, x, STEAL) && DeltaIn(now, x, STEAL) == CounterIn(now, x, STEAL) == 5
  {
    hide StateAt, Machine, LoadDomain, TableOf, Skipped, ReadRows, LoadedAt, JoinAll, RenderTable;
    var run, table, x := Renamed(), VcpuTable(), TheThread(1, 11);
    MachineLoads(2, [MAIN_THREAD, OLD_NAME], EMPTY_TABLE);
    MachineLoads(2, [MAIN_THREAD, NEW_VCPU], table);
    FirstFrame(run, Machine(2, [MAIN_THREAD, OLD_NAME]));
    NextFrame(run, RenderTable([VCPU_ROW]), Machine(2, [MAIN_THREAD, NEW_VCPU]));
    BothOldThreads();
    BothThreads();
    LoadedAtFresh(run, 2);
    var ds, olds := LoadedAt(run, 2).doms, StateAt(run, 1).now;
    ThreadElevenFound(ds[0], olds[0]);
    FindStep(ds, olds, x, STEAL);
    FirstIdUnique(olds, 1, 0);
    FirstPidUnique(olds[0].threads, 11, 1);
    DeltaStep(run, x, STEAL, 2);
  }
}
