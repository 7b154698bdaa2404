/** src/domain.c, from the pid file of a virtual machine to a filled list slot:
    get_child_pid, set_domain, check_pid_file and get_qemu_id. Directories and
    files are inputs: what readdir lists, what each file holds, what fails. */
module Loader {
  import opened Words
  import opened Types
  import opened CHeap
  import opened Text
  import opened Proc
  import opened VcpuStat
  import opened DomainLists

  const PID_STRING_MAX := 12
  const CPUSET := "cpuset:"
  const MACHINE := "machine-qemu\\x2d"

  /** An entry of /proc/<pid>/task, and the stat file in it. */
  datatype TaskEntry = TaskEntry(name: string, isDir: bool, stat: Option<StatFile>) {
    function Pid(): int {
      ParsePid(name)
    }
  }

  /** The number behind the first machine name in a cpuset line of a cgroup file. */
  function CgroupId(text: string): int {
    if text == [] then -1
    else
      var n := LineLen(text, BUF_SIZE - 2);
      var line := text[..n];
      if Contains(line, CPUSET) && Contains(line, MACHINE) then Atoi(Strstr(line, MACHINE)[|MACHINE|..])
      else CgroupId(text[n..])
  }

  /** An entry of the pid file directory with everything found by following it: its
      text, the cgroup file, stat file and task directory of the process it names, as
      far as they can be opened, and whether the two allocations succeed. */
  datatype PidFile = PidFile(
    name: string,
    isReg: bool,
    text: Option<string>,
    cgroup: Option<string>,
    stat: Option<StatFile>,
    tasks: Option<seq<TaskEntry>>,
    slotAlloc: bool,
    threadsAlloc: bool)
  {
    function Pid(): int {
      match text
      case None => 0
      case Some(t) => ParsePid(if |t| < PID_STRING_MAX then t else t[..PID_STRING_MAX - 1])
    }

    function Id(): int {
      if cgroup.None? then -1 else CgroupId(cgroup.value)
    }
  }

  /** The thread table while it is being filled. */
  datatype Slots = Slots(threads: seq<Task>, filled: nat, vcpus: nat)

  predicate IsDots(name: string) {
    name == "." || name == ".."
  }

  /** A successfully read task's record, built on the record it is put into. */
  function TaskRecord(t: Task, pid: int, ppid: int, stat: Option<StatFile>, table: Table): Option<Task>
    requires table.num <= |table.rows|
  {
    match LoadStat(t.(pid := pid, typ := ISTHREAD, ppid := ppid), stat)
    case None => None
    case Some(u) =>
      var v := if Contains(u.vmname, "CPU") then WithVcpuStat(u, table).(typ := ISVCPU) else u;
      Some(v.(smpVcpus := 1))
  }

  /** What one entry does to the table, in the readdir loop. */
  function ReadTask(s: Slots, e: TaskEntry, ppid: int, table: Table): Slots
    requires s.filled < |s.threads| && table.num <= |table.rows|
  {
    var i := s.filled;
    var t := s.threads[i];
    if IsDots(e.name) || !e.isDir then s
    else if e.Pid() < 1 then s.(threads := s.threads[i := t.(pid := 0)])
    else
      match TaskRecord(t, e.Pid(), ppid, e.stat, table)
      case None => s.(threads := s.threads[i := t.(pid := e.Pid(), typ := ISTHREAD, ppid := ppid)])
      case Some(u) => Slots(s.threads[i := u], i + 1, s.vcpus + if u.typ == ISVCPU then 1 else 0)
  }

  function ReadTasks(s: Slots, entries: seq<TaskEntry>, ppid: int, table: Table): Slots
    requires s.filled <= |s.threads| && table.num <= |table.rows|
    decreases |entries|
  {
    if entries == [] || s.filled == |s.threads| then s
    else ReadTasks(ReadTask(s, entries[0], ppid, table), entries[1..], ppid, table)
  }

  function EmptySlots(n: nat): Slots {
    Slots(Repeat(ZERO_TASK, n), 0, 0)
  }

  /** check_pid_file returns 0: the name is longer than, and ends with, ".pid". */
  predicate CheckPidFile(name: string) {
    |name| > 4 && name[|name| - 4..] == ".pid"
  }

  /** Exactly the names made of a non-empty stem and ".pid". */
  lemma PidFileNames(name: string)
    ensures CheckPidFile(name) <==> exists stem | stem != "" :: name == stem + ".pid"
  {
    if CheckPidFile(name) {
      assert name == name[..|name| - 4] + ".pid";
    }
  }

  /** How set_domain ends. `Leaked` is the failure found only after the threads
      have been allocated: nothing points to them once the slot is popped. */
  datatype LoadResult = Loaded(dom: Dom) | Rejected | Leaked

  function LoadDomain(f: PidFile, monitorId: int, table: Table): LoadResult
    requires |f.name| > 4 && table.num <= |table.rows|
  {
    if f.Pid() < 1 || f.Id() < 0 || (monitorId >= 0 && f.Id() != monitorId) then Rejected
    else
      match LoadStat(ZERO_TASK.(pid := f.Pid(), domainId := f.Id()), f.stat)
      case None => Rejected
      case Some(t) =>
        if f.tasks.None? || t.nlwp <= 0 || !f.threadsAlloc then Rejected
        else if |f.name| >= DOMAIN_NAME_MAX - 1 then Leaked
        else
          var s := ReadTasks(EmptySlots(t.nlwp), f.tasks.value, f.Pid(), table);
          Loaded(Dom(t.(vmname := f.name[..|f.name| - 4], smpVcpus := s.vcpus), s.threads))
  }

  /** The stem of a file's name is the name its domain gets, and no other file's
      domain gets it. */
  lemma DomainNames(f: PidFile, g: PidFile, monitorId: int, table: Table)
    requires CheckPidFile(f.name) && CheckPidFile(g.name) && table.num <= |table.rows|
    ensures var r, q := LoadDomain(f, monitorId, table), LoadDomain(g, monitorId, table);
            && (r.Loaded? ==> r.dom.task.vmname + ".pid" == f.name)
            && (r.Loaded? && q.Loaded? && f.name != g.name ==> r.dom.task.vmname != q.dom.task.vmname)
  {
    hide ReadTasks, LoadStat;
    assert f.name == f.name[..|f.name| - 4] + ".pid";
    assert g.name == g.name[..|g.name| - 4] + ".pid";
  }

  predicate Skipped(f: PidFile) {
    IsDots(f.name) || !f.isReg || !CheckPidFile(f.name)
  }

  /** What get_qemu_id leaves: the loaded domains, the number of thread blocks
      lost, and whether it went through the whole directory. */
  datatype Listing = Listing(doms: seq<Dom>, leaks: nat, complete: bool)

  function LoadAll(files: seq<PidFile>, monitorId: int, table: Table): Listing
    requires table.num <= |table.rows|
  {
    if files == [] then Listing([], 0, true)
    else if Skipped(files[0]) then LoadAll(files[1..], monitorId, table)
    else if !files[0].slotAlloc then Listing([], 0, false)
    else
      var rest := LoadAll(files[1..], monitorId, table);
      match LoadDomain(files[0], monitorId, table)
      case Loaded(d) => rest.(doms := [d] + rest.doms)
      case Rejected => rest
      case Leaked => rest.(leaks := rest.leaks + 1)
  }

  function LoadedDoms(r: LoadResult): seq<Dom> {
    if r.Loaded? then [r.dom] else []
  }

  /** A listing preceded by what an earlier part of the directory gave. */
  function Before(l: Listing, doms: seq<Dom>, leaks: nat): Listing {
    Listing(doms + l.doms, leaks + l.leaks, l.complete)
  }

  lemma BeforeStep(files: seq<PidFile>, monitorId: int, table: Table, doms: seq<Dom>, leaks: nat)
    requires table.num <= |table.rows|
    requires files != [] && !Skipped(files[0]) && files[0].slotAlloc
    ensures var r := LoadDomain(files[0], monitorId, table);
            Before(LoadAll(files, monitorId, table), doms, leaks)
            == Before(LoadAll(files[1..], monitorId, table), doms + LoadedDoms(r), leaks + if r.Leaked? then 1 else 0)
  {
    hide LoadDomain;
    var r := LoadDomain(files[0], monitorId, table);
    var rest := LoadAll(files[1..], monitorId, table);
    assert doms + (LoadedDoms(r) + rest.doms) == doms + LoadedDoms(r) + rest.doms;
  }

  /** The same for a directory that may fail to open. */
  function ReadDir(dir: Option<seq<PidFile>>, monitorId: int, table: Table): Listing
    requires table.num <= |table.rows|
  {
    if dir.None? then Listing([], 0, false) else LoadAll(dir.value, monitorId, table)
  }

  /** The readdir loop's body for a task with a proper pid, in place in `slot`. */
  method ReadTaskRecord(heap: Heap, slot: Loc, pid: int, ppid: int, stat: Option<StatFile>, vcpus: VcpuList)
    returns (ret: int)
    requires heap.Valid() && vcpus.Valid() && InBounds(heap.blocks, slot)
    modifies heap
    ensures heap.Valid()
    ensures var t := At(old(heap.blocks), slot);
      match TaskRecord(t, pid, ppid, stat, vcpus.Contents())
      case None => ret < 0 && heap.blocks == Put(old(heap.blocks), slot, t.(pid := pid, typ := ISTHREAD, ppid := ppid))
      case Some(u) => ret >= 0 && heap.blocks == Put(old(heap.blocks), slot, u)
  {
    ghost var b0 := heap.blocks;
    var t := At(heap.blocks, slot).(pid := pid, typ := ISTHREAD, ppid := ppid);
    heap.Write(slot, t);
    ret := GetProcStat(heap, slot, stat);
    if ret < 0 {
      return;
    }
    PutPut(b0, slot, t, At(heap.blocks, slot));
    ghost var u := At(heap.blocks, slot);
    if Contains(At(heap.blocks, slot).vmname, "CPU") {
      ret := vcpus.GetVcpuStat(heap, slot);
      PutPut(b0, slot, u, At(heap.blocks, slot));
      if ret >= 0 {
        u := At(heap.blocks, slot);
        heap.Write(slot, At(heap.blocks, slot).(typ := ISVCPU));
        PutPut(b0, slot, u, At(heap.blocks, slot));
      }
    }
    u := At(heap.blocks, slot);
    heap.Write(slot, At(heap.blocks, slot).(smpVcpus := 1));
    PutPut(b0, slot, u, At(heap.blocks, slot));
  }

  /** The readdir loop's body, in place in `slot`: whether it was filled, and whether with a vCPU. */
  method ReadTaskEntry(heap: Heap, slot: Loc, ppid: int, e: TaskEntry, vcpus: VcpuList)
    returns (filled: bool, vcpu: bool)
    requires heap.Valid() && vcpus.Valid() && InBounds(heap.blocks, slot)
    modifies heap
    ensures heap.Valid()
    ensures slot.block in heap.blocks && |heap.blocks[slot.block]| == |old(heap.blocks)[slot.block]|
    ensures var s := ReadTask(Slots(old(heap.blocks)[slot.block], slot.index, 0), e, ppid, vcpus.Contents());
      && s == Slots(heap.blocks[slot.block], slot.index + (if filled then 1 else 0), if vcpu then 1 else 0)
      && heap.blocks == old(heap.blocks)[slot.block := s.threads]
  {
    filled, vcpu := false, false;
    if IsDots(e.name) || !e.isDir {
      PutAt(heap.blocks, slot);
      return;
    }
    if e.Pid() < 1 {
      heap.Write(slot, At(heap.blocks, slot).(pid := 0));
      return;
    }
    var ret := ReadTaskRecord(heap, slot, e.Pid(), ppid, e.stat, vcpus);
    filled := ret >= 0;
    vcpu := filled && At(heap.blocks, slot).typ == ISVCPU;
  }

  lemma ReadTaskCount(s: Slots, v: nat, e: TaskEntry, ppid: int, table: Table)
    requires s.filled < |s.threads| && table.num <= |table.rows|
    ensures ReadTask(s.(vcpus := v), e, ppid, table)
            == var r := ReadTask(s.(vcpus := 0), e, ppid, table); r.(vcpus := v + r.vcpus)
  {
  }

  /** get_child_pid's loop over the cleared thread block `t` of the record `dom`. */
  method FillThreads(heap: Heap, dom: Loc, t: Ptr, tasks: seq<TaskEntry>, vcpus: VcpuList)
    requires heap.Valid() && vcpus.Valid() && InBounds(heap.blocks, dom)
    requires t != dom.block && t in heap.blocks
    requires heap.blocks[t] == Repeat(ZERO_TASK, |heap.blocks[t]|) && At(heap.blocks, dom).smpVcpus == 0
    modifies heap
    ensures heap.Valid()
    ensures var d := At(old(heap.blocks), dom);
      var s := ReadTasks(EmptySlots(|old(heap.blocks)[t]|), tasks, d.pid, vcpus.Contents());
      heap.blocks == Refill(old(heap.blocks), t, s.threads, dom, d.(smpVcpus := s.vcpus))
  {
    hide ReadTask;
    ghost var b0, table := heap.blocks, vcpus.Contents();
    var d, n := At(heap.blocks, dom), |heap.blocks[t]|;
    var i: nat, vcpuCount: nat, entries := 0, 0, tasks;
    PutAt(b0, dom);
    assert b0[t := b0[t]] == b0;
    while entries != [] && i < n
      invariant heap.Valid() && t in heap.blocks && i <= |heap.blocks[t]| == n
      invariant heap.blocks == Refill(b0, t, heap.blocks[t], dom, d.(smpVcpus := vcpuCount))
      invariant ReadTasks(Slots(heap.blocks[t], i, vcpuCount), entries, d.pid, table)
             == ReadTasks(EmptySlots(n), tasks, d.pid, table)
      decreases |entries|
    {
      ghost var s, v := heap.blocks[t], vcpuCount;
      ReadTaskCount(Slots(s, i, 0), v, entries[0], d.pid, table);
      var filled, vcpu := ReadTaskEntry(heap, Loc(t, i), d.pid, entries[0], vcpus);
      if vcpu {
        vcpuCount := vcpuCount + 1;
        heap.Write(dom, At(heap.blocks, dom).(smpVcpus := vcpuCount));
      } else {
        PutAt(heap.blocks, dom);
      }
      i := if filled then i + 1 else i;
      entries := entries[1..];
      RefillTwice(b0, t, s, heap.blocks[t], dom, d.(smpVcpus := v), d.(smpVcpus := vcpuCount));
    }
  }

  /** get_child_pid: allocates the thread block and fills it from the directory. */
  method GetChildPid(heap: Heap, dom: Loc, tasks: Option<seq<TaskEntry>>, threadsAlloc: bool, vcpus: VcpuList)
    returns (ret: int)
    requires heap.Valid() && vcpus.Valid() && InBounds(heap.blocks, dom)
    requires At(heap.blocks, dom).smpVcpus == 0
    modifies heap
    ensures heap.Valid()
    ensures var d := At(old(heap.blocks), dom);
      if tasks.None? || d.nlwp <= 0 || !threadsAlloc then ret < 0 && heap.blocks == old(heap.blocks)
      else
        && ret >= 0
        && InBounds(heap.blocks, dom)
        && var t := At(heap.blocks, dom).threads;
        && t != NULL && t !in old(heap.blocks)
        && var s := ReadTasks(EmptySlots(d.nlwp), tasks.value, d.pid, vcpus.Contents());
        && heap.blocks == Refill(old(heap.blocks), t, s.threads, dom, d.(threads := t, smpVcpus := s.vcpus))
  {
    ghost var b0 := heap.blocks;
    var d := At(heap.blocks, dom);
    if tasks.None? || d.nlwp <= 0 {
      return -1;
    }
    var t := heap.Malloc(d.nlwp, threadsAlloc);
    if t == NULL {
      return -1;
    }
    heap.Write(dom, d.(threads := t));
    heap.Clear(t);
    ghost var empty := heap.blocks[t];
    assert heap.blocks == Refill(b0, t, empty, dom, d.(threads := t));
    FillThreads(heap, dom, t, tasks.value, vcpus);
    RefillTwice(b0, t, empty, heap.blocks[t], dom, d.(threads := t), At(heap.blocks, dom));
    return d.nlwp;
  }

  /** get_id_from_cgroup; `text` is None when the file cannot be opened. */
  method GetIdFromCgroup(text: Option<string>) returns (id: int)
    ensures id == if text.None? then -1 else CgroupId(text.value)
  {
    id := -1;
    if text.None? {
      return;
    }
    var rest := text.value;
    while rest != []
      invariant id == -1 && CgroupId(text.value) == CgroupId(rest)
      decreases |rest|
    {
      var n := LineLen(rest, BUF_SIZE - 2);
      var buf := rest[..n];
      rest := rest[n..];
      if !Contains(buf, CPUSET) {
        continue;
      }
      var tmp := Strstr(buf, MACHINE);
      if !Contains(buf, MACHINE) {
        continue;
      }
      id := Atoi(tmp[|MACHINE|..]);
      break;
    }
  }

  /** A line that does not name a machine of a cpuset is passed over. */
  lemma CgroupLineSkipped(line: string, rest: string)
    requires '\n' !in line && |line| < BUF_SIZE - 2
    requires !Contains(line + "\n", CPUSET) || !Contains(line + "\n", MACHINE)
    ensures CgroupId(line + "\n" + rest) == CgroupId(rest)
  {
    LineLenLine(line, rest, BUF_SIZE - 2);
    var text := line + "\n" + rest;
    assert text[..|line| + 1] == line + "\n" && text[|line| + 1..] == rest;
  }

  /** A line as libvirt writes it, "..cpuset:..machine-qemu\x2d<id>..", gives its id. */
  lemma CgroupIdRead(start: string, id: nat, after: string, rest: string)
    requires id < TWO32 / 2
    requires '\n' !in start + after && |start + MACHINE + Dec(id) + after| < BUF_SIZE - 2
    requires Contains(start, CPUSET) && !Contains(start, MACHINE)
    requires after != [] ==> !IsDigit(after[0])
    ensures CgroupId(start + MACHINE + Dec(id) + after + "\n" + rest) == id
  {
    hide Dec, Atoi, Contains, Strstr;
    var line := start + MACHINE + Dec(id) + after;
    var tail := Dec(id) + (after + "\n");
    var text, buf := line + "\n" + rest, line + "\n";
    DecIsDigits(id);
    assert '\n' !in line by { assert forall c | c in Dec(id) :: IsDigit(c); }
    LineLenLine(line, rest, BUF_SIZE - 2);
    assert text[..|line| + 1] == buf && buf == start + (MACHINE + tail) == start + MACHINE + tail;
    ContainsMore(start, MACHINE + tail, CPUSET);
    forall k | 0 <= k < |start|
      ensures !(MACHINE <= buf[k..])
    {
      NoOverlap(start, MACHINE, tail, k);
    }
    assert buf[|start|..] == MACHINE + tail;
    StrstrAt(buf, MACHINE, |start|);
    AtoiDec(id, after + "\n");
  }

  /** set_domain, in the cleared record just added. */
  method SetDomain(heap: Heap, dom: Loc, f: PidFile, monitorId: int, vcpus: VcpuList) returns (ret: int)
    requires heap.Valid() && vcpus.Valid() && InBounds(heap.blocks, dom)
    requires At(heap.blocks, dom) == ZERO_TASK
    requires |f.name| > 4
    modifies heap
    ensures heap.Valid() && InBounds(heap.blocks, dom)
    ensures var t := At(heap.blocks, dom).threads;
      match LoadDomain(f, monitorId, vcpus.Contents())
      case Rejected => ret < 0 && heap.blocks == Put(old(heap.blocks), dom, At(heap.blocks, dom))
      case Leaked =>
        && ret < 0 && t != NULL && t !in old(heap.blocks) && t in heap.blocks
        && heap.blocks == Refill(old(heap.blocks), t, heap.blocks[t], dom, At(heap.blocks, dom))
      case Loaded(d) =>
        && ret >= 0 && t != NULL && t !in old(heap.blocks)
        && heap.blocks == Refill(old(heap.blocks), t, d.threads, dom, d.task.(threads := t))
  {
    hide ReadTasks, Comm, ParsePid, CgroupId;
    ghost var b0 := heap.blocks;
    PutAt(b0, dom);
    ret := -1;
    var id := GetIdFromCgroup(f.cgroup);
    var t0 := ZERO_TASK.(pid := f.Pid(), domainId := id);
    heap.Write(dom, t0);
    if t0.pid < 1 || t0.domainId < 0 || (monitorId >= 0 && t0.domainId != monitorId) {
      return;
    }
    ret := GetProcStat(heap, dom, f.stat);
    if ret < 0 {
      return;
    }
    ghost var t1 := At(heap.blocks, dom);
    PutPut(b0, dom, t0, t1);
    ret := GetChildPid(heap, dom, f.tasks, f.threadsAlloc, vcpus);
    if ret < 0 {
      return;
    }
    var t2 := At(heap.blocks, dom);
    var t3 := t2.(vmname := f.name[..|f.name| - 4]);
    PutRefillPut(b0, dom, t1, t2.threads, heap.blocks[t2.threads], t2, t3);
    if |f.name| >= DOMAIN_NAME_MAX - 1 {
      return -1;
    }
    heap.Write(dom, t3);
    return 1;
  }

  lemma {:induction false} ReadTasksLength(s: Slots, entries: seq<TaskEntry>, ppid: int, table: Table)
    requires s.filled <= |s.threads| && table.num <= |table.rows|
    ensures |ReadTasks(s, entries, ppid, table).threads| == |s.threads|
    decreases |entries|
  {
    if entries == [] || s.filled == |s.threads| {
    } else {
      ReadTasksLength(ReadTask(s, entries[0], ppid, table), entries[1..], ppid, table);
    }
  }

  /** A loaded domain's record holds no heap address of its own, and its thread
      table has the length get_proc_stat read. */
  lemma LoadedShape(f: PidFile, monitorId: int, table: Table)
    requires |f.name| > 4 && table.num <= |table.rows|
    ensures var r := LoadDomain(f, monitorId, table);
            r.Loaded? ==> r.dom.task.threads == NULL && |r.dom.threads| == r.dom.task.nlwp > 0
  {
    var r := LoadDomain(f, monitorId, table);
    if r.Loaded? {
      ReadTasksLength(EmptySlots(r.dom.task.nlwp), f.tasks.value, r.dom.task.pid, table);
    }
  }

  /** get_qemu_id's body for one pid file, once its record is added: fill the
      record, or pop it. */
  method FillRecord(list: DomainList, heap: Heap, f: PidFile, monitorId: int, vcpus: VcpuList)
    returns (ghost lost: set<Ptr>)
    requires heap.Valid() && vcpus.Valid() && list.bandwidth.Length == MAX_NODE_NUM
    requires var p, n := list.domains, list.num - 1;
      n >= 0 && p != NULL && ListOk(heap.blocks, p, n) && |heap.blocks[p]| == n + 1 && heap.blocks[p][n] == ZERO_TASK
    requires |f.name| > 4
    modifies heap, list`num
    ensures heap.Valid() && list.Valid(heap.blocks)
    ensures var r := LoadDomain(f, monitorId, vcpus.Contents());
      && list.Doms(heap.blocks)
         == old(View(heap.blocks, list.domains, list.num - 1)) + LoadedDoms(r)
      && |lost| == if r.Leaked? then 1 else 0
    ensures Exchanged(old(heap.blocks), old(Owned(heap.blocks, list.domains, list.num - 1)),
                      heap.blocks, list.Blocks(heap.blocks), lost)
  {
    ghost var h := heap.blocks;
    var n: nat := list.num - 1;
    var dom := Loc(list.domains, n);
    var ret := SetDomain(heap, dom, f, monitorId, vcpus);
    ghost var t := At(heap.blocks, dom).threads;
    LoadedShape(f, monitorId, vcpus.Contents());
    hide LoadDomain, View, ListOk, Owned, Exchanged;
    if ret < 0 {
      list.Pop();
      lost := if heap.blocks == Put(h, dom, At(heap.blocks, dom)) then {} else {t};
      Popped(h, heap.blocks, list.domains, n, At(heap.blocks, dom), t);
    } else {
      lost := {};
      Extended(h, list.domains, n, t, LoadDomain(f, monitorId, vcpus.Contents()).dom);
    }
  }

  /** get_qemu_id's body for one pid file. */
  method LoadPidFile(list: DomainList, heap: Heap, f: PidFile, monitorId: int, vcpus: VcpuList)
    returns (added: bool, ghost lost: set<Ptr>)
    requires heap.Valid() && vcpus.Valid() && list.Valid(heap.blocks)
    requires |f.name| > 4
    modifies heap, list`domains, list`num
    ensures heap.Valid() && list.Valid(heap.blocks)
    ensures added == f.slotAlloc
    ensures var r := LoadDomain(f, monitorId, vcpus.Contents());
      && list.Doms(heap.blocks) == old(list.Doms(heap.blocks)) + (if added then LoadedDoms(r) else [])
      && |lost| == if added && r.Leaked? then 1 else 0
    ensures Exchanged(old(heap.blocks), old(list.Blocks(heap.blocks)),
                      heap.blocks, list.Blocks(heap.blocks), lost)
  {
    added := list.Add(heap, f.slotAlloc);
    lost := {};
    if added {
      ghost var h, o := heap.blocks, Owned(heap.blocks, list.domains, list.num - 1);
      lost := FillRecord(list, heap, f, monitorId, vcpus);
      ExchangedThenLost(old(heap.blocks), old(list.Blocks(heap.blocks)), h, o,
                        heap.blocks, list.Blocks(heap.blocks), lost);
    } else {
      NothingExchanged(heap.blocks, list.domains, list.num);
    }
  }

  /** get_qemu_id's loop; false when a record could not be added. */
  method LoadPidFiles(list: DomainList, heap: Heap, files: seq<PidFile>, monitorId: int, vcpus: VcpuList)
    returns (complete: bool, ghost lost: set<Ptr>)
    requires heap.Valid() && vcpus.Valid() && list.Valid(heap.blocks)
    modifies heap, list`domains, list`num
    ensures heap.Valid() && list.Valid(heap.blocks)
    ensures Listing(list.Doms(heap.blocks), |lost|, complete)
            == Before(LoadAll(files, monitorId, vcpus.Contents()), old(list.Doms(heap.blocks)), 0)
    ensures Exchanged(old(heap.blocks), old(list.Blocks(heap.blocks)),
                      heap.blocks, list.Blocks(heap.blocks), lost)
  {
    hide LoadDomain, ListOk, Exchanged, View, Owned, IsDots;
    NothingExchanged(heap.blocks, list.domains, list.num);
    lost := {};
    complete := true;
    ghost var table := vcpus.Contents();
    ghost var all := Before(LoadAll(files, monitorId, table), list.Doms(heap.blocks), 0);
    var rest := files;
    while rest != []
      invariant heap.Valid() && list.Valid(heap.blocks)
      invariant Exchanged(old(heap.blocks), old(list.Blocks(heap.blocks)),
                          heap.blocks, list.Blocks(heap.blocks), lost)
      invariant Before(LoadAll(rest, monitorId, table), list.Doms(heap.blocks), |lost|) == all
      decreases |rest|
    {
      ghost var todo, h, o, l, d := rest, heap.blocks, list.Blocks(heap.blocks), lost, list.Doms(heap.blocks);
      var f := rest[0];
      rest := rest[1..];
      if !Skipped(f) {
        ghost var newLost;
        complete, newLost := LoadPidFile(list, heap, f, monitorId, vcpus);
        lost := CombineExchanges(old(heap.blocks), old(list.Blocks(heap.blocks)), h, o, l,
                                 heap.blocks, list.Blocks(heap.blocks), newLost);
        if !complete {
          break;
        }
        BeforeStep(todo, monitorId, table, d, |l|);
      }
    }
  }

  /** get_qemu_id: appends what LoadAll lists; -1 when the directory cannot be
      opened or a record cannot be added, else the new length. */
  method GetQemuId(list: DomainList, heap: Heap, dir: Option<seq<PidFile>>, monitorId: int, vcpus: VcpuList)
    returns (ret: int, ghost lost: set<Ptr>)
    requires heap.Valid() && vcpus.Valid() && list.Valid(heap.blocks)
    modifies heap, list`domains, list`num
    ensures heap.Valid() && list.Valid(heap.blocks)
    ensures var r := ReadDir(dir, monitorId, vcpus.Contents());
      && list.Doms(heap.blocks) == old(list.Doms(heap.blocks)) + r.doms
      && |lost| == r.leaks
      && ret == if r.complete then list.num else -1
    ensures Exchanged(old(heap.blocks), old(list.Blocks(heap.blocks)),
                      heap.blocks, list.Blocks(heap.blocks), lost)
  {
    hide ListOk, Exchanged, View, Owned;
    if dir.None? {
      NothingExchanged(heap.blocks, list.domains, list.num);
      return -1, {};
    }
    var complete;
    complete, lost := LoadPidFiles(list, heap, dir.value, monitorId, vcpus);
    ret := if complete then list.num else -1;
  }
}
