/** What the records of a reachable state say, in terms of the files the frame read. */
module Records {
  import opened Types
  import opened Text
  import opened Proc
  import opened VcpuStat
  import opened DomainLists
  import opened Loader
  import opened ThreadTable
  import opened Refresh
  import opened Leaks
  import opened Aggregation
  import opened Runs
  import opened Orders
  import opened Listings
  import opened VcpuText

  /** A domain's record says what its pid file, and the files found through it, say. */
  predicate RecordOf(t: Task, f: PidFile) {
    && f.stat.Some?
    && t.typ == ISDOMAIN
    && t.pid == f.Pid() && t.domainId == f.Id()
    && t.vmname + ".pid" == f.name
    && t.ppid == f.stat.value.ppid && t.nlwp == f.stat.value.nlwp
    && t.stat[UTIME] == f.stat.value.utime && t.stat[STIME] == f.stat.value.stime
    && forall r | 0 <= r < VCPU_STAT_SIZE && r != ST_MAX :: t.stat[r] == 0
  }

  /** A thread's record says what its stat file says, and, for a vCPU, what the first
      row of the vcpu_stat table with its number says. */
  predicate ThreadOf(t: Task, e: TaskEntry, table: Table)
    requires table.num <= |table.rows|
  {
    var i := FirstPid(table.rows[..table.num], t.pid);
    && Readable(e)
    && t.pid == e.Pid() && Comm(e.stat.value.text) == Some(t.vmname)
    && t.ppid == e.stat.value.ppid && t.nlwp == e.stat.value.nlwp
    && t.stat[UTIME] == e.stat.value.utime && t.stat[STIME] == e.stat.value.stime
    && (t.typ == ISVCPU <==> Contains(t.vmname, "CPU"))
    && forall r | 1 <= r < VCPU_STAT_SIZE ::
         t.stat[r] == if t.typ == ISVCPU && i < table.num then table.rows[i].stat[r] else 0
  }

  /** Every record in use is some readable task's. */
  ghost predicate ThreadsOf(ts: seq<Task>, entries: seq<TaskEntry>, table: Table)
    requires table.num <= |table.rows|
  {
    forall j | 0 <= j < |ts| && ts[j].smpVcpus == 1 :: exists e | e in entries :: ThreadOf(ts[j], e, table)
  }

  ghost predicate DomOf(d: Dom, f: PidFile, table: Table)
    requires table.num <= |table.rows|
  {
    && !Skipped(f) && RecordOf(d.task, f)
    && f.tasks.Some? && ThreadsOf(d.threads, f.tasks.value, table)
    && |d.threads| == d.task.nlwp
  }

  lemma GoodThread(e: TaskEntry, ppid: int, table: Table)
    requires table.num <= |table.rows| && Readable(e)
    ensures |GoodTask(e, ppid, table)| == 1
    ensures ThreadOf(GoodTask(e, ppid, table)[0], e, table)
  {
    hide Comm, Contains, ParsePid, FirstPid;
    GoodIsReadable(e, ppid, table);
    RecordContents(ZERO_TASK, e.Pid(), ppid, e.stat, table);
  }

  lemma {:induction false} GoodThreads(entries: seq<TaskEntry>, ppid: int, table: Table)
    requires table.num <= |table.rows|
    ensures ThreadsOf(GoodTasks(entries, ppid, table), entries, table)
  {
    hide GoodTask, Readable, ThreadOf;
    if entries == [] {
    } else {
      var e, good := entries[0], GoodTask(entries[0], ppid, table);
      var rest, all := GoodTasks(entries[1..], ppid, table), GoodTasks(entries, ppid, table);
      GoodThreads(entries[1..], ppid, table);
      GoodIsReadable(e, ppid, table);
      if Readable(e) {
        GoodThread(e, ppid, table);
      }
      forall j | 0 <= j < |all| && all[j].smpVcpus == 1
        ensures exists x | x in entries :: ThreadOf(all[j], x, table)
      {
        if j < |good| {
          assert e in entries;
        } else {
          var x :| x in entries[1..] && ThreadOf(rest[j - |good|], x, table);
          assert x in entries;
        }
      }
    }
  }

  lemma TableThreads(n: nat, entries: seq<TaskEntry>, ppid: int, table: Table)
    requires table.num <= |table.rows|
    ensures ThreadsOf(TableOf(n, entries, ppid, table), entries, table)
  {
    hide ReadTasks, GoodTasks, ThreadOf;
    TableContents(n, entries, ppid, table);
    GoodThreads(entries, ppid, table);
    var s, good := ReadTasks(EmptySlots(n), entries, ppid, table), GoodTasks(entries, ppid, table);
    forall j | 0 <= j < |s.threads| && s.threads[j].smpVcpus == 1
      ensures exists e | e in entries :: ThreadOf(s.threads[j], e, table)
    {
      assert j < s.filled;
      assert s.threads[j] == s.threads[..s.filled][j] == good[..s.filled][j] == good[j];
    }
  }

  /** A file that is loaded gives its own domain. */
  lemma LoadedDom(f: PidFile, monitorId: int, table: Table)
    requires !Skipped(f) && table.num <= |table.rows|
    ensures |f.name| > 4
    ensures var r := LoadDomain(f, monitorId, table); r.Loaded? ==> DomOf(r.dom, f, table)
  {
    hide Comm, ReadTasks, ParsePid, CgroupId, VcpuCount, ThreadsOf;
    NotSkipped(f);
    var r := LoadDomain(f, monitorId, table);
    if r.Loaded? {
      assert f.name == f.name[..|f.name| - 4] + ".pid";
      ReadTasksLength(EmptySlots(r.dom.task.nlwp), f.tasks.value, f.Pid(), table);
      TableThreads(r.dom.task.nlwp, f.tasks.value, f.Pid(), table);
    }
  }

  lemma {:induction false} ListedDoms(files: seq<PidFile>, monitorId: int, table: Table)
    requires table.num <= |table.rows|
    ensures forall d | d in LoadAll(files, monitorId, table).doms :: exists f | f in files :: DomOf(d, f, table)
  {
    hide LoadDomain, Skipped, DomOf;
    if files == [] {
    } else {
      var rest := files[1..];
      ListedDoms(rest, monitorId, table);
      assert files[0] in files;
      forall d | d in LoadAll(rest, monitorId, table).doms
        ensures exists f | f in files :: DomOf(d, f, table)
      {
        var f :| f in rest && DomOf(d, f, table);
        assert f in files;
      }
      if !Skipped(files[0]) {
        LoadedDom(files[0], monitorId, table);
      }
    }
  }

  lemma JoinedRecord(d: Task, prev: Task, ts: seq<Task>, prevThreads: seq<Task>, f: PidFile)
    requires RecordOf(d, f)
    ensures RecordOf(AddMatched(WithDeltas(d, prev, UTIME, COUNTERS), ts, prevThreads), f)
  {
    hide AddMatched, ParsePid, CgroupId;
    var own := WithDeltas(d, prev, UTIME, COUNTERS);
    AddMatchedKeeps(own, ts, prevThreads);
    forall r | 0 <= r < COUNTERS && r != ST_MAX
      ensures AddMatched(own, ts, prevThreads).stat[r] == d.stat[r]
    {
      AddMatchedOther(own, ts, prevThreads, r);
    }
  }

  lemma JoinedThreads(ts: seq<Task>, prev: seq<Task>, entries: seq<TaskEntry>, table: Table)
    requires table.num <= |table.rows| && ThreadsOf(ts, entries, table)
    ensures ThreadsOf(JoinThreads(ts, prev), entries, table)
  {
    hide JoinThread, Comm, Contains, ParsePid, Readable;
    var js := JoinThreads(ts, prev);
    forall j | 0 <= j < |js| && js[j].smpVcpus == 1
      ensures exists e | e in entries :: ThreadOf(js[j], e, table)
    {
      JoinThreadKeeps(ts[j], prev);
      var e :| e in entries && ThreadOf(ts[j], e, table);
      assert ThreadOf(js[j], e, table);
    }
  }

  lemma JoinedDom(d: Dom, olds: seq<Dom>, f: PidFile, table: Table)
    requires table.num <= |table.rows| && DomOf(d, f, table)
    ensures DomOf(JoinDom(d, olds), f, table)
  {
    hide AddMatched, WithDeltas, JoinThread, RecordOf, ThreadsOf, Skipped;
    var i := FirstId(olds, d.task.domainId);
    if i < |olds| {
      var ts := JoinThreads(d.threads, olds[i].threads);
      JoinedRecord(d.task, olds[i].task, ts, olds[i].threads, f);
      JoinedThreads(d.threads, olds[i].threads, f.tasks.value, table);
      JoinKeeps(d, olds[i]);
    }
  }

  /** In every reachable state each listed domain is the one of a file of the directory
      its frame read, with that file's number and its stat file's counters; and each
      thread record in use is the one of an entry of its task directory. */
  lemma RunRecords(run: Run, k: nat, d: Dom)
    requires TableOk(run.table) && 1 <= k <= |run.frames| && d in StateAt(run, k).now
    ensures var frame := run.frames[k - 1];
            && frame.vcpuText.Some? && frame.dir.Some?
            && exists f | f in frame.dir.value :: DomOf(d, f, StateAt(run, k).table)
  {
    hide JoinDom, ReadRows, LoadAll, DomOf;
    var frame, s := run.frames[k - 1], StateAt(run, k - 1);
    var ds := LoadedAt(run, k).doms;
    var i :| 0 <= i < |ds| && JoinDom(ds[i], s.now) == d;
    ListedDoms(frame.dir.value, run.monitorId, TableAfter(frame, s.table));
    assert ds[i] in ds;
    var f :| f in frame.dir.value && DomOf(ds[i], f, TableAfter(frame, s.table));
    JoinedDom(ds[i], s.now, f, TableAfter(frame, s.table));
  }

  /** After a frame that could open the vcpu_stat file, the table has a row for every
      line of it, as far as there are records, with the numbers that stand there. */
  lemma RunTable(run: Run, k: nat, i: nat, c: nat)
    requires TableOk(run.table) && 1 <= k <= |run.frames| && run.frames[k - 1].vcpuText.Some?
    requires i < MAX_VCPU_NUM && 1 <= c < VCPU_STAT_SIZE
    ensures var table, line := StateAt(run, k).table, Line(run.frames[k - 1].vcpuText.value, i);
            && (i < table.num <==> line.Some?)
            && (line.Some? ==>
                  var pid, n := NumberAt(Tokens(line.value), 0), NumberAt(Tokens(line.value), c);
                  && (pid.Some? ==> table.rows[i].pid == AsPid(pid.value))
                  && (n.Some? ==> table.rows[i].stat[c] == n.value))
  {
    hide ReadRows, Line, Tokens, NumberAt, AsPid, JoinAll, Load;
    var text, t := run.frames[k - 1].vcpuText.value, Table(StateAt(run, k - 1).table.rows, 0);
    RowsRead(text, t, i);
    if Line(text, i).Some? {
      ColumnFromFile(text, i, c);
      PidFromFile(text, i);
      assert Rewound(t);
    }
  }

  /** A frame whose vcpu_stat file or directory cannot be opened lists nothing, and
      keeps what was listed as previous list. */
  lemma FailedFrame(run: Run, k: nat)
    requires TableOk(run.table) && 1 <= k <= |run.frames|
    requires run.frames[k - 1].vcpuText.None? || run.frames[k - 1].dir.None?
    ensures StateAt(run, k).now == [] && StateAt(run, k).pre == StateAt(run, k - 1).now
    ensures run.frames[k - 1].vcpuText.None? ==> StateAt(run, k).table == StateAt(run, k - 1).table
  {
    hide ReadRows;
  }

  /** The listing is complete exactly if a record could be allocated for every pid file. */
  lemma {:induction false} CompleteListing(files: seq<PidFile>, monitorId: int, table: Table)
    requires table.num <= |table.rows|
    ensures LoadAll(files, monitorId, table).complete <==> Allocated(files)
  {
    hide LoadDomain, Skipped;
    if files == [] {
    } else {
      CompleteListing(files[1..], monitorId, table);
      assert files[0] in files && forall f | f in files :: f == files[0] || f in files[1..];
    }
  }

  /** Which entries are passed over: exactly those that are no regular file, or whose
      name is not made of a non-empty stem and ".pid". */
  lemma PassedOver(f: PidFile)
    ensures Skipped(f) <==> !(f.isReg && exists stem | stem != "" :: f.name == stem + ".pid")
  {
    hide CheckPidFile;
    PidFileNames(f.name);
    if exists stem | stem != "" :: f.name == stem + ".pid" {
      var stem :| stem != "" && f.name == stem + ".pid";
      assert |f.name| > 4;
    }
  }

  /** The number in a pid file, with or without a newline behind it. */
  lemma PidInFile(f: PidFile, n: nat, after: string)
    requires n < 100000 && (after == "" || after == "\n") && f.text == Some(Dec(n) + after)
    ensures f.Pid() == n
  {
    hide Dec, ScanUnsigned;
    ScanNumber("", n, after);
    assert Pow10(5) == 100000;
    DecLength(n, 5);
    assert "" + Dec(n) + after == Dec(n) + after;
  }

  /** Of a longer file only the first 11 characters are read. */
  lemma PidPrefix(f: PidFile, g: PidFile)
    requires f.text.Some? && g.text.Some? && |g.text.value| >= 11
    requires f.text.value == g.text.value[..11]
    ensures f.Pid() == g.Pid()
  {
    hide ParsePid;
    assert |g.text.value| == 11 ==> g.text.value[..11] == g.text.value;
    assert f.text.value[..|f.text.value|] == f.text.value;
  }
}
