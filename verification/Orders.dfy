/** What the order of directory entries decides: the thread table exactly under the
    condition stated here, and otherwise nothing. */
module Orders {
  import opened Types
  import opened Multisets
  import opened Text
  import opened Proc
  import opened VcpuStat
  import opened Loader
  import opened ThreadTable

  // ----- Task directories -----

  /** The entries that get_child_pid writes to a record for. */
  predicate IsTask(e: TaskEntry) {
    !IsDots(e.name) && e.isDir
  }

  predicate Readable(e: TaskEntry) {
    IsTask(e) && e.Pid() >= 1 && e.stat.Some? && Comm(e.stat.value.text).Some?
  }

  /** A task whose stat file cannot be read: its number stays in the record. */
  predicate Unreadable(e: TaskEntry) {
    IsTask(e) && e.Pid() >= 1 && !Readable(e)
  }

  function CountReadable(entries: seq<TaskEntry>): nat {
    if entries == [] then 0 else (if Readable(entries[0]) then 1 else 0) + CountReadable(entries[1..])
  }

  function CountTasks(entries: seq<TaskEntry>): nat {
    if entries == [] then 0 else (if IsTask(entries[0]) then 1 else 0) + CountTasks(entries[1..])
  }

  /** The tasks read fill the table, or leave no number behind, or there is but one. */
  predicate OrderFree(n: nat, entries: seq<TaskEntry>) {
    && CountReadable(entries) <= n
    && (CountReadable(entries) == n || (forall e | e in entries :: !Unreadable(e)) || CountTasks(entries) <= 1)
  }

  function TableOf(n: nat, entries: seq<TaskEntry>, ppid: int, table: Table): seq<Task>
    requires table.num <= |table.rows|
  {
    ReadTasks(EmptySlots(n), entries, ppid, table).threads
  }

  /** Whatever order the directory lists its entries in, the same records result. */
  ghost predicate OrderIndependent(n: nat, entries: seq<TaskEntry>, ppid: int, table: Table)
    requires table.num <= |table.rows|
  {
    forall other: seq<TaskEntry> | multiset(other) == multiset(entries) ::
      multiset(TableOf(n, other, ppid, table)) == multiset(TableOf(n, entries, ppid, table))
  }

  lemma GoodIsReadable(e: TaskEntry, ppid: int, table: Table)
    requires table.num <= |table.rows|
    ensures GoodTask(e, ppid, table) == [] <==> !Readable(e)
    ensures Readable(e) ==> var g := GoodTask(e, ppid, table); |g| == 1 && g[0].pid == e.Pid()
  {
    hide Comm, WithVcpuStat, Contains, ParsePid;
    if Readable(e) {
      RecordContents(ZERO_TASK, e.Pid(), ppid, e.stat, table);
    }
  }

  lemma {:induction false} GoodCount(entries: seq<TaskEntry>, ppid: int, table: Table)
    requires table.num <= |table.rows|
    ensures |GoodTasks(entries, ppid, table)| == CountReadable(entries)
  {
    hide GoodTask, Readable;
    if entries == [] {
    } else {
      GoodCount(entries[1..], ppid, table);
      GoodIsReadable(entries[0], ppid, table);
    }
  }

  lemma {:induction false} GoodIsFlat(f: TaskEntry -> seq<Task>, entries: seq<TaskEntry>, ppid: int, table: Table)
    requires table.num <= |table.rows| && forall e :: f(e) == GoodTask(e, ppid, table)
    ensures GoodTasks(entries, ppid, table) == FlatMap(f, entries)
  {
    hide GoodTask;
    if entries == [] {
    } else {
      GoodIsFlat(f, entries[1..], ppid, table);
    }
  }

  lemma GoodPermuted(a: seq<TaskEntry>, b: seq<TaskEntry>, ppid: int, table: Table)
    requires multiset(a) == multiset(b) && table.num <= |table.rows|
    ensures multiset(GoodTasks(a, ppid, table)) == multiset(GoodTasks(b, ppid, table))
  {
    hide GoodTask;
    var f := (e: TaskEntry) => GoodTask(e, ppid, table);
    GoodIsFlat(f, a, ppid, table);
    GoodIsFlat(f, b, ppid, table);
    FlatMapPermuted(f, a, b);
  }

  /** What an entry makes of the record behind the tasks read so far. */
  function ResidueStep(p: Task, e: TaskEntry, ppid: int): Task {
    if !IsTask(e) then p
    else if Readable(e) then ZERO_TASK
    else if e.Pid() < 1 then p.(pid := 0)
    else p.(pid := e.Pid(), typ := ISTHREAD, ppid := ppid)
  }

  function Residue(p: Task, entries: seq<TaskEntry>, ppid: int): Task
    decreases |entries|
  {
    if entries == [] then p else Residue(ResidueStep(p, entries[0], ppid), entries[1..], ppid)
  }

  /** The tasks read, the record behind them, and cleared records. */
  function Row(done: seq<Task>, p: Task, n: nat): seq<Task>
    requires |done| < n
  {
    done + [p] + Repeat(ZERO_TASK, n - |done| - 1)
  }

  lemma RowStep(s: Slots, done: seq<Task>, p: Task, n: nat, e: TaskEntry, ppid: int, table: Table)
    requires table.num <= |table.rows| && |done| + |GoodTask(e, ppid, table)| < n
    requires s.threads == Row(done, p, n) && s.filled == |done| && Partial(p)
    ensures |s.threads| == n && s.threads[s.filled] == p
    ensures var s', good := ReadTask(s, e, ppid, table), GoodTask(e, ppid, table);
            && s'.threads == Row(done + good, ResidueStep(p, e, ppid), n)
            && s'.filled == |done + good|
            && Partial(ResidueStep(p, e, ppid))
  {
    hide Comm, WithVcpuStat, Contains, ParsePid;
    var s', good, q := ReadTask(s, e, ppid, table), GoodTask(e, ppid, table), ResidueStep(p, e, ppid);
    GoodIsReadable(e, ppid, table);
    assert p.(pid := e.Pid(), typ := ISTHREAD, ppid := ppid)
           == ZERO_TASK.(pid := e.Pid(), typ := ISTHREAD, ppid := ppid);
    assert TaskRecord(p, e.Pid(), ppid, e.stat, table) == TaskRecord(ZERO_TASK, e.Pid(), ppid, e.stat, table);
    if Readable(e) {
      assert s.threads[|done| := good[0]] == Row(done + good, ZERO_TASK, n);
    } else {
      assert s.threads[|done| := q] == Row(done, q, n);
      assert done + good == done;
    }
  }

  lemma {:induction false} RowRun(s: Slots, done: seq<Task>, p: Task, n: nat,
                                 entries: seq<TaskEntry>, ppid: int, table: Table)
    requires table.num <= |table.rows| && |done| + |GoodTasks(entries, ppid, table)| < n
    requires s.threads == Row(done, p, n) && s.filled == |done| && Partial(p)
    ensures s.filled <= |s.threads|
    ensures ReadTasks(s, entries, ppid, table).threads
            == Row(done + GoodTasks(entries, ppid, table), Residue(p, entries, ppid), n)
    decreases |entries|
  {
    hide ReadTask, GoodTask, ResidueStep, Partial;
    if entries == [] {
      assert done + [] == done;
    } else {
      var good, rest := GoodTask(entries[0], ppid, table), GoodTasks(entries[1..], ppid, table);
      RowStep(s, done, p, n, entries[0], ppid, table);
      RowRun(ReadTask(s, entries[0], ppid, table), done + good, ResidueStep(p, entries[0], ppid), n,
             entries[1..], ppid, table);
      assert done + good + rest == done + (good + rest);
    }
  }

  /** A table with room to spare. */
  lemma SpareTable(n: nat, entries: seq<TaskEntry>, ppid: int, table: Table)
    requires table.num <= |table.rows| && CountReadable(entries) < n
    ensures |GoodTasks(entries, ppid, table)| < n
    ensures TableOf(n, entries, ppid, table)
            == Row(GoodTasks(entries, ppid, table), Residue(ZERO_TASK, entries, ppid), n)
  {
    hide ReadTasks, GoodTasks, CountReadable, Residue;
    GoodCount(entries, ppid, table);
    assert EmptySlots(n).threads == Row([], ZERO_TASK, n);
    RowRun(EmptySlots(n), [], ZERO_TASK, n, entries, ppid, table);
    assert [] + GoodTasks(entries, ppid, table) == GoodTasks(entries, ppid, table);
  }

  /** A full table. */
  lemma FullTable(n: nat, entries: seq<TaskEntry>, ppid: int, table: Table)
    requires table.num <= |table.rows| && CountReadable(entries) >= n
    ensures |GoodTasks(entries, ppid, table)| == CountReadable(entries)
    ensures TableOf(n, entries, ppid, table) == GoodTasks(entries, ppid, table)[..n]
  {
    hide ReadTasks, GoodTasks, CountReadable, Partial, VcpuCount;
    GoodCount(entries, ppid, table);
    TableContents(n, entries, ppid, table);
    var s := ReadTasks(EmptySlots(n), entries, ppid, table);
    assert s.threads[..n] == s.threads;
  }

  /** Records of which there is one more on each side can be struck out. */
  lemma SameResidue(a: seq<Task>, b: seq<Task>, p: Task, q: Task, n: nat)
    requires multiset(a) == multiset(b) && |a| < n && |b| < n
    ensures |a| == |b|
    ensures multiset(Row(a, p, n)) == multiset(Row(b, q, n)) <==> p == q
  {
    assert |a| == |multiset(a)| == |b|;
    var z := multiset(Repeat(ZERO_TASK, n - |a| - 1));
    assert multiset(Row(a, p, n)) == multiset(a) + multiset{p} + z;
    assert multiset(Row(b, q, n)) == multiset(a) + multiset{q} + z;
    if p != q {
      assert multiset(Row(a, p, n))[p] == multiset(Row(b, q, n))[p] + 1;
    }
  }

  lemma {:induction false} ResidueConcat(p: Task, a: seq<TaskEntry>, b: seq<TaskEntry>, ppid: int)
    ensures Residue(p, a + b, ppid) == Residue(Residue(p, a, ppid), b, ppid)
    decreases |a|
  {
    hide ResidueStep;
    if a == [] {
      assert a + b == b;
    } else {
      assert (a + b)[1..] == a[1..] + b;
      ResidueConcat(ResidueStep(p, a[0], ppid), a[1..], b, ppid);
    }
  }

  lemma {:induction false} NoResidue(entries: seq<TaskEntry>, ppid: int)
    requires forall e | e in entries :: !Unreadable(e)
    ensures Residue(ZERO_TASK, entries, ppid) == ZERO_TASK
  {
    if entries == [] {
    } else {
      assert !Unreadable(entries[0]);
      assert ResidueStep(ZERO_TASK, entries[0], ppid) == ZERO_TASK;
      NoResidue(entries[1..], ppid);
    }
  }

  /** An unreadable task listed last leaves its number. */
  lemma ResidueLast(entries: seq<TaskEntry>, u: TaskEntry, ppid: int)
    requires Unreadable(u)
    ensures Residue(ZERO_TASK, entries + [u], ppid).pid == u.Pid()
  {
    ResidueConcat(ZERO_TASK, entries, [u], ppid);
    var p := Residue(ZERO_TASK, entries, ppid);
    assert Residue(p, [u], ppid) == ResidueStep(p, u, ppid) by { assert [u][1..] == []; }
  }

  /** Any other task listed behind it removes that number. */
  lemma {:induction false} ResidueGone(p: Task, entries: seq<TaskEntry>, ppid: int, pid: int)
    requires pid >= 1 && forall e | e in entries && IsTask(e) :: e.Pid() != pid
    ensures p.pid != pid ==> Residue(p, entries, ppid).pid != pid
    ensures CountTasks(entries) > 0 ==> Residue(p, entries, ppid).pid != pid
    decreases |entries|
  {
    hide ParsePid, Readable;
    if entries == [] {
    } else {
      assert entries[0] in entries;
      ResidueGone(ResidueStep(p, entries[0], ppid), entries[1..], ppid, pid);
    }
  }

  /** With a single task, it alone decides. */
  lemma {:induction false} OneTask(entries: seq<TaskEntry>, ppid: int) returns (e: TaskEntry)
    requires CountTasks(entries) <= 1
    ensures forall p :: Residue(p, entries, ppid) == ResidueStep(p, e, ppid)
    ensures CountTasks(entries) == 1 ==> e in entries && IsTask(e)
    ensures CountTasks(entries) == 0 ==> !IsTask(e)
    decreases |entries|
  {
    hide Readable, ParsePid;
    if entries == [] {
      e := TaskEntry("", false, None);
    } else if IsTask(entries[0]) {
      e := entries[0];
      var x := OneTask(entries[1..], ppid);
    } else {
      e := OneTask(entries[1..], ppid);
    }
  }

  lemma {:induction false} TasksConcat(a: seq<TaskEntry>, b: seq<TaskEntry>)
    ensures CountTasks(a + b) == CountTasks(a) + CountTasks(b)
    ensures CountReadable(a + b) == CountReadable(a) + CountReadable(b)
  {
    hide IsTask, Readable;
    if a == [] {
      assert a + b == b;
    } else {
      assert (a + b)[1..] == a[1..] + b;
      TasksConcat(a[1..], b);
    }
  }

  lemma {:induction false} TasksPermuted(a: seq<TaskEntry>, b: seq<TaskEntry>)
    requires multiset(a) == multiset(b)
    ensures CountTasks(a) == CountTasks(b) && CountReadable(a) == CountReadable(b)
    decreases |a|
  {
    hide CountTasks, CountReadable;
    if a == [] {
      Empty(a, b);
    } else {
      var a', x := Last(a);
      var u, v := Without(b, x);
      TasksPermuted(a', u + v);
      TasksConcat(a', [x]);
      TasksConcat(u + [x], v);
      TasksConcat(u, [x]);
      TasksConcat(u, v);
    }
  }

  lemma {:induction false} NoTasks(entries: seq<TaskEntry>)
    requires CountTasks(entries) == 0
    ensures forall e | e in entries :: !IsTask(e)
  {
    hide IsTask;
    if entries == [] {
    } else {
      NoTasks(entries[1..]);
    }
  }

  lemma OneIsCounted(e: TaskEntry)
    ensures CountTasks([e]) == if IsTask(e) then 1 else 0
  {
    assert [e][1..] == [];
  }

  lemma OnlyTask(entries: seq<TaskEntry>, e: TaskEntry, f: TaskEntry)
    requires CountTasks(entries) <= 1 && e in entries && f in entries && IsTask(e) && IsTask(f)
    ensures e == f
  {
    hide IsTask, CountTasks;
    var u, v := Without(entries, e);
    TasksConcat(u + [e], v);
    TasksConcat(u, [e]);
    TasksConcat(u, v);
    assert CountTasks([e]) == 1 by { OneIsCounted(e); }
    NoTasks(u + v);
  }

  lemma SameResidues(a: seq<TaskEntry>, b: seq<TaskEntry>, ppid: int)
    requires multiset(a) == multiset(b)
    requires (forall e | e in a :: !Unreadable(e)) || CountTasks(a) <= 1
    ensures Residue(ZERO_TASK, a, ppid) == Residue(ZERO_TASK, b, ppid)
  {
    hide IsTask, Readable, Unreadable, CountTasks, Residue;
    SameElements(a, b);
    if forall e | e in a :: !Unreadable(e) {
      NoResidue(a, ppid);
      NoResidue(b, ppid);
    } else {
      TasksPermuted(a, b);
      var e := OneTask(a, ppid);
      var f := OneTask(b, ppid);
      if CountTasks(a) == 1 {
        OnlyTask(a, e, f);
      }
    }
  }

  lemma FreeIsIndependent(n: nat, entries: seq<TaskEntry>, other: seq<TaskEntry>, ppid: int, table: Table)
    requires table.num <= |table.rows| && OrderFree(n, entries) && multiset(other) == multiset(entries)
    ensures multiset(TableOf(n, other, ppid, table)) == multiset(TableOf(n, entries, ppid, table))
  {
    hide GoodTasks, Residue, CountReadable, CountTasks, TableOf, Unreadable, Row;
    TasksPermuted(other, entries);
    GoodPermuted(other, entries, ppid, table);
    if CountReadable(entries) == n {
      FullTable(n, other, ppid, table);
      FullTable(n, entries, ppid, table);
      assert GoodTasks(other, ppid, table)[..n] == GoodTasks(other, ppid, table);
      assert GoodTasks(entries, ppid, table)[..n] == GoodTasks(entries, ppid, table);
    } else {
      SpareTable(n, other, ppid, table);
      SpareTable(n, entries, ppid, table);
      SameResidues(entries, other, ppid);
      SameResidue(GoodTasks(other, ppid, table), GoodTasks(entries, ppid, table),
                  Residue(ZERO_TASK, other, ppid), Residue(ZERO_TASK, entries, ppid), n);
    }
  }

  lemma DistinctAround(a: seq<TaskEntry>, u: TaskEntry, b: seq<TaskEntry>)
    requires NumbersDistinct(a + [u] + b) && u.Pid() >= 1
    ensures forall e | e in a + b :: e.Pid() != u.Pid()
  {
    hide ParsePid;
    var all := a + [u] + b;
    assert all[|a|] == u;
    forall i | 0 <= i < |a|
      ensures a[i].Pid() != u.Pid()
    {
      assert all[i] == a[i];
    }
    forall i | 0 <= i < |b|
      ensures b[i].Pid() != u.Pid()
    {
      assert all[|a| + 1 + i] == b[i];
    }
  }

  lemma ResiduesDiffer(rest: seq<TaskEntry>, u: TaskEntry, ppid: int)
    requires Unreadable(u) && CountTasks(rest) > 0 && forall e | e in rest :: e.Pid() != u.Pid()
    ensures Residue(ZERO_TASK, rest + [u], ppid) != Residue(ZERO_TASK, [u] + rest, ppid)
  {
    hide Residue, CountTasks, Readable, IsTask, ParsePid;
    ResidueLast(rest, u, ppid);
    ResidueConcat(ZERO_TASK, [u], rest, ppid);
    ResidueGone(Residue(ZERO_TASK, [u], ppid), rest, ppid, u.Pid());
  }

  lemma SpareTablesDiffer(n: nat, a: seq<TaskEntry>, b: seq<TaskEntry>, ppid: int, table: Table)
    requires table.num <= |table.rows| && multiset(a) == multiset(b) && CountReadable(a) < n
    requires Residue(ZERO_TASK, a, ppid) != Residue(ZERO_TASK, b, ppid)
    ensures multiset(TableOf(n, a, ppid, table)) != multiset(TableOf(n, b, ppid, table))
  {
    hide GoodTasks, Residue, CountReadable, TableOf, Row;
    TasksPermuted(a, b);
    GoodPermuted(a, b, ppid, table);
    SpareTable(n, a, ppid, table);
    SpareTable(n, b, ppid, table);
    SameResidue(GoodTasks(a, ppid, table), GoodTasks(b, ppid, table),
                Residue(ZERO_TASK, a, ppid), Residue(ZERO_TASK, b, ppid), n);
  }

  /** A number left behind shows or not, depending on where its task is listed. */
  lemma LeftOver(n: nat, entries: seq<TaskEntry>, u: TaskEntry, ppid: int, table: Table)
    requires table.num <= |table.rows| && NumbersDistinct(entries) && CountReadable(entries) < n
    requires u in entries && Unreadable(u) && CountTasks(entries) > 1
    ensures !OrderIndependent(n, entries, ppid, table)
  {
    hide Residue, CountReadable, CountTasks, TableOf, Readable, NumbersDistinct, IsTask, ParsePid;
    var a, b := Without(entries, u);
    var rest := a + b;
    ToEitherEnd(a, u, b);
    var last, first := rest + [u], [u] + rest;
    TasksPermuted(first, entries);
    TasksPermuted(last, entries);
    TasksConcat([u], rest);
    OneIsCounted(u);
    DistinctAround(a, u, b);
    ResiduesDiffer(rest, u, ppid);
    SpareTablesDiffer(n, last, first, ppid, table);
  }

  /** The entry that good task k was read from. */
  lemma {:induction false} GoodSource(entries: seq<TaskEntry>, k: nat, ppid: int, table: Table)
    returns (u: seq<TaskEntry>, e: TaskEntry, v: seq<TaskEntry>)
    requires table.num <= |table.rows| && k < |GoodTasks(entries, ppid, table)|
    ensures entries == u + [e] + v && Readable(e)
    ensures GoodTasks(u, ppid, table) == GoodTasks(entries, ppid, table)[..k]
    ensures GoodTask(e, ppid, table) == [GoodTasks(entries, ppid, table)[k]]
  {
    hide GoodTask, Readable;
    GoodIsReadable(entries[0], ppid, table);
    var good := GoodTask(entries[0], ppid, table);
    if k < |good| {
      u, e, v := [], entries[0], entries[1..];
    } else {
      u, e, v := GoodSource(entries[1..], k - |good|, ppid, table);
      var u' := [entries[0]] + u;
      assert u'[1..] == u;
      assert entries == u' + [e] + v;
      u := u';
    }
  }

  lemma {:induction false} GoodPids(entries: seq<TaskEntry>, ppid: int, table: Table, pid: int)
    requires table.num <= |table.rows| && forall e | e in entries :: e.Pid() != pid
    ensures forall t | t in GoodTasks(entries, ppid, table) :: t.pid != pid
  {
    hide GoodTask, Readable, ParsePid;
    if entries == [] {
    } else {
      assert entries[0] in entries;
      GoodIsReadable(entries[0], ppid, table);
      GoodPids(entries[1..], ppid, table, pid);
    }
  }

  lemma ReadablePid(e: TaskEntry)
    requires Readable(e)
    ensures e.Pid() >= 1
  {
  }

  lemma FirstGood(e: TaskEntry, rest: seq<TaskEntry>, ppid: int, table: Table)
    requires table.num <= |table.rows| && |GoodTask(e, ppid, table)| == 1
    ensures var good := GoodTasks([e] + rest, ppid, table); |good| > 0 && good[0] == GoodTask(e, ppid, table)[0]
  {
    hide GoodTask;
    assert ([e] + rest)[1..] == rest;
  }

  /** Which tasks fit the table depends on which are listed first. */
  lemma TooMany(n: nat, entries: seq<TaskEntry>, ppid: int, table: Table)
    requires table.num <= |table.rows| && NumbersDistinct(entries) && 0 < n < CountReadable(entries)
    ensures !OrderIndependent(n, entries, ppid, table)
  {
    hide CountReadable, TableOf, Readable, NumbersDistinct, ParsePid, GoodTask, GoodTasks;
    GoodCount(entries, ppid, table);
    var u, e, v := GoodSource(entries, n, ppid, table);
    var other := [e] + (u + v);
    ToEitherEnd(u, e, v);
    TasksPermuted(other, entries);
    FullTable(n, other, ppid, table);
    FullTable(n, entries, ppid, table);
    assert e.Pid() >= 1 by { ReadablePid(e); }
    DistinctAround(u, e, v);
    GoodPids(u, ppid, table, e.Pid());
    GoodIsReadable(e, ppid, table);
    FirstGood(e, u + v, ppid, table);
    var x := TableOf(n, other, ppid, table)[0];
    assert x.pid == e.Pid() && x in multiset(TableOf(n, other, ppid, table));
    assert x !in GoodTasks(u, ppid, table);
    assert x !in multiset(TableOf(n, entries, ppid, table));
  }

  /** A thread table of at least one record, read from a directory that lists no number
      twice, holds the same records in whatever order the entries are listed, if and
      only if the tasks read fill it exactly; or do not fill it and no task's stat file
      is unreadable, or there is no other task. */
  lemma OrderDecides(n: nat, entries: seq<TaskEntry>, ppid: int, table: Table)
    requires table.num <= |table.rows| && NumbersDistinct(entries) && n > 0
    ensures OrderIndependent(n, entries, ppid, table) <==> OrderFree(n, entries)
  {
    hide CountReadable, CountTasks, TableOf, Unreadable, NumbersDistinct;
    if OrderFree(n, entries) {
      forall other: seq<TaskEntry> | multiset(other) == multiset(entries)
        ensures multiset(TableOf(n, other, ppid, table)) == multiset(TableOf(n, entries, ppid, table))
      {
        FreeIsIndependent(n, entries, other, ppid, table);
      }
    } else if CountReadable(entries) > n {
      TooMany(n, entries, ppid, table);
    } else {
      var u :| u in entries && Unreadable(u);
      LeftOver(n, entries, u, ppid, table);
    }
  }
}
