/** What the order of directory entries decides for whole runs: nothing that is shown
    for any id or pid, if every thread table is one that order does not matter for. */
module Listings {
  import opened Types
  import opened Multisets
  import opened Text
  import opened Proc
  import opened VcpuStat
  import opened DomainLists
  import opened Loader
  import opened ThreadTable
  import opened Refresh
  import opened Leaks
  import opened Runs
  import opened Permutation
  import opened Orders

  /** The file is loaded if its record can be allocated. */
  predicate Admits(f: PidFile, monitorId: int) {
    !Skipped(f) && GetsThreads(f, monitorId) && NameFits(f)
  }

  /** The same file, its task directory listed in any order. */
  ghost predicate SameFile(a: PidFile, b: PidFile) {
    && b == a.(tasks := b.tasks)
    && (a.tasks.None? <==> b.tasks.None?)
    && (a.tasks.Some? ==> multiset(a.tasks.value) == multiset(b.tasks.value))
  }

  ghost predicate SameFiles(a: seq<PidFile>, b: seq<PidFile>) {
    |a| == |b| && forall i | 0 <= i < |a| :: SameFile(a[i], b[i])
  }

  /** The same files in any order, each with its task directory in any order. */
  ghost predicate Reordered(a: seq<PidFile>, b: seq<PidFile>) {
    exists m: seq<PidFile> :: SameFiles(a, m) && multiset(m) == multiset(b)
  }

  predicate Allocated(files: seq<PidFile>) {
    forall f | f in files :: Skipped(f) || f.slotAlloc
  }

  /** No two machines loaded have the same id. */
  predicate IdsDistinct(files: seq<PidFile>, monitorId: int) {
    forall i, j | 0 <= i < j < |files| && Admits(files[i], monitorId) && Admits(files[j], monitorId) ::
      files[i].Id() != files[j].Id()
  }

  /** Order does not matter for the thread tables of the machines loaded. */
  predicate TablesOrderFree(files: seq<PidFile>, monitorId: int) {
    forall f | f in files && Admits(f, monitorId) ::
      NumbersDistinct(f.tasks.value) && OrderFree(f.stat.value.nlwp, f.tasks.value)
  }

  predicate Orderly(files: seq<PidFile>, monitorId: int) {
    Allocated(files) && IdsDistinct(files, monitorId) && TablesOrderFree(files, monitorId)
  }

  lemma {:induction false} VcpuCountPermuted(a: seq<Task>, b: seq<Task>)
    requires multiset(a) == multiset(b)
    ensures VcpuCount(a) == VcpuCount(b)
    decreases |a|
  {
    hide VcpuCount;
    if a == [] {
      Empty(a, b);
    } else {
      var a', x := Last(a);
      var u, v := Without(b, x);
      VcpuCountPermuted(a', u + v);
      VcpuCountAppend(a', [x]);
      VcpuCountAppend(u + [x], v);
      VcpuCountAppend(u, [x]);
      VcpuCountAppend(u, v);
    }
  }

  /** What a file admitted gives. */
  lemma LoadedAs(f: PidFile, monitorId: int, table: Table)
    requires Admits(f, monitorId) && table.num <= |table.rows|
    ensures |f.name| > 4 && f.tasks.Some? && f.stat.Some? && f.stat.value.nlwp > 0
    ensures var r, n := LoadDomain(f, monitorId, table), f.stat.value.nlwp;
            && r.Loaded?
            && r.dom.threads == TableOf(n, f.tasks.value, f.Pid(), table)
            && r.dom.task.smpVcpus == VcpuCount(r.dom.threads)
            && r.dom.task.domainId == f.Id()
            && r.dom.task
               == LoadDomain(f.(tasks := Some([])), monitorId, table).dom.task.(smpVcpus := r.dom.task.smpVcpus)
  {
    hide Comm, ReadTasks, ParsePid, CgroupId, VcpuCount, GoodTasks, Partial;
    NotSkipped(f);
    TableContents(f.stat.value.nlwp, f.tasks.value, f.Pid(), table);
  }

  lemma SameLoad(a: PidFile, b: PidFile, monitorId: int, table: Table)
    requires SameFile(a, b) && Admits(a, monitorId) && table.num <= |table.rows|
    requires OrderFree(a.stat.value.nlwp, a.tasks.value)
    ensures |a.name| > 4 && Admits(b, monitorId)
    ensures var q, r := LoadDomain(a, monitorId, table), LoadDomain(b, monitorId, table);
            q.Loaded? && r.Loaded? && SameDom(q.dom, r.dom)
  {
    hide LoadDomain, OrderFree, TableOf, VcpuCount, ParsePid, CgroupId, Comm;
    LoadedAs(a, monitorId, table);
    LoadedAs(b, monitorId, table);
    FreeIsIndependent(a.stat.value.nlwp, a.tasks.value, b.tasks.value, a.Pid(), table);
    VcpuCountPermuted(LoadDomain(a, monitorId, table).dom.threads, LoadDomain(b, monitorId, table).dom.threads);
    assert a.(tasks := Some([])) == b.(tasks := Some([]));
  }

  ghost predicate SameDoms(a: seq<Dom>, b: seq<Dom>) {
    |a| == |b| && forall i | 0 <= i < |a| :: SameDom(a[i], b[i])
  }

  /** A file that is not admitted gives nothing. */
  lemma NotAdmitted(f: PidFile, monitorId: int, table: Table)
    requires !Skipped(f) && !Admits(f, monitorId) && table.num <= |table.rows|
    ensures |f.name| > 4 && LoadedDoms(LoadDomain(f, monitorId, table)) == []
  {
    hide GetsThreads, NameFits, LoadDomain;
    NotSkipped(f);
    Outcome(f, monitorId, table);
  }

  lemma SameFileAdmitted(a: PidFile, b: PidFile, monitorId: int)
    requires SameFile(a, b)
    ensures Admits(a, monitorId) <==> Admits(b, monitorId)
    ensures Skipped(a) <==> Skipped(b)
  {
    hide ParsePid, CgroupId, Comm;
  }

  lemma SameSlot(a: PidFile, b: PidFile)
    requires SameFile(a, b)
    ensures a.slotAlloc == b.slotAlloc
  {
  }

  lemma {:induction false} SameFilesLoad(a: seq<PidFile>, b: seq<PidFile>, monitorId: int, table: Table)
    requires SameFiles(a, b) && Allocated(a) && TablesOrderFree(a, monitorId) && table.num <= |table.rows|
    ensures SameDoms(LoadAll(a, monitorId, table).doms, LoadAll(b, monitorId, table).doms)
  {
    hide Skipped, Admits, LoadDomain, SameFile, SameDom, OrderFree, NumbersDistinct;
    if a == [] {
    } else {
      assert a[0] in a;
      SameFilesLoad(a[1..], b[1..], monitorId, table);
      SameFileAdmitted(a[0], b[0], monitorId);
      assert a[0].slotAlloc == b[0].slotAlloc by { SameSlot(a[0], b[0]); }
      if Skipped(a[0]) {
      } else if Admits(a[0], monitorId) {
        SameLoad(a[0], b[0], monitorId, table);
      } else {
        NotAdmitted(a[0], monitorId, table);
        NotAdmitted(b[0], monitorId, table);
      }
    }
  }

  /** Entries found for the same ids hold the same. */
  lemma SameDomsEquivalent(a: seq<Dom>, b: seq<Dom>)
    requires SameDoms(a, b)
    ensures Equivalent(a, b)
  {
    forall id
      ensures FirstId(a, id) == FirstId(b, id)
    {
      FirstIdUnique(b, id, FirstId(a, id));
    }
  }

  lemma EquivalentTwice(a: seq<Dom>, b: seq<Dom>, c: seq<Dom>)
    requires Equivalent(a, b) && Equivalent(b, c)
    ensures Equivalent(a, c)
  {
    forall id | FirstId(a, id) < |a| || FirstId(c, id) < |c|
      ensures FirstId(a, id) < |a| && FirstId(c, id) < |c|
      ensures SameDom(a[FirstId(a, id)], c[FirstId(c, id)])
    {
      assert FirstId(b, id) < |b|;
    }
  }

  function DomsOf(f: PidFile, monitorId: int, table: Table): seq<Dom>
    requires table.num <= |table.rows|
  {
    if Skipped(f) then [] else LoadedDoms(LoadDomain(f, monitorId, table))
  }

  lemma {:induction false} LoadIsFlat(f: PidFile -> seq<Dom>, files: seq<PidFile>, monitorId: int, table: Table)
    requires table.num <= |table.rows| && Allocated(files) && forall x :: f(x) == DomsOf(x, monitorId, table)
    ensures LoadAll(files, monitorId, table).doms == FlatMap(f, files)
  {
    hide LoadDomain, Skipped;
    if files == [] {
    } else {
      assert files[0] in files;
      LoadIsFlat(f, files[1..], monitorId, table);
      assert f(files[0]) == DomsOf(files[0], monitorId, table);
    }
  }

  lemma LoadPermuted(a: seq<PidFile>, b: seq<PidFile>, monitorId: int, table: Table)
    requires multiset(a) == multiset(b) && Allocated(a) && table.num <= |table.rows|
    ensures multiset(LoadAll(a, monitorId, table).doms) == multiset(LoadAll(b, monitorId, table).doms)
  {
    hide DomsOf, Skipped;
    var f := (x: PidFile) => DomsOf(x, monitorId, table);
    SameElements(a, b);
    LoadIsFlat(f, a, monitorId, table);
    LoadIsFlat(f, b, monitorId, table);
    FlatMapPermuted(f, a, b);
  }

  ghost predicate DomIdsDistinct(ds: seq<Dom>) {
    forall i, j | 0 <= i < j < |ds| :: ds[i].task.domainId != ds[j].task.domainId
  }

  lemma {:induction false} LoadedIds(files: seq<PidFile>, monitorId: int, table: Table, id: int)
    requires table.num <= |table.rows| && forall f | f in files && Admits(f, monitorId) :: f.Id() != id
    ensures forall d | d in LoadAll(files, monitorId, table).doms :: d.task.domainId != id
  {
    hide LoadDomain, Skipped, Admits, CgroupId;
    if files == [] {
    } else {
      assert files[0] in files;
      LoadedIds(files[1..], monitorId, table, id);
      if !Skipped(files[0]) {
        if Admits(files[0], monitorId) {
          LoadedAs(files[0], monitorId, table);
        } else {
          NotAdmitted(files[0], monitorId, table);
        }
      }
    }
  }

  lemma {:induction false} LoadedIdsDistinct(files: seq<PidFile>, monitorId: int, table: Table)
    requires table.num <= |table.rows| && IdsDistinct(files, monitorId)
    ensures DomIdsDistinct(LoadAll(files, monitorId, table).doms)
  {
    hide LoadDomain, Skipped, Admits, CgroupId;
    if files == [] {
    } else {
      var f, rest := files[0], files[1..];
      forall i, j | 0 <= i < j < |rest| && Admits(rest[i], monitorId) && Admits(rest[j], monitorId)
        ensures rest[i].Id() != rest[j].Id()
      {
        assert rest[i] == files[i + 1] && rest[j] == files[j + 1];
      }
      LoadedIdsDistinct(rest, monitorId, table);
      if !Skipped(f) {
        if Admits(f, monitorId) {
          LoadedAs(f, monitorId, table);
          LoadedIds(rest, monitorId, table, f.Id());
        } else {
          NotAdmitted(f, monitorId, table);
        }
      }
    }
  }

  lemma {:induction false} LoadDetermines(files: seq<PidFile>, monitorId: int, table: Table)
    requires table.num <= |table.rows| && TablesOrderFree(files, monitorId)
    ensures forall d | d in LoadAll(files, monitorId, table).doms :: PidDetermines(d.threads)
  {
    hide LoadDomain, Skipped, Admits, OrderFree, NumbersDistinct, PidDetermines, ReadTasks;
    if files == [] {
    } else {
      var f := files[0];
      assert f in files;
      LoadDetermines(files[1..], monitorId, table);
      if !Skipped(f) {
        if Admits(f, monitorId) {
          LoadedAs(f, monitorId, table);
          TableDetermines(f.stat.value.nlwp, f.tasks.value, f.Pid(), table);
        } else {
          NotAdmitted(f, monitorId, table);
        }
      }
    }
  }

  lemma SameFilesAllocated(a: seq<PidFile>, b: seq<PidFile>)
    requires SameFiles(a, b) && Allocated(a)
    ensures Allocated(b)
  {
    forall i | 0 <= i < |b|
      ensures Skipped(b[i]) || b[i].slotAlloc
    {
      assert a[i] in a && SameFile(a[i], b[i]);
    }
  }

  lemma SameDomsIds(a: seq<Dom>, b: seq<Dom>)
    requires SameDoms(a, b) && DomIdsDistinct(a)
    ensures forall i, j | 0 <= i < j < |b| :: b[i].task.domainId != b[j].task.domainId
  {
    assert forall i | 0 <= i < |a| :: SameDom(a[i], b[i]);
  }

  /** Reordering the directories of a frame loads the same domains for every id. */
  lemma ListingReordered(files: seq<PidFile>, files': seq<PidFile>, monitorId: int, table: Table)
    requires table.num <= |table.rows| && Orderly(files, monitorId) && Reordered(files, files')
    ensures Equivalent(LoadAll(files, monitorId, table).doms, LoadAll(files', monitorId, table).doms)
    ensures forall d | d in LoadAll(files, monitorId, table).doms :: PidDetermines(d.threads)
  {
    hide LoadAll, Equivalent, SameFile, SameDom, PidDetermines, IdsDistinct, TablesOrderFree, Skipped;
    var m: seq<PidFile> :| SameFiles(files, m) && multiset(m) == multiset(files');
    SameFilesLoad(files, m, monitorId, table);
    var ds, ms := LoadAll(files, monitorId, table).doms, LoadAll(m, monitorId, table).doms;
    SameDomsEquivalent(ds, ms);
    LoadedIdsDistinct(files, monitorId, table);
    SameDomsIds(ds, ms);
    SameFilesAllocated(files, m);
    LoadPermuted(m, files', monitorId, table);
    PermutedIsEquivalent(ms, LoadAll(files', monitorId, table).doms);
    EquivalentTwice(ds, ms, LoadAll(files', monitorId, table).doms);
    LoadDetermines(files, monitorId, table);
  }

  // ----- Whole runs -----

  /** The frame reads the same, its directories listed in any order. */
  ghost predicate SameInputs(f: Inputs, g: Inputs) {
    && f.vcpuText == g.vcpuText
    && (f.dir.None? <==> g.dir.None?)
    && (f.dir.Some? ==> Reordered(f.dir.value, g.dir.value))
  }

  predicate OrderlyInputs(f: Inputs, monitorId: int) {
    f.dir.Some? ==> Orderly(f.dir.value, monitorId)
  }

  lemma FrameReordered(f: Inputs, g: Inputs, monitorId: int, table: Table)
    requires TableOk(table) && SameInputs(f, g) && OrderlyInputs(f, monitorId)
    ensures TableAfter(f, table) == TableAfter(g, table)
    ensures Equivalent(Load(f, monitorId, table).doms, Load(g, monitorId, table).doms)
    ensures forall d | d in Load(f, monitorId, table).doms :: PidDetermines(d.threads)
  {
    hide LoadAll, Equivalent, PidDetermines, Orderly, Reordered, ReadRows;
    if f.vcpuText.Some? && f.dir.Some? {
      ListingReordered(f.dir.value, g.dir.value, monitorId, TableAfter(f, table));
    } else {
      PermutedIsEquivalent([], []);
    }
  }

  lemma {:induction false} SameTables(run: Run, run': Run, k: nat)
    requires TableOk(run.table) && run'.table == run.table && k <= |run.frames| == |run'.frames|
    requires forall j | 0 <= j < k :: SameInputs(run.frames[j], run'.frames[j])
    ensures StateAt(run, k).table == StateAt(run', k).table
  {
    hide ReadRows, JoinAll, Load, Reordered;
    if k == 0 {
    } else {
      SameTables(run, run', k - 1);
    }
  }

  /** Two runs whose directories list the same entries in different orders are in
      equivalent states after every frame: the same domains for every id, the same
      totals, and the same records for every pid; as long as every record can be
      allocated, no id is listed twice and each thread table is one that order does
      not matter for. */
  lemma RunPermuted(run: Run, run': Run, k: nat)
    requires TableOk(run.table) && run'.table == run.table && run'.monitorId == run.monitorId
    requires k <= |run.frames| == |run'.frames|
    requires forall j | 0 <= j < k ::
      SameInputs(run.frames[j], run'.frames[j]) && OrderlyInputs(run.frames[j], run.monitorId)
    ensures Equivalent(StateAt(run, k).now, StateAt(run', k).now)
  {
    hide StateAt, Load, SameInputs, OrderlyInputs, Equivalent, PidDetermines;
    forall j | 1 <= j <= k
      ensures Equivalent(LoadedAt(run, j).doms, LoadedAt(run', j).doms)
      ensures forall d | d in LoadedAt(run, j).doms :: PidDetermines(d.threads)
    {
      SameTables(run, run', j - 1);
      FrameReordered(run.frames[j - 1], run'.frames[j - 1], run.monitorId, StateAt(run, j - 1).table);
    }
    RunEquivalent(run, run', k);
  }
}
