/** src/domain.c, get_qemu_id and set_domain: which pid files are loaded, and which
    cost a thread block. */
module Leaks {
  import opened Types
  import opened Text
  import opened Proc
  import opened VcpuStat
  import opened Loader
  import opened Refresh

  /** The guards of set_domain up to the allocation of the threads. */
  predicate GetsThreads(f: PidFile, monitorId: int) {
    && f.Pid() >= 1
    && f.Id() >= 0 && (monitorId >= 0 ==> f.Id() == monitorId)
    && f.stat.Some? && Comm(f.stat.value.text).Some?
    && f.stat.value.nlwp > 0 && f.tasks.Some? && f.threadsAlloc
  }

  /** The guard behind it. */
  predicate NameFits(f: PidFile) {
    |f.name| < DOMAIN_NAME_MAX - 1
  }

  /** How set_domain ends is decided by these guards, whatever the vcpu_stat table. */
  lemma Outcome(f: PidFile, monitorId: int, table: Table)
    requires |f.name| > 4 && table.num <= |table.rows|
    ensures LoadDomain(f, monitorId, table).Loaded? <==> GetsThreads(f, monitorId) && NameFits(f)
    ensures LoadDomain(f, monitorId, table).Leaked? <==> GetsThreads(f, monitorId) && !NameFits(f)
  {
    hide Comm, ReadTasks, ParsePid, CgroupId;
  }

  /** get_qemu_id tries entry i: it is no other file, and no record before it, nor its
      own, could not be allocated. */
  predicate Tried(files: seq<PidFile>, i: nat)
    requires i < |files|
  {
    !Skipped(files[i]) && forall j | 0 <= j <= i :: Skipped(files[j]) || files[j].slotAlloc
  }

  /** The entries that cost a thread block. */
  ghost function LeakingFiles(files: seq<PidFile>, monitorId: int): set<nat> {
    set i: nat | i < |files| && Tried(files, i) && GetsThreads(files[i], monitorId) && !NameFits(files[i])
  }

  ghost function Shifted(s: set<nat>): (r: set<nat>)
    ensures forall i :: i in r <==> i > 0 && i - 1 in s
  {
    var r := set i | i in s :: i + 1;
    assert forall i | i > 0 && i - 1 in s :: i == (i - 1) + 1 && i in r;
    r
  }

  lemma {:induction false} ShiftSize(s: set<nat>)
    ensures |Shifted(s)| == |s|
  {
    if s == {} {
      assert Shifted(s) == {};
    } else {
      var x :| x in s;
      ShiftSize(s - {x});
      assert Shifted(s) == Shifted(s - {x}) + {x + 1};
    }
  }

  lemma TriedNext(files: seq<PidFile>, i: nat)
    requires 0 < i < |files|
    ensures Tried(files, i) <==> (Skipped(files[0]) || files[0].slotAlloc) && Tried(files[1..], i - 1)
  {
    hide Skipped;
    var rest := files[1..];
    if Tried(files, i) {
      forall j | 0 <= j <= i - 1
        ensures Skipped(rest[j]) || rest[j].slotAlloc
      {
        assert rest[j] == files[j + 1];
      }
    }
    if (Skipped(files[0]) || files[0].slotAlloc) && Tried(rest, i - 1) {
      forall j | 0 <= j <= i
        ensures Skipped(files[j]) || files[j].slotAlloc
      {
        if j > 0 {
          assert rest[j - 1] == files[j];
        }
      }
    }
  }

  lemma FirstTried(files: seq<PidFile>)
    requires files != []
    ensures Tried(files, 0) <==> !Skipped(files[0]) && files[0].slotAlloc
  {
  }

  lemma LeakingNext(files: seq<PidFile>, monitorId: int)
    requires files != []
    ensures var first := if Tried(files, 0) && GetsThreads(files[0], monitorId) && !NameFits(files[0]) then {0} else {};
            LeakingFiles(files, monitorId)
            == if Skipped(files[0]) || files[0].slotAlloc
               then first + Shifted(LeakingFiles(files[1..], monitorId))
               else {}
  {
    hide GetsThreads, NameFits, Tried;
    var all, rest := LeakingFiles(files, monitorId), LeakingFiles(files[1..], monitorId);
    forall i: nat | 0 < i < |files|
      ensures i in all <==> (Skipped(files[0]) || files[0].slotAlloc) && i - 1 in rest
    {
      TriedNext(files, i);
    }
    FirstTried(files);
  }

  lemma NotSkipped(f: PidFile)
    requires !Skipped(f)
    ensures |f.name| > 4
  {
  }

  lemma NoFiles(monitorId: int)
    ensures LeakingFiles([], monitorId) == {}
  {
  }

  /** A directory costs exactly one block for each such entry. */
  lemma {:induction false} ListingLeaks(files: seq<PidFile>, monitorId: int, table: Table)
    requires table.num <= |table.rows|
    ensures LoadAll(files, monitorId, table).leaks == |LeakingFiles(files, monitorId)|
  {
    hide LoadDomain, Skipped, GetsThreads, NameFits, LeakingFiles;
    if files == [] {
      NoFiles(monitorId);
    } else {
      var rest := LeakingFiles(files[1..], monitorId);
      ListingLeaks(files[1..], monitorId, table);
      LeakingNext(files, monitorId);
      FirstTried(files);
      ShiftSize(rest);
      assert 0 !in Shifted(rest);
      if !Skipped(files[0]) {
        NotSkipped(files[0]);
        Outcome(files[0], monitorId, table);
      }
    }
  }

  /** The frame reads its directory, and an entry in it costs a block. */
  ghost predicate Leaky(f: Inputs, monitorId: int) {
    && f.vcpuText.Some? && f.dir.Some?
    && exists i: nat | i < |f.dir.value| ::
         Tried(f.dir.value, i) && GetsThreads(f.dir.value[i], monitorId) && !NameFits(f.dir.value[i])
  }

  /** A frame loses a block if and only if some entry of its directory is tried, passes
      every guard of set_domain but the last, and has a name of 255 or more characters. */
  lemma FrameLeaks(f: Inputs, monitorId: int, table: Table)
    requires TableOk(table)
    ensures Load(f, monitorId, table).leaks == 0 <==> !Leaky(f, monitorId)
  {
    hide LoadAll, Tried, GetsThreads, NameFits, ReadRows;
    if f.vcpuText.Some? && f.dir.Some? {
      ListingLeaks(f.dir.value, monitorId, TableAfter(f, table));
      var leaking := LeakingFiles(f.dir.value, monitorId);
      if leaking != {} {
        var i :| i in leaking;
        assert Leaky(f, monitorId);
      }
      if Leaky(f, monitorId) {
        var i: nat :| i < |f.dir.value|
          && Tried(f.dir.value, i) && GetsThreads(f.dir.value[i], monitorId) && !NameFits(f.dir.value[i]);
        assert i in leaking;
      }
    }
  }
}
