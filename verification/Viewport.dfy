/** src/vmtop.c: the window of the screen onto the list of tasks, and the keys that
    move it. What the program prints is kept as a log of lines and columns. */
module Viewport {
  import opened Types
  import opened DomainLists
  import opened Fields

  /** A line drawn: the record and the columns printed for it. */
  datatype Line = Line(task: Task, cols: seq<nat>)

  /** All rows there are: domains, each followed by its threads in thread mode. */
  function Flat(doms: seq<Dom>, threadMode: bool): seq<Task> {
    if doms == [] then []
    else
      var d := doms[|doms| - 1];
      Flat(doms[..|doms| - 1], threadMode) + [d.task] + if threadMode then d.threads else []
  }

  predicate ThreadsCounted(doms: seq<Dom>) {
    forall i | 0 <= i < |doms| :: |doms[i].threads| == doms[i].task.nlwp
  }

  function Clamp(x: int, n: nat): (r: nat)
    ensures r <= n
  {
    if x < 0 then 0 else if x > n then n else x
  }

  /** Row number t, counted from 1, is inside the window. */
  predicate InWindow(t: int, beginTask: int, rows: int) {
    t >= beginTask && t - beginTask <= rows - 5
  }

  /** The contiguous part of the rows that is inside the window. */
  function Window(flat: seq<Task>, beginTask: int, rows: int): seq<Task> {
    var lo, hi := Clamp(beginTask - 1, |flat|), Clamp(beginTask + rows - 5, |flat|);
    if lo < hi then flat[lo..hi] else []
  }

  function Lines(tasks: seq<Task>, cols: seq<nat>): seq<Line> {
    if tasks == [] then [] else Lines(tasks[..|tasks| - 1], cols) + [Line(tasks[|tasks| - 1], cols)]
  }

  /** One more row at the end of the list: it is drawn if it is in the window. */
  lemma WindowAppend(flat: seq<Task>, t: Task, beginTask: int, rows: int)
    ensures Window(flat + [t], beginTask, rows)
            == Window(flat, beginTask, rows) + if InWindow(|flat| + 1, beginTask, rows) then [t] else []
  {
    var n, lo, hi := |flat|, beginTask - 1, beginTask + rows - 5;
    var all := flat + [t];
    if InWindow(n + 1, beginTask, rows) {
      assert Clamp(hi, n + 1) == n + 1 && Clamp(lo, n + 1) == Clamp(lo, n) && Clamp(hi, n) == n;
      assert all[Clamp(lo, n)..n + 1] == flat[Clamp(lo, n)..n] + [t];
    } else if hi <= n {
      assert Clamp(hi, n + 1) == Clamp(hi, n);
    } else {
      assert lo >= n + 1;
    }
  }

  /** The rows drawn are contiguous, and row t is among them exactly if it is inside
      the window. */
  lemma WindowRows(flat: seq<Task>, beginTask: int, rows: int) returns (first: nat)
    ensures var shown := Window(flat, beginTask, rows);
            && first + |shown| <= |flat| && shown == flat[first..first + |shown|]
            && forall t | 1 <= t <= |flat| :: first < t <= first + |shown| <==> InWindow(t, beginTask, rows)
  {
    first := Clamp(beginTask - 1, |flat|);
  }

  /** A page has four rows less than the screen has lines, or what is left of them. */
  lemma PageRows(flat: seq<Task>, beginTask: int, rows: int)
    requires 1 <= beginTask <= |flat| && rows >= 4
    ensures var left := |flat| - beginTask + 1;
            |Window(flat, beginTask, rows)| == if rows - 4 <= left then rows - 4 else left
    ensures rows >= 5 ==> Window(flat, beginTask, rows)[0] == flat[beginTask - 1]
  {
  }

  lemma LinesAppend(tasks: seq<Task>, t: Task, cols: seq<nat>)
    ensures Lines(tasks + [t], cols) == Lines(tasks, cols) + [Line(t, cols)]
  {
    assert (tasks + [t])[..|tasks|] == tasks;
  }

  lemma NothingPrinted(beginTask: int, rows: int, cols: seq<nat>)
    ensures Flat([], false) == [] == Flat([], true) && Lines(Window([], beginTask, rows), cols) == []
  {
  }

  lemma FlatStep(doms: seq<Dom>, threadMode: bool, i: nat)
    requires i < |doms|
    ensures Flat(doms[..i + 1], threadMode)
            == var flat := Flat(doms[..i], threadMode) + [doms[i].task];
               if threadMode then flat + doms[i].threads else flat
  {
    assert doms[..i + 1][..i] == doms[..i];
    assert Flat(doms[..i], false) + [doms[i].task] + [] == Flat(doms[..i], false) + [doms[i].task];
  }

  /** How many rows the first i domains take in thread mode. */
  function RowsBefore(doms: seq<Dom>, i: nat): nat
    requires i <= |doms|
  {
    if i == 0 then 0 else RowsBefore(doms, i - 1) + 1 + |doms[i - 1].threads|
  }

  lemma {:induction false} SameRowsBefore(doms: seq<Dom>, n: nat, i: nat)
    requires i <= n <= |doms|
    ensures RowsBefore(doms[..n], i) == RowsBefore(doms, i)
  {
    if i == 0 {
    } else {
      SameRowsBefore(doms, n, i - 1);
    }
  }

  lemma {:induction false} FlatRows(doms: seq<Dom>)
    ensures |Flat(doms, false)| == |doms| && |Flat(doms, true)| == RowsBefore(doms, |doms|)
  {
    if doms == [] {
    } else {
      var n := |doms| - 1;
      FlatRows(doms[..n]);
      SameRowsBefore(doms, n, n);
    }
  }

  /** The rows of a list are those of its first domains, and those of the others. */
  lemma {:induction false} FlatConcat(a: seq<Dom>, b: seq<Dom>, threadMode: bool)
    ensures Flat(a + b, threadMode) == Flat(a, threadMode) + Flat(b, threadMode)
    decreases |b|
  {
    if b == [] {
      assert a + b == a;
    } else {
      assert (a + b)[..|a + b| - 1] == a + b[..|b| - 1];
      FlatConcat(a, b[..|b| - 1], threadMode);
    }
  }

  lemma FlatOne(d: Dom, threadMode: bool)
    ensures Flat([d], threadMode) == [d.task] + if threadMode then d.threads else []
  {
    assert [d][..0] == [] && Flat([], threadMode) == [];
  }

  lemma RowIn(a: seq<Dom>, d: Dom, b: seq<Dom>, threadMode: bool)
    ensures var flat, r := Flat(a + ([d] + b), threadMode), |Flat(a, threadMode)|;
            && r < |flat| && flat[r] == d.task
            && (threadMode ==> r + |d.threads| < |flat| && flat[r + 1..r + 1 + |d.threads|] == d.threads)
  {
    hide Flat;
    FlatConcat(a, [d] + b, threadMode);
    FlatConcat([d], b, threadMode);
    FlatOne(d, threadMode);
  }

  /** Where every record stands among the rows: a domain before its threads, in list
      order, and without threads the domains alone. */
  lemma RowOf(doms: seq<Dom>, i: nat)
    requires i < |doms|
    ensures |Flat(doms, false)| == |doms| && Flat(doms, false)[i] == doms[i].task
    ensures var flat, r, d := Flat(doms, true), RowsBefore(doms, i), doms[i];
            && |flat| == RowsBefore(doms, |doms|) && r + |d.threads| < |flat|
            && flat[r] == d.task && flat[r + 1..r + 1 + |d.threads|] == d.threads
  {
    hide Flat, RowsBefore;
    var a, d, b := doms[..i], doms[i], doms[i + 1..];
    assert doms == a + ([d] + b);
    FlatRows(doms);
    FlatRows(a);
    SameRowsBefore(doms, i, i);
    RowIn(a, d, b, false);
    RowIn(a, d, b, true);
  }

  lemma RankStart(flags: Flags)
    ensures Rank(flags, 0) == 0
  {
  }

  lemma RankStep(flags: Flags, i: nat)
    requires i < FD_END
    ensures Rank(flags, i + 1) == Rank(flags, i) + if flags[i] && !Fixed(i) then 1 else 0
  {
  }

  /** Where the column loop stops: the columns so far are the longest fit, if the
      next one no longer fits. */
  lemma ShownFits(flags: Flags, beginField: int, i: nat, limit: int)
    requires i < FD_END && Shown(flags, beginField, i)
    requires var cols := ShownFields(flags, beginField, i); cols != [] ==> Width(cols) < limit
    ensures var cols := ShownFields(flags, beginField, i);
            && ShownFields(flags, beginField, i + 1) == cols + [i]
            && Width(cols + [i]) == Width(cols) + Align(i)
            && (Width(cols) + Align(i) >= limit ==> LongestFit(ShownFields(flags, beginField, FD_END), cols, limit))
  {
    hide Shown, Align;
    var cols, shown := ShownFields(flags, beginField, i), ShownFields(flags, beginField, FD_END);
    ShownPrefix(flags, beginField, i, FD_END);
    ShownPrefix(flags, beginField, i + 1, FD_END);
    assert (cols + [i])[..|cols|] == cols;
    assert shown[..|cols| + 1] == cols + [i];
  }

  ghost function FitFrom(shown: seq<nat>, n: nat, limit: int): (cols: seq<nat>)
    requires n <= |shown| && (n > 0 ==> Width(shown[..n]) < limit)
    ensures LongestFit(shown, cols, limit)
    decreases |shown| - n
  {
    if n < |shown| && Width(shown[..n + 1]) < limit then FitFrom(shown, n + 1, limit)
    else
      assert shown[..|shown|] == shown;
      shown[..n]
  }

  /** The columns every line prints. */
  ghost function ColumnsOf(flags: Flags, beginField: int, limit: int): (cols: seq<nat>)
    ensures LongestFit(ShownFields(flags, beginField, FD_END), cols, limit)
  {
    FitFrom(ShownFields(flags, beginField, FD_END), 0, limit)
  }

  class Screen {
    var beginTask: int
    var beginField: int
    var showdTask: int
    var threadMode: bool
    var quitFlag: bool
    var scrRowSize: int
    var scrColSize: int
    const displayed: array<bool>
    /** What has been printed. */
    var header: seq<nat>
    var log: seq<Line>

    ghost predicate Valid()
      reads this
    {
      displayed.Length == FD_END
    }

    ghost function Flags(): Flags
      requires Valid()
      reads this, displayed
    {
      displayed[..]
    }

    /** init_parameter */
    constructor ()
      ensures Valid() && fresh(displayed)
      ensures beginTask == 1 && beginField == 1 && !threadMode && !quitFlag
      ensures forall i | 0 <= i < FD_END :: displayed[i] == DisplayedAtStart(i)
    {
      beginTask, beginField, showdTask := 1, 1, 0;
      threadMode, quitFlag := false, false;
      scrRowSize, scrColSize := 2048, 1024;
      displayed := new bool[FD_END](i requires 0 <= i => DisplayedAtStart(i));
      header, log := [], [];
    }

    /** show_header's loop over the columns. */
    method PrintHeader() returns (printed: seq<nat>)
      requires Valid()
      ensures LongestFit(ShownFields(Flags(), beginField, FD_END), printed, scrColSize)
    {
      hide Align, Rank;
      ghost var flags := Flags();
      var showdWidth, showdField := 0, 0;
      printed := [];
      RankStart(flags);
      var i := 0;
      while i < FD_END
        invariant i <= FD_END
        invariant showdField == Rank(flags, i)
        invariant printed == ShownFields(flags, beginField, i)
        invariant showdWidth == Width(printed) && (printed != [] ==> showdWidth < scrColSize)
      {
        RankStep(flags, i);
        if displayed[i] {
          if !(i == FD_DID || i == FD_VMNAME) {
            showdField := showdField + 1;
          }
          if i == FD_DID || i == FD_VMNAME || showdField >= beginField {
            showdWidth := showdWidth + Align(i);
            ShownFits(flags, beginField, i, scrColSize);
            if showdWidth >= scrColSize {
              break;
            }
            printed := printed + [i];
          }
        }
        i := i + 1;
      }
    }

    /** show_header: node columns follow the resctrl switch, as far as there are
        nodes; then the longest fit of the shown columns is printed. */
    method ShowHeader(nodeNum: nat, resctrlEnable: bool)
      requires Valid() && nodeNum <= MAX_NODE_NUM
      modifies this`header, displayed
      ensures forall i | 0 <= i < FD_END ::
        displayed[i] == if FD_NODE0 <= i < FD_NODE0 + nodeNum then resctrlEnable else old(displayed[i])
      ensures LongestFit(ShownFields(Flags(), beginField, FD_END), header, scrColSize)
    {
      for i := FD_NODE0 to FD_NODE0 + nodeNum
        invariant forall k | 0 <= k < FD_END ::
          displayed[k] == if FD_NODE0 <= k < i then resctrlEnable else old(displayed[k])
      {
        displayed[i] := resctrlEnable;
      }
      header := PrintHeader();
    }

    /** show_task's loop over the columns. */
    method PrintTask() returns (printed: seq<nat>)
      requires Valid()
      ensures LongestFit(ShownFields(Flags(), beginField, FD_END), printed, scrColSize)
    {
      hide Align, Rank;
      ghost var flags := Flags();
      var showdWidth, showdField := 0, 0;
      printed := [];
      RankStart(flags);
      var i := 0;
      while i < FD_END
        invariant i <= FD_END
        invariant showdField == Rank(flags, i)
        invariant printed == ShownFields(flags, beginField, i)
        invariant showdWidth == Width(printed) && (printed != [] ==> showdWidth < scrColSize)
      {
        RankStep(flags, i);
        if displayed[i] {
          if !(i == FD_DID || i == FD_VMNAME) {
            showdField := showdField + 1;
          }
          if i == FD_DID || i == FD_VMNAME || showdField >= beginField {
            showdWidth := showdWidth + Align(i);
            ShownFits(flags, beginField, i, scrColSize);
            if showdWidth >= scrColSize {
              break;
            }
            printed := printed + [i];
          }
        }
        i := i + 1;
      }
    }

    /** show_task: counts the row, and prints it if it is inside the window, with
        the longest fit of the shown columns. */
    method ShowTask(task: Task)
      requires Valid()
      modifies this`showdTask, this`log
      ensures showdTask == old(showdTask) + 1
      ensures log == old(log)
        + if InWindow(showdTask, beginTask, scrRowSize)
          then [Line(task, ColumnsOf(Flags(), beginField, scrColSize))] else []
    {
      hide ColumnsOf, ShownFields, LongestFit;
      showdTask := showdTask + 1;
      if showdTask < beginTask || showdTask - beginTask > scrRowSize - 5 {
        return;
      }
      var printed := PrintTask();
      LongestFitUnique(ShownFields(Flags(), beginField, FD_END), printed,
                       ColumnsOf(Flags(), beginField, scrColSize), scrColSize);
      log := log + [Line(task, printed)];
    }

    /** The rows printed so far are those of `flat` inside the window. */
    ghost predicate Printed(flat: seq<Task>, before: seq<Line>)
      requires Valid()
      reads this, displayed
    {
      && showdTask == |flat|
      && log == before + Lines(Window(flat, beginTask, scrRowSize), ColumnsOf(Flags(), beginField, scrColSize))
    }

    /** One row more. */
    method ShowNext(task: Task, ghost flat: seq<Task>, ghost before: seq<Line>)
      requires Valid() && Printed(flat, before)
      modifies this`showdTask, this`log
      ensures Printed(flat + [task], before)
    {
      hide Window, Lines, ColumnsOf;
      WindowAppend(flat, task, beginTask, scrRowSize);
      ghost var cols := ColumnsOf(Flags(), beginField, scrColSize);
      ghost var lines := Lines(Window(flat, beginTask, scrRowSize), cols);
      LinesAppend(Window(flat, beginTask, scrRowSize), task, cols);
      assert before + (lines + [Line(task, cols)]) == before + lines + [Line(task, cols)];
      assert Window(flat, beginTask, scrRowSize) + [] == Window(flat, beginTask, scrRowSize);
      ShowTask(task);
    }

    /** show_domains_threads */
    method ShowDomainsThreads(dom: Dom, ghost flat: seq<Task>, ghost before: seq<Line>)
      requires Valid() && Printed(flat, before) && |dom.threads| == dom.task.nlwp
      modifies this`showdTask, this`log
      ensures Printed(flat + dom.threads, before)
    {
      hide Printed;
      assert flat + dom.threads[..0] == flat;
      for i := 0 to dom.task.nlwp
        invariant Printed(flat + dom.threads[..i], before)
      {
        ShowNext(dom.threads[i], flat + dom.threads[..i], before);
        assert flat + dom.threads[..i + 1] == flat + dom.threads[..i] + [dom.threads[i]];
      }
      assert dom.threads[..|dom.threads|] == dom.threads;
    }

    /** show_domains: the rows printed are exactly the window's part of all rows, in
        order, all with the same columns; and all rows are counted. */
    method ShowDomains(doms: seq<Dom>)
      requires Valid() && ThreadsCounted(doms)
      modifies this`showdTask, this`log
      ensures showdTask == |Flat(doms, threadMode)|
      ensures log == old(log) + Lines(Window(Flat(doms, threadMode), beginTask, scrRowSize),
                                      ColumnsOf(Flags(), beginField, scrColSize))
    {
      hide Flat, Lines, Window, ColumnsOf;
      showdTask := 0;
      ghost var before := log;
      NothingPrinted(beginTask, scrRowSize, ColumnsOf(Flags(), beginField, scrColSize));
      for i := 0 to |doms|
        invariant Printed(Flat(doms[..i], threadMode), before)
      {
        var dom := doms[i];
        ghost var flat := Flat(doms[..i], threadMode);
        FlatStep(doms, threadMode, i);
        ShowNext(dom.task, flat, before);
        if threadMode {
          ShowDomainsThreads(dom, flat + [dom.task], before);
        }
      }
      assert doms[..|doms|] == doms;
    }

    /** A frame's header and rows: every line drawn has exactly the header's columns. */
    method ShowFrame(doms: seq<Dom>, nodeNum: nat, resctrlEnable: bool)
      requires Valid() && ThreadsCounted(doms) && nodeNum <= MAX_NODE_NUM
      modifies this`header, this`showdTask, this`log, displayed
      ensures forall i | 0 <= i < FD_END ::
        displayed[i] == if FD_NODE0 <= i < FD_NODE0 + nodeNum then resctrlEnable else old(displayed[i])
      ensures LongestFit(ShownFields(Flags(), beginField, FD_END), header, scrColSize)
      ensures log == old(log) + Lines(Window(Flat(doms, threadMode), beginTask, scrRowSize), header)
      ensures showdTask == |Flat(doms, threadMode)|
    {
      hide Flat, Lines, Window, ColumnsOf, ShownFields, LongestFit;
      ShowHeader(nodeNum, resctrlEnable);
      ShowDomains(doms);
      LongestFitUnique(ShownFields(Flags(), beginField, FD_END), header,
                       ColumnsOf(Flags(), beginField, scrColSize), scrColSize);
    }

    /** get_task_num */
    method GetTaskNum(doms: seq<Dom>) returns (sum: int)
      requires ThreadsCounted(doms)
      ensures sum == |Flat(doms, true)|
    {
      sum := 0;
      for i := 0 to |doms|
        invariant sum + i == |Flat(doms[..i], true)|
      {
        FlatStep(doms, true, i);
        sum := sum + doms[i].task.nlwp;
      }
      assert doms[..|doms|] == doms;
      sum := sum + |doms|;
    }
  }
}
