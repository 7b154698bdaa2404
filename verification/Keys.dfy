/** src/vmtop.c: parse_keys and show_filter, and what sequences of keys do. */
module Keys {
  import opened Types
  import opened DomainLists
  import opened Fields
  import opened Viewport
  import opened Refresh
  import opened Aggregation
  import opened Runs

  datatype FilterKey = FilterUp | FilterDown | FilterSpace | FilterOther

  /** A key of the main display. The filter dialog is given the keys pressed in it
      before its 'q'. */
  datatype Key =
    | KeyFilter(keys: seq<FilterKey>)
    | KeyQuit
    | KeyNPage
    | KeyUp
    | KeyPPage
    | KeyDown
    | KeyLeft
    | KeyRight
    | KeyThreads
    | KeyOther

  // ----- The field filter -----

  /** Net number of steps down. */
  function Net(keys: seq<FilterKey>): int {
    if keys == [] then 0
    else
      var k := keys[|keys| - 1];
      Net(keys[..|keys| - 1]) + (if k == FilterDown then 1 else if k == FilterUp then -1 else 0)
  }

  /** The highlighted field wraps around. */
  function HighLight(keys: seq<FilterKey>): (h: nat)
    ensures h < FD_END
  {
    Net(keys) % FD_END
  }

  /** How often the space bar was pressed on field i. */
  function Presses(keys: seq<FilterKey>, i: nat): nat {
    if keys == [] then 0
    else
      var init := keys[..|keys| - 1];
      Presses(init, i) + if keys[|keys| - 1] == FilterSpace && HighLight(init) == i then 1 else 0
  }

  /** The remainder is what is left of a multiple. */
  lemma Remainder(q: int, r: nat)
    requires r < FD_END
    ensures (q * FD_END + r) % FD_END == r
  {
    var x := q * FD_END + r;
    assert (x / FD_END - q) * FD_END == r - x % FD_END;
    assert x / FD_END == q;
  }

  lemma WrapStep(net: int)
    ensures (net + 1) % FD_END == if net % FD_END == FD_END - 1 then 0 else net % FD_END + 1
    ensures (net - 1) % FD_END == if net % FD_END == 0 then FD_END - 1 else net % FD_END - 1
  {
    var q, r := net / FD_END, net % FD_END;
    if r == FD_END - 1 {
      Remainder(q + 1, 0);
    } else {
      Remainder(q, r + 1);
    }
    if r == 0 {
      Remainder(q - 1, FD_END - 1);
    } else {
      Remainder(q, r - 1);
    }
  }

  lemma FilterStep(keys: seq<FilterKey>, n: nat)
    requires n < |keys|
    ensures var k := keys[n];
            && Net(keys[..n + 1]) == Net(keys[..n]) + (if k == FilterDown then 1 else if k == FilterUp then -1 else 0)
            && forall i :: Presses(keys[..n + 1], i)
                        == Presses(keys[..n], i) + if k == FilterSpace && HighLight(keys[..n]) == i then 1 else 0
  {
    assert keys[..n + 1][..n] == keys[..n];
  }

  lemma FilterStart()
    ensures Net([]) == 0 && forall i :: Presses([], i) == 0
  {
  }

  /** show_filter: a field's flag ends up flipped exactly if the space bar was
      pressed on it an odd number of times. */
  method ShowFilter(s: Screen, keys: seq<FilterKey>)
    requires s.Valid()
    modifies s.displayed
    ensures forall i | 0 <= i < FD_END :: s.displayed[i] == (old(s.displayed[i]) != (Presses(keys, i) % 2 == 1))
  {
    hide Net, Presses;
    var highLight := 0;
    FilterStart();
    assert keys[..0] == [];
    for n := 0 to |keys|
      invariant 0 <= highLight < FD_END && highLight == HighLight(keys[..n])
      invariant forall i | 0 <= i < FD_END ::
          s.displayed[i] == (old(s.displayed[i]) != (Presses(keys[..n], i) % 2 == 1))
    {
      FilterStep(keys, n);
      WrapStep(Net(keys[..n]));
      match keys[n]
      case FilterUp =>
        highLight := highLight - 1;
        if highLight < 0 {
          highLight := FD_END - 1;
        }
      case FilterDown =>
        highLight := highLight + 1;
        if highLight >= FD_END {
          highLight := 0;
        }
      case FilterSpace =>
        s.displayed[highLight] := !s.displayed[highLight];
      case FilterOther =>
    }
    assert keys[..|keys|] == keys;
  }

  /** k presses of one key of the dialog. */
  function Times(key: FilterKey, k: nat): (keys: seq<FilterKey>)
    ensures |keys| == k
  {
    if k == 0 then [] else Times(key, k - 1) + [key]
  }

  lemma {:induction false} NetOfTimes(k: nat, i: nat)
    ensures Net(Times(FilterDown, k)) == k && Net(Times(FilterUp, k)) == 0 - k as int
    ensures Presses(Times(FilterDown, k), i) == Presses(Times(FilterUp, k), i) == 0
  {
    if k == 0 {
    } else {
      NetOfTimes(k - 1, i);
    }
  }

  /** Where k presses of one of the keys lead. */
  lemma HighLightAfter(k: nat)
    requires k <= FD_END
    ensures HighLight(Times(FilterDown, k)) == if k == FD_END then 0 else k
    ensures HighLight(Times(FilterUp, k)) == if k == 0 then 0 else FD_END - k
  {
    hide Net, Times;
    NetOfTimes(k, 0);
    if k == 0 {
    } else {
      Remainder(-1, FD_END - k);
    }
  }

  lemma SpaceAfter(keys: seq<FilterKey>, i: nat)
    ensures Presses(keys + [FilterSpace], i) == Presses(keys, i) + if HighLight(keys) == i then 1 else 0
  {
    hide HighLight;
    assert (keys + [FilterSpace])[..|keys|] == keys;
  }

  /** The field that k presses of the down key and the space bar flip is number k, and
      with the up key it is number k counted from the end. */
  lemma FieldReached(k: nat, i: nat)
    requires k <= FD_END && i < FD_END
    ensures Presses(Times(FilterDown, k) + [FilterSpace], i) == if i == k || (k == FD_END && i == 0) then 1 else 0
    ensures Presses(Times(FilterUp, k) + [FilterSpace], i) == if i == FD_END - k || (k == 0 && i == 0) then 1 else 0
  {
    hide HighLight, Presses, Times;
    NetOfTimes(k, i);
    HighLightAfter(k);
    SpaceAfter(Times(FilterDown, k), i);
    SpaceAfter(Times(FilterUp, k), i);
  }

  // ----- Scrolling -----

  /** The list's length as the current mode counts it. */
  function TaskNum(doms: seq<Dom>, threadMode: bool): nat {
    if threadMode then |Flat(doms, true)| else |doms|
  }

  /** In either mode it is the number of rows there are. */
  lemma {:induction false} TaskNumIsRows(doms: seq<Dom>, threadMode: bool)
    ensures TaskNum(doms, threadMode) == |Flat(doms, threadMode)|
  {
    if threadMode || doms == [] {
    } else {
      TaskNumIsRows(doms[..|doms| - 1], false);
    }
  }

  /** beginTask after scrolling towards the end of n rows. */
  function Forward(beginTask: int, scroll: int, n: int): int {
    if beginTask + scroll > n then n else beginTask + scroll
  }

  /** beginTask after scrolling towards the start. */
  function Backward(beginTask: int, scroll: int): int {
    if beginTask - scroll < 1 then 1 else beginTask - scroll
  }

  /** beginTask after a key, with n rows on a screen of `rows` lines. */
  function BeginTaskAfter(key: Key, beginTask: int, n: int, rows: int): int {
    match key
    case KeyNPage => Forward(beginTask, rows - 6, n)
    case KeyUp => Forward(beginTask, 1, n)
    case KeyPPage => Backward(beginTask, rows - 6)
    case KeyDown => Backward(beginTask, 1)
    case KeyThreads => 1
    case _ => beginTask
  }

  /** beginField after a key, with `fieldNum` displayed columns. */
  function BeginFieldAfter(key: Key, beginField: int, fieldNum: int): int {
    match key
    case KeyLeft => if beginField - 1 < 1 then 1 else beginField - 1
    case KeyRight => if beginField + 1 >= fieldNum then fieldNum - 1 else beginField + 1
    case _ => beginField
  }

  /** get_show_field_num */
  method GetShowFieldNum(s: Screen) returns (sum: int)
    requires s.Valid()
    ensures sum == DisplayedCount(s.Flags(), FD_END)
  {
    sum := 0;
    for i := 0 to FD_END
      invariant sum == DisplayedCount(s.Flags(), i)
    {
      if s.displayed[i] {
        sum := sum + 1;
      }
    }
  }

  /** The case KEY_UP, which KEY_NPAGE falls through to. */
  method ScrollForward(s: Screen, scrollSize: int, doms: seq<Dom>)
    requires s.Valid() && ThreadsCounted(doms)
    modifies s`beginTask
    ensures s.beginTask == Forward(old(s.beginTask), scrollSize, TaskNum(doms, s.threadMode))
  {
    var taskNum := |doms|;
    if s.threadMode {
      taskNum := s.GetTaskNum(doms);
    }
    s.beginTask := s.beginTask + scrollSize;
    if s.beginTask > taskNum {
      s.beginTask := taskNum;
    }
  }

  /** The case KEY_DOWN, which KEY_PPAGE falls through to. */
  method ScrollBackward(s: Screen, scrollSize: int)
    modifies s`beginTask
    ensures s.beginTask == Backward(old(s.beginTask), scrollSize)
  {
    s.beginTask := s.beginTask - scrollSize;
    if s.beginTask < 1 {
      s.beginTask := 1;
    }
  }

  /** parse_keys */
  method ParseKeys(s: Screen, key: Key, doms: seq<Dom>)
    requires s.Valid() && ThreadsCounted(doms)
    modifies s`beginTask, s`beginField, s`threadMode, s`quitFlag, s.displayed
    ensures s.beginTask
      == BeginTaskAfter(key, old(s.beginTask), TaskNum(doms, old(s.threadMode)), s.scrRowSize)
    ensures s.beginField == BeginFieldAfter(key, old(s.beginField), DisplayedCount(old(s.Flags()), FD_END))
    ensures s.threadMode == (old(s.threadMode) != key.KeyThreads?)
    ensures s.quitFlag == (old(s.quitFlag) != key.KeyQuit?)
    ensures forall i | 0 <= i < FD_END ::
      s.displayed[i] == (old(s.displayed[i]) != (key.KeyFilter? && Presses(key.keys, i) % 2 == 1))
  {
    hide DisplayedCount, Flat, Presses;
    var scrollSize := 1;
    match key
    case KeyFilter(keys) =>
      ShowFilter(s, keys);
    case KeyQuit =>
      s.quitFlag := !s.quitFlag;
    case KeyNPage =>
      scrollSize := s.scrRowSize - 6;
      ScrollForward(s, scrollSize, doms);
    case KeyUp =>
      ScrollForward(s, scrollSize, doms);
    case KeyPPage =>
      scrollSize := s.scrRowSize - 6;
      ScrollBackward(s, scrollSize);
    case KeyDown =>
      ScrollBackward(s, scrollSize);
    case KeyLeft =>
      s.beginField := s.beginField - 1;
      if s.beginField < 1 {
        s.beginField := 1;
      }
    case KeyRight =>
      var fieldNum := GetShowFieldNum(s);
      s.beginField := s.beginField + 1;
      if s.beginField >= fieldNum {
        s.beginField := fieldNum - 1;
      }
    case KeyThreads =>
      s.threadMode := !s.threadMode;
      s.beginTask := 1;
    case KeyOther =>
  }

  /** What the drawing and counting loops rely on holds of every reachable state:
      a domain has as many thread rows as its nlwp says. */
  lemma ReachableRows(run: Run, k: nat)
    requires TableOk(run.table) && k <= |run.frames|
    ensures ThreadsCounted(StateAt(run, k).now)
  {
    hide StateAt;
    RunAggregated(run, k);
    forall i | 0 <= i < |StateAt(run, k).now|
      ensures |StateAt(run, k).now[i].threads| == StateAt(run, k).now[i].task.nlwp
    {
      assert Aggregated(StateAt(run, k).now[i]);
    }
  }

  // ----- What keys can and cannot do -----

  /** A key moves beginTask below 1 in two cases only, both towards the end of the
      list: the list is empty, or the screen has too few lines for a page. */
  lemma BeginTaskStaysPositive(key: Key, beginTask: int, n: nat, rows: int)
    requires beginTask >= 1
    ensures BeginTaskAfter(key, beginTask, n, rows) < 1
            <==> (key.KeyUp? && n == 0) || (key.KeyNPage? && (n == 0 || beginTask + rows - 6 < 1))
  {
  }

  /** Scrolling back undoes scrolling forward exactly if the end of the list did not
      cut it short, or it started at the first row. */
  lemma ScrollBack(beginTask: int, scroll: nat, n: nat)
    requires beginTask >= 1
    ensures Backward(Forward(beginTask, scroll, n), scroll) == beginTask
            <==> beginTask + scroll <= n || beginTask == 1
  {
  }

  /** A page up after a page down leads back exactly if the end of the list did not cut
      the page short, or it started at the first row. */
  lemma PageBack(beginTask: int, n: nat, rows: int)
    requires beginTask >= 1 && rows >= 6
    ensures BeginTaskAfter(KeyPPage, BeginTaskAfter(KeyNPage, beginTask, n, rows), n, rows) == beginTask
            <==> beginTask + rows - 6 <= n || beginTask == 1
  {
  }

  /** The same for a line. */
  lemma LineBack(beginTask: int, n: nat, rows: int)
    requires beginTask >= 1
    ensures BeginTaskAfter(KeyDown, BeginTaskAfter(KeyUp, beginTask, n, rows), n, rows) == beginTask
            <==> beginTask + 1 <= n || beginTask == 1
  {
  }

  /** beginTask after k presses of a key. */
  function Pressed(key: Key, beginTask: int, n: nat, rows: int, k: nat): int {
    if k == 0 then beginTask else BeginTaskAfter(key, Pressed(key, beginTask, n, rows, k - 1), n, rows)
  }

  /** A line key moves by one line, a page key by six lines less than the screen has;
      neither leaves the list. */
  lemma {:induction false} LinesPressed(beginTask: int, n: nat, rows: int, k: nat)
    requires 1 <= beginTask <= n
    ensures Pressed(KeyUp, beginTask, n, rows, k) == if beginTask + k <= n then beginTask + k else n
    ensures Pressed(KeyDown, beginTask, n, rows, k) == if beginTask - k >= 1 then beginTask - k else 1
  {
    if k == 0 {
    } else {
      LinesPressed(beginTask, n, rows, k - 1);
    }
  }

  lemma PageIsLines(beginTask: int, n: nat, rows: int)
    requires 1 <= beginTask <= n && rows >= 6
    ensures BeginTaskAfter(KeyNPage, beginTask, n, rows) == Pressed(KeyUp, beginTask, n, rows, rows - 6)
    ensures BeginTaskAfter(KeyPPage, beginTask, n, rows) == Pressed(KeyDown, beginTask, n, rows, rows - 6)
  {
    LinesPressed(beginTask, n, rows, rows - 6);
  }

  /** No other key but the one for threads moves the rows; that one starts again. */
  lemma OtherKeys(key: Key, beginTask: int, beginField: int, n: nat, rows: int, fieldNum: int)
    ensures key.KeyThreads? ==> BeginTaskAfter(key, beginTask, n, rows) == 1
    ensures key.KeyFilter? || key.KeyQuit? || key.KeyLeft? || key.KeyRight? || key.KeyOther? ==>
              BeginTaskAfter(key, beginTask, n, rows) == beginTask
    ensures !key.KeyLeft? && !key.KeyRight? ==> BeginFieldAfter(key, beginField, fieldNum) == beginField
  {
  }

  /** Left after right leads back exactly if the limit did not cut it short; and right
      after left exactly if neither limit does. */
  lemma FieldBack(beginField: int, fieldNum: int)
    requires beginField >= 1
    ensures BeginFieldAfter(KeyLeft, BeginFieldAfter(KeyRight, beginField, fieldNum), fieldNum) == beginField
            <==> beginField + 1 < fieldNum || (beginField == 1 && fieldNum <= 2)
    ensures BeginFieldAfter(KeyRight, BeginFieldAfter(KeyLeft, beginField, fieldNum), fieldNum) == beginField
            <==> 2 <= beginField < fieldNum || (beginField == 1 && fieldNum == 2)
  {
  }

  /** Below its limit the right key moves by one column, and the left key above 1. */
  lemma FieldStep(beginField: int, fieldNum: int)
    ensures beginField + 1 < fieldNum ==> BeginFieldAfter(KeyRight, beginField, fieldNum) == beginField + 1
    ensures beginField + 1 >= fieldNum ==> BeginFieldAfter(KeyRight, beginField, fieldNum) == fieldNum - 1
    ensures beginField >= 2 ==> BeginFieldAfter(KeyLeft, beginField, fieldNum) == beginField - 1
    ensures beginField < 2 ==> BeginFieldAfter(KeyLeft, beginField, fieldNum) == 1
  {
  }

  /** beginTask after k presses of the page-down key, from the first row. */
  function Paged(n: int, rows: int, k: nat): int {
    if k == 0 then 1 else BeginTaskAfter(KeyNPage, Paged(n, rows, k - 1), n, rows)
  }

  lemma {:induction false} MulNat(k: nat, x: nat)
    ensures k * x >= 0 && (x > 0 ==> k * x >= k)
  {
    if k == 0 {
    } else {
      MulNat(k - 1, x);
      assert k * x == (k - 1) * x + x;
    }
  }

  lemma {:induction false} MulNegative(k: nat, x: int)
    requires x <= 0
    ensures k * x <= 0
  {
    if k == 0 {
    } else {
      MulNegative(k - 1, x);
      assert k * x == (k - 1) * x + x;
    }
  }

  /** It has moved k pages, but no further than the last row. */
  lemma {:induction false} PagedIs(n: int, rows: int, k: nat)
    requires n >= 1
    ensures Paged(n, rows, k) == if 1 + k * (rows - 6) > n then n else 1 + k * (rows - 6)
  {
    if k == 0 {
    } else {
      PagedIs(n, rows, k - 1);
      assert k * (rows - 6) == (k - 1) * (rows - 6) + (rows - 6);
      if rows < 6 {
        MulNegative(k, rows - 6);
        MulNegative(k - 1, rows - 6);
      } else {
        MulNat(k - 1, rows - 6);
      }
    }
  }

  /** On a screen of at least 7 lines, n - 1 presses always reach the last row. */
  lemma PagingArrives(n: nat, rows: int)
    requires n >= 1 && rows >= 7
    ensures Paged(n, rows, n - 1) == n
  {
    PagedIs(n, rows, n - 1);
    MulNat(n - 1, rows - 6);
  }

  /** Row t is in the window after some number of page-down presses. */
  ghost predicate Seen(t: int, n: int, rows: int) {
    exists k: nat :: InWindow(t, Paged(n, rows, k), rows)
  }

  lemma RowSeen(t: int, n: nat, rows: int)
    requires 1 <= t <= n && rows >= 7
    ensures Seen(t, n, rows)
  {
    var k := (t - 1) / (rows - 6);
    assert t - 1 == (rows - 6) * k + (t - 1) % (rows - 6);
    PagedIs(n, rows, k);
    assert InWindow(t, Paged(n, rows, k), rows);
  }

  lemma RowNotSeen(n: nat, rows: int)
    requires n >= 1 && rows < 7 && n > rows - 4
    ensures !Seen(n, n, rows)
  {
    forall k: nat
      ensures !InWindow(n, Paged(n, rows, k), rows)
    {
      PagedIs(n, rows, k);
      MulNegative(k, rows - 6);
    }
  }

  /** Paging down from the first row shows every row exactly if the screen has at
      least 7 lines, or so few rows are there that the first page shows them all. */
  lemma PagingCovers(n: nat, rows: int)
    ensures (forall t | 1 <= t <= n :: Seen(t, n, rows)) <==> rows >= 7 || n <= rows - 4 || n == 0
  {
    if rows >= 7 {
      forall t | 1 <= t <= n
        ensures Seen(t, n, rows)
      {
        RowSeen(t, n, rows);
      }
    } else if n >= 1 {
      if n > rows - 4 {
        RowNotSeen(n, rows);
      } else {
        forall t | 1 <= t <= n
          ensures Seen(t, n, rows)
        {
          assert InWindow(t, Paged(n, rows, 0), rows);
        }
      }
    }
  }

  /** The screen shows a row exactly if the window reaches into the list; after the
      list got shorter than beginTask it shows none. */
  lemma NothingShown(flat: seq<Task>, beginTask: int, rows: int)
    ensures Window(flat, beginTask, rows) != []
            <==> |flat| >= 1 && rows >= 5 && beginTask <= |flat| && beginTask + rows - 5 >= 1
  {
  }

  /** After scrolling right as often as it takes, a scrolling column is still shown
      if and only if at most one of the two fixed columns is displayed and there is
      a scrolling one: the clamp counts the fixed columns too. */
  lemma ScrollRightLimit(flags: Flags, beginField: int)
    requires beginField + 1 >= DisplayedCount(flags, FD_END)
    ensures var b := BeginFieldAfter(KeyRight, beginField, DisplayedCount(flags, FD_END));
            (exists i :: 0 <= i < FD_END && !Fixed(i) && Shown(flags, b, i))
            <==> Rank(flags, FD_END) >= 1 && !(flags[FD_DID] && flags[FD_VMNAME])
  {
    hide Rank, DisplayedCount, Shown;
    RankAndFixed(flags, FD_END);
    ScrollingShown(flags, DisplayedCount(flags, FD_END) - 1, FD_END);
  }
}
