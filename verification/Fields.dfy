/** src/field.c and src/field.h: the columns of the display, x86_64 table, and which
    of them a line of the screen shows. */
module Fields {
  import opened Types

  const FD_DID := 0
  const FD_VMNAME := 1
  const FD_CPU := 3
  const FD_EXTSUM := 9
  const FD_EXTEPTV := 24
  const FD_EXTPAU := 26
  const FD_STATE := 27
  const FD_P := 28
  const FD_ST := 29
  const FD_HYP := 31
  const FD_WAITMAX := 32
  const FD_NODE0 := 33
  const FD_END := FD_NODE0 + MAX_NODE_NUM

  /** The width of every column. */
  function Align(i: nat): (w: nat)
    ensures w > 0
  {
    if i == FD_VMNAME then 14
    else if i == FD_DID || i == FD_STATE || i == FD_P then 5
    else if i <= FD_CPU || FD_ST <= i <= FD_HYP then 8
    else if i == FD_WAITMAX then 9
    else 10
  }

  /** Columns displayed at start-up. */
  predicate DisplayedAtStart(i: nat) {
    i <= FD_CPU || i == FD_EXTSUM || i == FD_EXTEPTV || i == FD_EXTPAU || FD_STATE <= i <= FD_HYP
  }

  type Flags = f: seq<bool> | |f| == FD_END witness Repeat(false, FD_END)

  /** The id and the name column do not scroll. */
  predicate Fixed(i: nat) {
    i == FD_DID || i == FD_VMNAME
  }

  /** How many scrolling columns are displayed among the first n. */
  function Rank(flags: Flags, n: nat): nat
    requires n <= FD_END
  {
    if n == 0 then 0 else Rank(flags, n - 1) + if flags[n - 1] && !Fixed(n - 1) then 1 else 0
  }

  /** A column is shown if it is displayed and does not scroll, or is displayed
      and, counted among the scrolling ones, not before number beginField. */
  predicate Shown(flags: Flags, beginField: int, i: nat)
    requires i < FD_END
  {
    flags[i] && (Fixed(i) || Rank(flags, i + 1) >= beginField)
  }

  /** The shown columns among the first n, left to right. */
  function ShownFields(flags: Flags, beginField: int, n: nat): seq<nat>
    requires n <= FD_END
  {
    if n == 0 then []
    else ShownFields(flags, beginField, n - 1) + if Shown(flags, beginField, n - 1) then [n - 1] else []
  }

  function Width(cols: seq<nat>): nat {
    if cols == [] then 0 else Width(cols[..|cols| - 1]) + Align(cols[|cols| - 1])
  }

  /** `cols` is the longest prefix of the shown columns narrower than the screen. */
  ghost predicate LongestFit(shown: seq<nat>, cols: seq<nat>, limit: int) {
    && cols <= shown
    && (cols != [] ==> Width(cols) < limit)
    && (cols != shown ==> Width(shown[..|cols| + 1]) >= limit)
  }

  lemma WidthStep(cols: seq<nat>, n: nat)
    requires n < |cols|
    ensures Width(cols[..n + 1]) == Width(cols[..n]) + Align(cols[n])
  {
    assert cols[..n + 1][..n] == cols[..n];
  }

  lemma {:induction false} WidthGrows(cols: seq<nat>, a: nat, b: nat)
    requires a <= b <= |cols|
    ensures Width(cols[..a]) <= Width(cols[..b])
    decreases b
  {
    hide Align;
    if a == b {
    } else {
      WidthGrows(cols, a, b - 1);
      WidthStep(cols, b - 1);
    }
  }

  /** A prefix fits exactly if it is no longer than the longest fit: so whoever
      draws the longest fit draws the same columns. */
  lemma FitsExactly(shown: seq<nat>, cols: seq<nat>, limit: int, n: nat)
    requires LongestFit(shown, cols, limit) && 1 <= n <= |shown|
    ensures Width(shown[..n]) < limit <==> n <= |cols|
  {
    assert cols == shown[..|cols|];
    if n <= |cols| {
      WidthGrows(shown, n, |cols|);
    } else {
      WidthGrows(shown, |cols| + 1, n);
    }
  }

  lemma LongestFitUnique(shown: seq<nat>, a: seq<nat>, b: seq<nat>, limit: int)
    requires LongestFit(shown, a, limit) && LongestFit(shown, b, limit)
    ensures a == b
  {
    if |a| < |b| {
      FitsExactly(shown, a, limit, |b|);
      FitsExactly(shown, b, limit, |b|);
    } else if |b| < |a| {
      FitsExactly(shown, a, limit, |a|);
      FitsExactly(shown, b, limit, |a|);
    }
    assert a == shown[..|a|] && b == shown[..|b|];
  }

  lemma {:induction false} ShownPrefix(flags: Flags, beginField: int, n: nat, m: nat)
    requires n <= m <= FD_END
    ensures ShownFields(flags, beginField, n) <= ShownFields(flags, beginField, m)
    decreases m
  {
    hide Shown;
    if n == m {
    } else {
      ShownPrefix(flags, beginField, n, m - 1);
    }
  }

  /** Number of displayed columns. */
  function DisplayedCount(flags: Flags, n: nat): nat
    requires n <= FD_END
  {
    if n == 0 then 0 else DisplayedCount(flags, n - 1) + if flags[n - 1] then 1 else 0
  }

  /** Which scrolling columns are left: some, exactly if beginField has not passed
      their number. */
  lemma {:induction false} ScrollingShown(flags: Flags, beginField: int, n: nat)
    requires n <= FD_END
    ensures (exists i :: 0 <= i < n && !Fixed(i) && Shown(flags, beginField, i))
            <==> 1 <= Rank(flags, n) && beginField <= Rank(flags, n)
  {
    if n == 0 {
    } else {
      ScrollingShown(flags, beginField, n - 1);
      if 1 <= Rank(flags, n) && beginField <= Rank(flags, n) && Rank(flags, n) != Rank(flags, n - 1) {
        assert !Fixed(n - 1) && Shown(flags, beginField, n - 1);
      }
    }
  }

  lemma {:induction false} RankAndFixed(flags: Flags, n: nat)
    requires FD_VMNAME < n <= FD_END
    ensures DisplayedCount(flags, n)
            == Rank(flags, n) + (if flags[FD_DID] then 1 else 0) + (if flags[FD_VMNAME] then 1 else 0)
  {
    if n > FD_VMNAME + 1 {
      RankAndFixed(flags, n - 1);
    } else {
      assert Rank(flags, 0) == 0 && Rank(flags, 1) == 0 && Rank(flags, 2) == 0;
      assert DisplayedCount(flags, 0) == 0;
      assert DisplayedCount(flags, 1) == if flags[0] then 1 else 0;
    }
  }

  /** The columns displayed at start-up. */
  function StartFlags(): (f: Flags)
    ensures forall i | 0 <= i < FD_END :: f[i] == DisplayedAtStart(i)
  {
    seq(FD_END, i requires 0 <= i < FD_END => DisplayedAtStart(i))
  }

  /** A stretch of columns of which none is shown. */
  lemma {:induction false} NoneShown(flags: Flags, beginField: int, a: nat, b: nat)
    requires a <= b <= FD_END && forall i | a <= i < b :: !flags[i]
    ensures ShownFields(flags, beginField, b) == ShownFields(flags, beginField, a)
    decreases b
  {
    if a == b {
    } else {
      NoneShown(flags, beginField, a, b - 1);
      assert !Shown(flags, beginField, b - 1);
    }
  }

  lemma RankNonNegative(flags: Flags, i: nat)
    requires i < FD_END && flags[i]
    ensures Shown(flags, 1, i)
  {
    assert Rank(flags, i + 1) == Rank(flags, i) + if !Fixed(i) then 1 else 0;
  }

  /** Before anything is scrolled every displayed column is shown. */
  lemma OneShown(flags: Flags, i: nat)
    requires i < FD_END && flags[i]
    ensures ShownFields(flags, 1, i + 1) == ShownFields(flags, 1, i) + [i]
  {
    RankNonNegative(flags, i);
  }

  lemma NothingShownYet(flags: Flags)
    ensures ShownFields(flags, 1, 0) == []
  {
  }

  /** The program's columns at start-up: id, name, pid, %CPU, EXTsum, EXTeptv, EXTpau, S,
      P, %ST, %GUE and %HYP. */
  lemma StartColumns()
    ensures ShownFields(StartFlags(), 1, FD_END) == [0, 1, 2, 3, 9, 24, 26, 27, 28, 29, 30, 31]
  {
    hide ShownFields, Shown;
    var f := StartFlags();
    NothingShownYet(f);
    OneShown(f, 0);
    OneShown(f, 1);
    OneShown(f, 2);
    OneShown(f, 3);
    NoneShown(f, 1, 4, 9);
    OneShown(f, 9);
    NoneShown(f, 1, 10, 24);
    OneShown(f, 24);
    NoneShown(f, 1, 25, 26);
    OneShown(f, 26);
    OneShown(f, 27);
    OneShown(f, 28);
    OneShown(f, 29);
    OneShown(f, 30);
    OneShown(f, 31);
    NoneShown(f, 1, 32, FD_END);
  }

  lemma WidthAppend(cols: seq<nat>, c: nat)
    ensures Width(cols + [c]) == Width(cols) + Align(c)
  {
    assert (cols + [c])[..|cols|] == cols;
  }

  lemma NoWidth()
    ensures Width([]) == 0
  {
  }

  /** A screen of 76 to 83 columns shows nine of them; the tenth, %ST, needs 84. */
  lemma NineColumns(limit: int)
    ensures LongestFit(ShownFields(StartFlags(), 1, FD_END), [0, 1, 2, 3, 9, 24, 26, 27, 28], limit)
            <==> 76 <= limit <= 83
  {
    hide Width, ShownFields;
    StartColumns();
    var shown, nine := [0, 1, 2, 3, 9, 24, 26, 27, 28, 29, 30, 31], [0, 1, 2, 3, 9, 24, 26, 27, 28];
    assert Width([]) == 0 by { NoWidth(); }
    var c0: seq<nat> := [];
    var c1 := c0 + [0];
    WidthAppend(c0, 0);
    var c2 := c1 + [1];
    WidthAppend(c1, 1);
    var c3 := c2 + [2];
    WidthAppend(c2, 2);
    var c4 := c3 + [3];
    WidthAppend(c3, 3);
    var c5 := c4 + [9];
    WidthAppend(c4, 9);
    var c6 := c5 + [24];
    WidthAppend(c5, 24);
    var c7 := c6 + [26];
    WidthAppend(c6, 26);
    var c8 := c7 + [27];
    WidthAppend(c7, 27);
    var c9 := c8 + [28];
    WidthAppend(c8, 28);
    var c10 := c9 + [29];
    WidthAppend(c9, 29);
    assert nine == c9 && nine + [29] == c10;
    assert Width(nine) == 75 && Width(nine + [29]) == 83;
    assert shown[..9] == nine && shown[..10] == nine + [29];
  }
}
