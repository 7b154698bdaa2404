/** The vcpu_stat text format: what get_vcpu_list recovers from a rendered table,
    and what a short line leaves behind. */
module VcpuText {
  import opened Words
  import opened Types
  import opened Text
  import opened VcpuStat

  /** A table row's columns, in table order. */
  function Columns(t: Task): seq<u64>
    requires 0 <= t.pid < TWO32 / 2
  {
    [t.pid] + t.stat[1..VCPU_STAT_SIZE]
  }

  /** The kernel's line: decimals with single separators, ended by a newline. */
  function RenderLine(cs: seq<u64>): string
    requires cs != []
  {
    Dec(cs[0]) + (if |cs| == 1 then "\n" else " " + RenderLine(cs[1..]))
  }

  function RenderTable(rows: seq<Task>): string
    requires forall t | t in rows :: 0 <= t.pid < TWO32 / 2
  {
    if rows == [] then "" else RenderLine(Columns(rows[0])) + RenderTable(rows[1..])
  }

  function DecAll(cs: seq<u64>): (r: seq<string>)
    ensures |r| == |cs| && forall i | 0 <= i < |cs| :: r[i] == Dec(cs[i])
  {
    if cs == [] then [] else [Dec(cs[0])] + DecAll(cs[1..])
  }

  lemma DecHasNoDelim(n: nat)
    ensures Dec(n) != [] && forall c | c in Dec(n) :: !IsDelim(c)
  {
    DecIsDigits(n);
  }

  lemma {:induction false} LineTokens(cs: seq<u64>)
    requires cs != []
    ensures Tokens(RenderLine(cs)) == DecAll(cs)
  {
    DecHasNoDelim(cs[0]);
    if |cs| == 1 {
      assert RenderLine(cs) == Dec(cs[0]) + ['\n'] + [];
      TokensCons(Dec(cs[0]), '\n', []);
      assert Tokens([]) == [];
    } else {
      assert RenderLine(cs) == Dec(cs[0]) + [' '] + RenderLine(cs[1..]);
      TokensCons(Dec(cs[0]), ' ', RenderLine(cs[1..]));
      LineTokens(cs[1..]);
    }
  }

  /** A line is one newline-ended line, of at most 21 characters a column. */
  lemma {:induction false} LineShape(cs: seq<u64>)
    requires cs != []
    ensures 0 < |RenderLine(cs)| <= 21 * |cs|
    ensures RenderLine(cs) == RenderLine(cs)[..|RenderLine(cs)| - 1] + "\n"
    ensures '\n' !in RenderLine(cs)[..|RenderLine(cs)| - 1]
  {
    DecHasNoDelim(cs[0]);
    DecLength64(cs[0]);
    var line := RenderLine(cs);
    if |cs| == 1 {
      assert line[..|line| - 1] == Dec(cs[0]);
    } else {
      LineShape(cs[1..]);
      var tail := RenderLine(cs[1..]);
      assert line[..|line| - 1] == Dec(cs[0]) + " " + tail[..|tail| - 1];
    }
  }

  /** `t` with the pid and the counters of rows 1..k taken from `r`. */
  function Overwritten(t: Task, r: Task, k: nat): Task
    requires 1 <= k <= VCPU_STAT_SIZE
  {
    t.(pid := r.pid, stat := t.stat[..1] + r.stat[1..k] + t.stat[k..])
  }

  lemma OverwriteNext(t: Task, r: Task, k: nat)
    requires 1 <= k < VCPU_STAT_SIZE
    ensures var u := Overwritten(t, r, k); u.(stat := u.stat[k := r.stat[k]]) == Overwritten(t, r, k + 1)
  {
    assert (t.stat[..1] + r.stat[1..k] + t.stat[k..])[k := r.stat[k]]
        == t.stat[..1] + r.stat[1..k + 1] + t.stat[k + 1..];
  }

  /** Reading the first k columns of a row sets exactly those columns. */
  lemma {:induction false} FillColumns(t: Task, r: Task, k: nat)
    requires 0 <= r.pid < TWO32 / 2 && 1 <= k <= VCPU_STAT_SIZE
    ensures FillRow(t, DecAll(Columns(r))[..k]) == Overwritten(t, r, k)
  {
    hide ScanUnsigned, Dec;
    var tokens, column := DecAll(Columns(r)), Columns(r)[k - 1];
    FillRowStep(t, tokens, k - 1);
    assert tokens[k - 1] == Dec(column);
    ScanDec(column);
    if k == 1 {
      assert FillRow(t, tokens[..0]) == t;
      assert t.stat[..1] + r.stat[1..1] + t.stat[1..] == t.stat;
    } else {
      FillColumns(t, r, k - 1);
      OverwriteNext(t, r, k - 1);
    }
  }

  /** The pid and the counters of the table rows agree. */
  predicate SameRow(a: Task, b: Task) {
    a.pid == b.pid && a.stat[1..VCPU_STAT_SIZE] == b.stat[1..VCPU_STAT_SIZE]
  }

  lemma OverwrittenIsSame(t: Task, r: Task)
    ensures SameRow(Overwritten(t, r, VCPU_STAT_SIZE), r)
  {
  }

  lemma ColumnCount(r: Task)
    requires 0 <= r.pid < TWO32 / 2
    ensures |Columns(r)| == VCPU_STAT_SIZE
  {
  }

  /** One rendered row is read as one row. */
  lemma ReadLineBack(r: Task, rest: string, t: Table)
    requires |t.rows| == MAX_VCPU_NUM && t.num < MAX_VCPU_NUM
    requires 0 <= r.pid < TWO32 / 2
    ensures ReadRows(RenderLine(Columns(r)) + rest, t)
            == ReadRows(rest, Table(t.rows[t.num := Overwritten(t.rows[t.num], r, VCPU_STAT_SIZE)], t.num + 1))
  {
    hide RenderLine, Columns, Tokens, LineLen, FillRow, Overwritten;
    var cs := Columns(r);
    ColumnCount(r);
    var line := RenderLine(cs);
    LineShape(cs);
    var body := line[..|line| - 1];
    var text := line + rest;
    assert text == body + "\n" + rest;
    LineLenLine(body, rest, BUF_SIZE - 2);
    assert text[..|line|] == line && text[|line|..] == rest;
    LineTokens(cs);
    FillColumns(t.rows[t.num], r, VCPU_STAT_SIZE);
    assert DecAll(cs)[..VCPU_STAT_SIZE] == DecAll(cs);
  }

  /** The table with rows put in from row num on. */
  function Inserted(t: Table, rows: seq<Task>): Table
    requires |t.rows| == MAX_VCPU_NUM && t.num + |rows| <= MAX_VCPU_NUM
    decreases |rows|
  {
    if rows == [] then t
    else Inserted(Table(t.rows[t.num := Overwritten(t.rows[t.num], rows[0], VCPU_STAT_SIZE)], t.num + 1), rows[1..])
  }

  predicate SameRows(a: seq<Task>, b: seq<Task>) {
    |a| == |b| && forall i | 0 <= i < |a| :: SameRow(a[i], b[i])
  }

  lemma {:induction false} InsertedRows(t: Table, rows: seq<Task>)
    requires |t.rows| == MAX_VCPU_NUM && t.num + |rows| <= MAX_VCPU_NUM
    ensures var r := Inserted(t, rows);
            && |r.rows| == MAX_VCPU_NUM && r.num == t.num + |rows|
            && r.rows[..t.num] == t.rows[..t.num] && r.rows[r.num..] == t.rows[r.num..]
            && SameRows(r.rows[t.num..r.num], rows)
    decreases |rows|
  {
    hide Overwritten, SameRow;
    if rows == [] {
    } else {
      var row := Overwritten(t.rows[t.num], rows[0], VCPU_STAT_SIZE);
      var t' := Table(t.rows[t.num := row], t.num + 1);
      InsertedRows(t', rows[1..]);
      OverwrittenIsSame(t.rows[t.num], rows[0]);
      var r := Inserted(t, rows);
      assert r.rows[..t'.num][t.num] == row && r.rows[..t'.num][..t.num] == r.rows[..t.num];
      assert r.rows[t.num..r.num] == [row] + r.rows[t'.num..r.num];
    }
  }

  lemma {:induction false} ReadInserts(rows: seq<Task>, t: Table)
    requires |t.rows| == MAX_VCPU_NUM && t.num + |rows| <= MAX_VCPU_NUM
    requires forall r | r in rows :: 0 <= r.pid < TWO32 / 2
    ensures ReadRows(RenderTable(rows), t) == Inserted(t, rows)
    decreases |rows|
  {
    hide Overwritten, RenderLine, Columns;
    if rows == [] {
    } else {
      ReadLineBack(rows[0], RenderTable(rows[1..]), t);
      ReadInserts(rows[1..], Table(t.rows[t.num := Overwritten(t.rows[t.num], rows[0], VCPU_STAT_SIZE)], t.num + 1));
    }
  }

  /** Reading a rendered table recovers every row, whatever the table held before,
      and leaves the records around the new rows alone. */
  lemma RoundTrip(rows: seq<Task>, t: Table)
    requires |t.rows| == MAX_VCPU_NUM && t.num + |rows| <= MAX_VCPU_NUM
    requires forall r | r in rows :: 0 <= r.pid < TWO32 / 2
    ensures var r := ReadRows(RenderTable(rows), t);
            && r.num == t.num + |rows|
            && SameRows(r.rows[t.num..r.num], rows)
            && r.rows[..t.num] == t.rows[..t.num] && r.rows[r.num..] == t.rows[r.num..]
  {
    hide RenderTable, ReadRows, Inserted, SameRows;
    ReadInserts(rows, t);
    InsertedRows(t, rows);
  }

  // ----- Lines that are not full -----

  /** The number in column c of a line, if there is one. */
  function NumberAt(tokens: seq<string>, c: nat): Option<u64> {
    if c < |tokens| then ScanUnsigned(tokens[c]) else None
  }

  /** A column is the number the line has for it, and without one it is what the
      record held before; nothing else is written. */
  lemma {:induction false} FilledColumn(t: Task, tokens: seq<string>, c: nat)
    requires |tokens| <= VCPU_STAT_SIZE && c < COUNTERS
    ensures var r, n := FillRow(t, tokens), NumberAt(tokens, c);
            && (1 <= c && n.Some? ==> r.stat[c] == n.value)
            && (c == 0 || n.None? ==> r.stat[c] == t.stat[c])
            && r.pid == (match NumberAt(tokens, 0) case None => t.pid case Some(v) => AsPid(v))
            && r == t.(pid := r.pid, stat := r.stat)
  {
    hide ScanUnsigned, AsPid;
    if tokens == [] {
    } else {
      FilledColumn(t, tokens[..|tokens| - 1], c);
    }
  }

  /** Line i of the file, as fgets cuts it. */
  function Line(text: string, i: nat): Option<string> {
    if text == [] then None
    else
      var n := LineLen(text, BUF_SIZE - 2);
      if i == 0 then Some(text[..n]) else Line(text[n..], i - 1)
  }

  function Numbers(line: string): (r: seq<string>)
    ensures |r| <= VCPU_STAT_SIZE
  {
    FirstColumns(Tokens(line))
  }

  /** Every line is read into the record of its number, as far as there are records;
      no other record changes. */
  lemma {:induction false} RowsRead(text: string, t: Table, i: nat)
    requires |t.rows| == MAX_VCPU_NUM && t.num <= MAX_VCPU_NUM && i < MAX_VCPU_NUM
    ensures var r := ReadRows(text, t);
            && (i < r.num <==> i < t.num || Line(text, i - t.num).Some?)
            && r.rows[i]
               == if t.num <= i < r.num then FillRow(t.rows[i], Numbers(Line(text, i - t.num).value)) else t.rows[i]
    decreases |text|
  {
    hide FillRow, Tokens, LineLen;
    if text == [] || t.num == MAX_VCPU_NUM {
    } else {
      var n := LineLen(text, BUF_SIZE - 2);
      var row := FillRow(t.rows[t.num], Numbers(text[..n]));
      RowsRead(text[n..], Table(t.rows[t.num := row], t.num + 1), i);
    }
  }

  /** A line of more than 1022 characters is read as several. */
  lemma LongLine(text: string)
    requires |text| > 1022 && '\n' !in text[..1022]
    ensures Line(text, 0) == Some(text[..1022]) && Line(text, 1) == Line(text[1022..], 0)
  {
    LineLenIs(text, BUF_SIZE - 2);
    var n := LineLen(text, BUF_SIZE - 2);
    assert forall k | 0 <= k < 1022 :: text[k] == text[..1022][k] && text[k] != '\n';
    assert n == 1022;
  }

  /** The table as get_vcpu_list starts to fill it. */
  predicate Rewound(t: Table) {
    |t.rows| == MAX_VCPU_NUM && t.num == 0
  }

  /** A table whose record i differs from a cleared one in column c. */
  function Stale(i: nat, c: nat): (t: Table)
    requires i < MAX_VCPU_NUM && c < COUNTERS
    ensures Rewound(t)
  {
    Table(Repeat(ZERO_TASK, MAX_VCPU_NUM)[i := ZERO_TASK.(pid := 1, stat := ZERO_COUNTERS[c := 1])], 0)
  }

  /** Columns beyond the table's are ignored. */
  lemma NumberInLine(line: string, c: nat)
    requires c < VCPU_STAT_SIZE
    ensures NumberAt(Numbers(line), c) == NumberAt(Tokens(line), c)
  {
    hide Tokens, ScanUnsigned;
  }

  /** Row i holds in column c after a frame what line i of the file has there; and it
      depends on the file alone if and only if the line has a number there: a short line,
      or a token that is no number, leaves the value of whichever vCPU had the record in
      an earlier frame. */
  lemma ColumnFromFile(text: string, i: nat, c: nat)
    requires i < MAX_VCPU_NUM && 1 <= c < VCPU_STAT_SIZE && Line(text, i).Some?
    ensures var n := NumberAt(Tokens(Line(text, i).value), c);
            && (forall t | Rewound(t) ::
                  ReadRows(text, t).rows[i].stat[c] == if n.Some? then n.value else t.rows[i].stat[c])
            && ((forall t, u | Rewound(t) && Rewound(u) ::
                   ReadRows(text, t).rows[i].stat[c] == ReadRows(text, u).rows[i].stat[c])
                <==> n.Some?)
  {
    hide FillRow, Numbers, ScanUnsigned, ReadRows, Line, NumberAt, AsPid, Tokens;
    NumberInLine(Line(text, i).value, c);
    forall t | Rewound(t)
      ensures var n := NumberAt(Tokens(Line(text, i).value), c);
              ReadRows(text, t).rows[i].stat[c] == if n.Some? then n.value else t.rows[i].stat[c]
    {
      RowsRead(text, t, i);
      FilledColumn(t.rows[i], Numbers(Line(text, i).value), c);
    }
    var t, u := Table(Repeat(ZERO_TASK, MAX_VCPU_NUM), 0), Stale(i, c);
    assert Rewound(t) && t.rows[i].stat[c] != u.rows[i].stat[c];
  }

  /** The same for the pid. */
  lemma PidFromFile(text: string, i: nat)
    requires i < MAX_VCPU_NUM && Line(text, i).Some?
    ensures var n := NumberAt(Tokens(Line(text, i).value), 0);
            && (forall t | Rewound(t) ::
                  ReadRows(text, t).rows[i].pid == if n.Some? then AsPid(n.value) else t.rows[i].pid)
            && ((forall t, u | Rewound(t) && Rewound(u) ::
                   ReadRows(text, t).rows[i].pid == ReadRows(text, u).rows[i].pid)
                <==> n.Some?)
  {
    hide FillRow, Numbers, ScanUnsigned, ReadRows, Line, NumberAt, AsPid, Tokens;
    NumberInLine(Line(text, i).value, 0);
    forall t | Rewound(t)
      ensures var n := NumberAt(Tokens(Line(text, i).value), 0);
              ReadRows(text, t).rows[i].pid == if n.Some? then AsPid(n.value) else t.rows[i].pid
    {
      RowsRead(text, t, i);
      FilledColumn(t.rows[i], Numbers(Line(text, i).value), 0);
    }
    var t, u := Table(Repeat(ZERO_TASK, MAX_VCPU_NUM), 0), Stale(i, 1);
    assert Rewound(t) && t.rows[i].pid != u.rows[i].pid;
  }
}
