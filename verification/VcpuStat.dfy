/** src/vcpu_stat.c */
module VcpuStat {
  import opened Words
  import opened Types
  import opened CHeap
  import opened Text
  import opened DomainLists

  /** The rows of the vcpu_stat table; those beyond `num` are left over. */
  datatype Table = Table(rows: seq<Task>, num: nat)

  /** sscanf of one token with the format of a table row. */
  function SetColumn(t: Task, column: nat, token: string): Task
    requires column < VCPU_STAT_SIZE
  {
    match ScanUnsigned(token)
    case None => t
    case Some(v) => if column == 0 then t.(pid := AsPid(v)) else t.(stat := t.stat[column := v])
  }

  /** The columns a line has tokens for; the others keep their former values. */
  function FillRow(t: Task, tokens: seq<string>): Task
    requires |tokens| <= VCPU_STAT_SIZE
  {
    if tokens == [] then t
    else SetColumn(FillRow(t, tokens[..|tokens| - 1]), |tokens| - 1, tokens[|tokens| - 1])
  }

  function FirstColumns(tokens: seq<string>): (r: seq<string>)
    ensures |r| <= VCPU_STAT_SIZE
  {
    if |tokens| <= VCPU_STAT_SIZE then tokens else tokens[..VCPU_STAT_SIZE]
  }

  /** The table after reading `text` from row `num` on. */
  function ReadRows(text: string, t: Table): (r: Table)
    requires |t.rows| == MAX_VCPU_NUM && t.num <= MAX_VCPU_NUM
    ensures |r.rows| == MAX_VCPU_NUM && t.num <= r.num <= MAX_VCPU_NUM
  {
    if text == [] || t.num >= MAX_VCPU_NUM then t
    else
      var n := LineLen(text, BUF_SIZE - 2);
      var row := FillRow(t.rows[t.num], FirstColumns(Tokens(text[..n])));
      ReadRows(text[n..], Table(t.rows[t.num := row], t.num + 1))
  }

  /** The tokens still to come from a strtok_r result on. */
  ghost function Remaining(p: Option<(string, string)>): seq<string> {
    match p
    case None => []
    case Some(q) => [q.0] + Tokens(q.1)
  }

  lemma TokensAre(line: string)
    ensures Tokens(line) == Remaining(Strtok(line))
  {
  }

  lemma NoTokens(t: Task)
    ensures FillRow(t, []) == t
  {
  }

  lemma FillRowStep(t: Task, tokens: seq<string>, i: nat)
    requires i < |tokens| && i < VCPU_STAT_SIZE
    ensures FillRow(t, tokens[..i + 1]) == SetColumn(FillRow(t, tokens[..i]), i, tokens[i])
  {
    assert tokens[..i + 1][..i] == tokens[..i];
  }

  /** `t` with the counters of rows 1..hi of `vcpu`. */
  function CopiedColumns(t: Task, vcpu: Task, hi: nat): Task
    requires 1 <= hi <= VCPU_STAT_SIZE
  {
    t.(stat := t.stat[..1] + vcpu.stat[1..hi] + t.stat[hi..])
  }

  lemma CopyNext(t: Task, vcpu: Task, row: nat)
    requires 1 <= row < VCPU_STAT_SIZE
    ensures var u := CopiedColumns(t, vcpu, row);
            u.(stat := u.stat[row := vcpu.stat[row]]) == CopiedColumns(t, vcpu, row + 1)
  {
    assert (t.stat[..1] + vcpu.stat[1..row] + t.stat[row..])[row := vcpu.stat[row]]
        == t.stat[..1] + vcpu.stat[1..row + 1] + t.stat[row + 1..];
  }

  function WithVcpuStat(t: Task, table: Table): Task
    requires table.num <= |table.rows|
  {
    var i := FirstPid(table.rows[..table.num], t.pid);
    if i == table.num then t else CopiedColumns(t, table.rows[i], VCPU_STAT_SIZE)
  }

  /** The static vcpu_list: one block of MAX_VCPU_NUM records, allocated at start-up
      and reused, uncleared, by every frame. */
  class VcpuList {
    const domains: array<Task>
    var num: nat

    ghost predicate Valid()
      reads this
    {
      domains.Length == MAX_VCPU_NUM && num <= MAX_VCPU_NUM
    }

    ghost function Contents(): (t: Table)
      requires Valid()
      reads this, domains
      ensures |t.rows| == MAX_VCPU_NUM && t.num <= MAX_VCPU_NUM
    {
      Table(domains[..], num)
    }

    constructor ()
      ensures Valid() && fresh(domains) && num == 0
    {
      domains := new Task[MAX_VCPU_NUM](_ => ZERO_TASK);
      num := 0;
    }

    /** The line loop's body: the token loop, and the row count. */
    method ReadLine(line: string)
      requires Valid() && num < MAX_VCPU_NUM
      modifies this`num, domains
      ensures Valid() && num == old(num) + 1
      ensures domains[..] == old(domains[..])[old(num) := FillRow(old(domains[num]), FirstColumns(Tokens(line)))]
    {
      hide SetColumn, FillRow, Tokens;
      ghost var tokens, rows := Tokens(line), domains[..];
      TokensAre(line);
      assert FillRow(rows[num], tokens[..0]) == rows[num] by { NoTokens(rows[num]); }
      var i := 0;
      var p := Strtok(line);
      while p.Some? && i < VCPU_STAT_SIZE
        invariant num == old(num)
        invariant 0 <= i <= VCPU_STAT_SIZE && i <= |tokens|
        invariant Remaining(p) == tokens[i..]
        invariant domains[num] == FillRow(rows[num], tokens[..i])
        invariant forall k | 0 <= k < MAX_VCPU_NUM && k != num :: domains[k] == rows[k]
        decreases VCPU_STAT_SIZE - i
      {
        var (token, rest) := p.value;
        TokensAre(rest);
        FillRowStep(rows[num], tokens, i);
        assert tokens[i + 1..] == tokens[i..][1..];
        domains[num] := SetColumn(domains[num], i, token);
        p := Strtok(rest);
        i := i + 1;
      }
      assert tokens[..i] == FirstColumns(tokens);
      assert domains[..] == rows[num := FillRow(rows[num], FirstColumns(tokens))];
      num := num + 1;
    }

    /** get_vcpu_list; `text` is None when the file cannot be opened. */
    method GetVcpuList(text: Option<string>) returns (ret: int)
      requires Valid()
      modifies this, domains
      ensures Valid()
      ensures text.None? ==> ret == -1 && Contents() == old(Contents())
      ensures text.Some? ==> ret == num && Contents() == ReadRows(text.value, Table(old(Contents()).rows, 0))
    {
      if text.None? {
        return -1;
      }
      num := 0;
      ghost var start := Contents();
      var rest := text.value;
      while rest != [] && num < MAX_VCPU_NUM
        invariant Valid()
        invariant ReadRows(text.value, start) == ReadRows(rest, Contents())
        decreases |rest|
      {
        var n := LineLen(rest, BUF_SIZE - 2);
        ReadLine(rest[..n]);
        rest := rest[n..];
      }
      ret := num;
    }

    /** get_vcpu_stat: copies every column but the pid from the first row with
        the thread's pid. */
    method GetVcpuStat(heap: Heap, dom: Loc) returns (ret: int)
      requires Valid() && heap.Valid() && InBounds(heap.blocks, dom)
      modifies heap
      ensures heap.Valid()
      ensures ret == if FirstPid(domains[..num], At(old(heap.blocks), dom).pid) < num then 1 else 0
      ensures heap.blocks == Put(old(heap.blocks), dom, WithVcpuStat(At(old(heap.blocks), dom), old(Contents())))
    {
      ghost var b0, d0 := heap.blocks, At(heap.blocks, dom);
      PutAt(b0, dom);
      var i, pid := 0, At(heap.blocks, dom).pid;
      while i < num && domains[i].pid != pid
        invariant 0 <= i <= num
        invariant forall k | 0 <= k < i :: domains[k].pid != d0.pid
      {
        i := i + 1;
      }
      assert i == FirstPid(domains[..num], d0.pid) by {
        var f := FirstPid(domains[..num], d0.pid);
        assert i < num ==> domains[..num][i].pid == d0.pid;
        assert f < num ==> domains[f].pid == d0.pid;
      }
      if i >= num {
        return 0;
      }
      var row := 1;
      assert CopiedColumns(d0, domains[i], row) == d0;
      while row < VCPU_STAT_SIZE
        invariant 1 <= row <= VCPU_STAT_SIZE
        invariant heap.Valid()
        invariant heap.blocks == Put(b0, dom, CopiedColumns(d0, domains[i], row))
      {
        var d := At(heap.blocks, dom);
        heap.Write(dom, d.(stat := d.stat[row := domains[i].stat[row]]));
        CopyNext(d0, domains[i], row);
        PutPut(b0, dom, d, At(heap.blocks, dom));
        row := row + 1;
      }
      return 1;
    }
  }

  method RefreshDeltaVcpuStat(heap: Heap, cur: Loc, prev: Loc)
    requires heap.Valid() && InBounds(heap.blocks, cur) && InBounds(heap.blocks, prev)
    modifies heap
    ensures heap.Valid()
    ensures heap.blocks == old(Put(heap.blocks, cur,
                                   WithDeltas(At(heap.blocks, cur), At(heap.blocks, prev), 0, VCPU_STAT_SIZE)))
  {
    ghost var b0, c0, p0 := heap.blocks, At(heap.blocks, cur), At(heap.blocks, prev);
    var row := 0;
    assert WithDeltas(c0, p0, 0, row) == c0;
    PutAt(b0, cur);
    while row < VCPU_STAT_SIZE
      invariant 0 <= row <= VCPU_STAT_SIZE
      invariant heap.Valid()
      invariant heap.blocks == Put(b0, cur, WithDeltas(c0, p0, 0, row))
    {
      if HasDelta(row) {
        var c, p := At(heap.blocks, cur), At(heap.blocks, prev);
        heap.Write(cur, c.(delta := c.delta[row := Delta(c.stat[row], p.stat[row], p.delta[row])]));
      }
      PutPut(b0, cur, WithDeltas(c0, p0, 0, row), At(heap.blocks, cur));
      assert At(heap.blocks, cur) == WithDeltas(c0, p0, 0, row + 1);
      row := row + 1;
    }
  }

  /** sum_vcpu_stat: folds a thread's deltas, and its st_max, into its domain. */
  method SumVcpuStat(heap: Heap, dom: Loc, thread: Loc)
    requires heap.Valid() && InBounds(heap.blocks, dom) && InBounds(heap.blocks, thread)
    requires dom != thread
    modifies heap
    ensures heap.Valid()
    ensures heap.blocks == old(Put(heap.blocks, dom, AddThread(At(heap.blocks, dom), At(heap.blocks, thread))))
  {
    ghost var b0, d0, t0 := heap.blocks, At(heap.blocks, dom), At(heap.blocks, thread);
    var row := 0;
    assert WithSums(d0, t0, row) == d0;
    PutAt(b0, dom);
    while row < VCPU_STAT_SIZE
      invariant 0 <= row <= VCPU_STAT_SIZE
      invariant heap.Valid()
      invariant heap.blocks == Put(b0, dom, WithSums(d0, t0, row))
    {
      if HasSum(row) {
        var d, t := At(heap.blocks, dom), At(heap.blocks, thread);
        heap.Write(dom, d.(delta := d.delta[row := Add64(d.delta[row], t.delta[row])]));
      }
      PutPut(b0, dom, WithSums(d0, t0, row), At(heap.blocks, dom));
      assert At(heap.blocks, dom) == WithSums(d0, t0, row + 1);
      row := row + 1;
    }
    var d, t := At(heap.blocks, dom), At(heap.blocks, thread);
    heap.Write(dom, d.(stat := d.stat[ST_MAX := Add64(d.stat[ST_MAX], t.stat[ST_MAX])]));
    PutPut(b0, dom, d, At(heap.blocks, dom));
  }
}
