/** src/proc.c: the /proc/<pid>/stat reader and the deltas of its counters. */
module Proc {
  import opened Words
  import opened Types
  import opened CHeap
  import opened Text

  /** Text of a stat file: the kernel always writes the parenthesised comm. */
  type StatText = s: string | '(' in s && ')' in s witness "()"

  /** A stat file: its text, and what sscanf makes of the text behind the comm. */
  datatype StatFile = StatFile(text: StatText, ppid: int, nlwp: int, utime: u64, stime: u64)

  /** The comm as cut out of the text, if it fits the name buffer. */
  function Comm(text: StatText): Option<string> {
    var start := LastIndex(text, '(') + 1;
    var end := LastIndex(text, ')');
    if end - start >= DOMAIN_NAME_MAX || end - start < 0 then None else Some(text[start..end])
  }

  /** The record after a successful get_proc_stat; None when it fails. */
  function LoadStat(t: Task, file: Option<StatFile>): Option<Task> {
    if file.None? || Comm(file.value.text).None? then None
    else
      var f := file.value;
      Some(t.(vmname := Comm(f.text).value, ppid := f.ppid, nlwp := f.nlwp,
              stat := t.stat[UTIME := f.utime][STIME := f.stime]))
  }

  /** get_proc_stat: a failure is found before anything is written. */
  method GetProcStat(heap: Heap, dom: Loc, file: Option<StatFile>) returns (ret: int)
    requires heap.Valid() && InBounds(heap.blocks, dom)
    modifies heap
    ensures heap.Valid()
    ensures match LoadStat(At(old(heap.blocks), dom), file)
            case None => ret < 0 && heap.blocks == old(heap.blocks)
            case Some(t) => ret >= 0 && heap.blocks == Put(old(heap.blocks), dom, t)
  {
    if file.None? {
      return -1;
    }
    var f, t := file.value, At(heap.blocks, dom);
    var comm := Comm(f.text);
    if comm.None? {
      return -1;
    }
    heap.Write(dom, t.(vmname := comm.value));
    heap.Write(dom, At(heap.blocks, dom).(ppid := f.ppid, nlwp := f.nlwp,
               stat := t.stat[UTIME := f.utime][STIME := f.stime]));
    PutPut(old(heap.blocks), dom, t.(vmname := comm.value), At(heap.blocks, dom));
    return 1;
  }

  lemma {:induction false} LastIndexUnique(s: string, c: char, i: int)
    requires -1 <= i < |s|
    requires i >= 0 ==> s[i] == c
    requires forall k | i < k < |s| :: s[k] != c
    ensures LastIndex(s, c) == i
  {
  }

  /** What a name read from "pid (comm) S .." is: the part of comm behind its last
      opening parenthesis. It is all of comm exactly when comm has none. */
  lemma CommRecovery(before: string, comm: string, after: string)
    requires '(' !in before && '(' !in after && ')' !in after
    ensures var text: StatText := before + "(" + comm + ")" + after;
            var name := comm[LastIndex(comm, '(') + 1..];
            && Comm(text) == (if |name| < DOMAIN_NAME_MAX then Some(name) else None)
            && (Comm(text) == Some(comm) <==> '(' !in comm && |comm| < DOMAIN_NAME_MAX)
  {
    var text := before + "(" + comm + ")" + after;
    var last := LastIndex(comm, '(');
    assert text[|before|] == '(' && text[|before| + 1 + |comm|] == ')';
    LastIndexUnique(text, '(', |before| + 1 + last);
    LastIndexUnique(text, ')', |before| + 1 + |comm|);
    assert text[|before| + 2 + last..|before| + 1 + |comm|] == comm[last + 1..];
    if last >= 0 {
      assert comm[last] in comm;
      assert |comm[last + 1..]| < |comm|;
    } else {
      assert comm[0..] == comm;
    }
  }

  /** refresh_delta_stat: the delta functions of utime and stime, in place. */
  method RefreshDeltaStat(heap: Heap, cur: Loc, prev: Loc)
    requires heap.Valid() && InBounds(heap.blocks, cur) && InBounds(heap.blocks, prev)
    modifies heap
    ensures heap.Valid()
    ensures heap.blocks == old(Put(heap.blocks, cur,
                                   WithDeltas(At(heap.blocks, cur), At(heap.blocks, prev), UTIME, COUNTERS)))
  {
    ghost var b0, c0, p0 := heap.blocks, At(heap.blocks, cur), At(heap.blocks, prev);
    var row := UTIME;
    assert WithDeltas(c0, p0, UTIME, row) == c0;
    PutAt(b0, cur);
    while row < COUNTERS
      invariant UTIME <= row <= COUNTERS
      invariant heap.Valid()
      invariant heap.blocks == Put(b0, cur, WithDeltas(c0, p0, UTIME, row))
    {
      var c, p := At(heap.blocks, cur), At(heap.blocks, prev);
      heap.Write(cur, c.(delta := c.delta[row := Delta(c.stat[row], p.stat[row], p.delta[row])]));
      PutPut(b0, cur, c, At(heap.blocks, cur));
      assert At(heap.blocks, cur) == WithDeltas(c0, p0, UTIME, row + 1);
      row := row + 1;
    }
  }
}
