/** The C heap, as far as `struct domain` records live in it. A block is live
    while its address is a key of `blocks`; `free` removes the key, so a second
    free or an access after free has no block to act on. */
module CHeap {
  import opened Types

  type Blocks = map<Ptr, seq<Task>>

  /** A `struct domain *`: a record inside a block. */
  datatype Loc = Loc(block: Ptr, index: nat)

  predicate InBounds(h: Blocks, l: Loc) {
    l.block in h && l.index < |h[l.block]|
  }

  function At(h: Blocks, l: Loc): Task
    requires InBounds(h, l)
  {
    h[l.block][l.index]
  }

  function Put(h: Blocks, l: Loc, t: Task): Blocks
    requires InBounds(h, l)
  {
    h[l.block := h[l.block][l.index := t]]
  }

  lemma PutAt(h: Blocks, l: Loc)
    requires InBounds(h, l)
    ensures Put(h, l, At(h, l)) == h
  {
    assert h[l.block][l.index := At(h, l)] == h[l.block];
  }

  lemma PutPut(h: Blocks, l: Loc, t: Task, u: Task)
    requires InBounds(h, l)
    ensures Put(Put(h, l, t), l, u) == Put(h, l, u)
  {
    assert h[l.block][l.index := t][l.index := u] == h[l.block][l.index := u];
  }

  /** `h` with block `p` (re)filled and record `l`, of another block, replaced. */
  function Refill(h: Blocks, p: Ptr, s: seq<Task>, l: Loc, t: Task): Blocks
    requires InBounds(h, l) && l.block != p
  {
    Put(h[p := s], l, t)
  }

  lemma RefillTwice(h: Blocks, p: Ptr, s: seq<Task>, s': seq<Task>, l: Loc, t: Task, t': Task)
    requires InBounds(h, l) && l.block != p
    ensures Refill(Refill(h, p, s, l, t), p, s', l, t') == Refill(h, p, s', l, t')
  {
    assert h[l.block][l.index := t][l.index := t'] == h[l.block][l.index := t'];
    assert Refill(Refill(h, p, s, l, t), p, s', l, t') == Refill(h, p, s', l, t');
  }

  /** Filling a block after one record was replaced, and before it is again. */
  lemma PutRefillPut(h: Blocks, l: Loc, t0: Task, p: Ptr, s: seq<Task>, t: Task, u: Task)
    requires InBounds(h, l) && l.block != p
    ensures Refill(Put(h, l, t0), p, s, l, t) == Refill(h, p, s, l, t)
    ensures Put(Refill(h, p, s, l, t), l, u) == Refill(h, p, s, l, u)
  {
    assert h[l.block][l.index := t0][l.index := t] == h[l.block][l.index := t];
    assert h[l.block][l.index := t][l.index := u] == h[l.block][l.index := u];
    assert Refill(Put(h, l, t0), p, s, l, t) == Refill(h, p, s, l, t);
    assert Put(Refill(h, p, s, l, t), l, u) == Refill(h, p, s, l, u);
  }

  class Heap {
    var blocks: Blocks
    var next: Ptr

    ghost predicate Valid()
      reads this
    {
      NULL < next && forall p | p in blocks :: NULL < p < next
    }

    constructor ()
      ensures Valid() && blocks == map[]
    {
      blocks := map[];
      next := 1;
    }

    /** `ok` says whether the allocation succeeds. Nothing is promised about the
        contents of the new block. */
    method Malloc(n: nat, ok: bool) returns (p: Ptr)
      requires Valid()
      modifies this
      ensures Valid()
      ensures p != NULL <==> ok
      ensures ok ==> p !in old(blocks) && p in blocks && |blocks[p]| == n
      ensures ok ==> blocks == old(blocks)[p := blocks[p]]
      ensures !ok ==> blocks == old(blocks)
    {
      p := NULL;
      if ok {
        p := next;
        next := next + 1;
        blocks := blocks[p := seq(n, _ => ZERO_TASK)];
      }
    }

    method Free(p: Ptr)
      requires Valid()
      requires p == NULL || p in blocks
      modifies this
      ensures Valid()
      ensures blocks == old(blocks) - {p}
    {
      blocks := blocks - {p};
    }

    /** memcpy of the first n records of a block; n may be 0 with no source. */
    method Copy(dst: Ptr, src: Ptr, n: nat)
      requires Valid() && dst in blocks && n <= |blocks[dst]|
      requires n > 0 ==> src in blocks && n <= |blocks[src]|
      modifies this
      ensures Valid()
      ensures blocks == old(blocks)[dst := (if n == 0 then [] else old(blocks)[src][..n]) + old(blocks)[dst][n..]]
    {
      blocks := blocks[dst := (if n == 0 then [] else blocks[src][..n]) + blocks[dst][n..]];
    }

    /** memset(.., 0, ..) of a whole block. */
    method Clear(p: Ptr)
      requires Valid() && p in blocks
      modifies this
      ensures Valid()
      ensures blocks == old(blocks)[p := Repeat(ZERO_TASK, |old(blocks)[p]|)]
    {
      blocks := blocks[p := Repeat(ZERO_TASK, |blocks[p]|)];
    }

    method Write(l: Loc, t: Task)
      requires Valid() && InBounds(blocks, l)
      modifies this
      ensures Valid()
      ensures blocks == Put(old(blocks), l, t)
    {
      blocks := Put(blocks, l, t);
    }
  }
}
