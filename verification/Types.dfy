/** The data layout of src/type.h: one `struct domain` record serves both for
    a virtual machine and for each of its threads. The per-architecture list of
    counters is an indexed table (the x86_64 branch of the headers): row 0 of the
    vcpu_stat table is the pid, rows 1 to 35 are counters, and the two
    /proc counters follow as rows 36 and 37. */
module Types {
  import opened Words

  // Rows of vcpu_stat_stab, x86_64.
  const EXIT_STATS := 30
  const STEAL := EXIT_STATS + 1
  const ST_MAX := EXIT_STATS + 2
  const VCPU_UTIME := EXIT_STATS + 3
  const VCPU_STIME := EXIT_STATS + 4
  const GTIME := EXIT_STATS + 5
  const VCPU_STAT_SIZE := EXIT_STATS + 6
  // Rows of proc_stab, placed behind the vcpu_stat rows.
  const UTIME := VCPU_STAT_SIZE
  const STIME := VCPU_STAT_SIZE + 1
  const COUNTERS := VCPU_STAT_SIZE + 2

  const DOMAIN_NAME_MAX := 256
  const BUF_SIZE := 1024
  const MAX_NODE_NUM := 16
  const MAX_VCPU_NUM := 1024

  /** Rows whose table entry has a delta function. */
  predicate HasDelta(row: nat) {
    1 <= row < COUNTERS && row != ST_MAX
  }

  /** Rows whose table entry has a sum function: only vcpu_stat rows do. */
  predicate HasSum(row: nat) {
    1 <= row < VCPU_STAT_SIZE && row != ST_MAX
  }

  function Repeat<T>(x: T, n: nat): (s: seq<T>)
    ensures |s| == n && forall i | 0 <= i < n :: s[i] == x
  {
    if n == 0 then [] else Repeat(x, n - 1) + [x]
  }

  type Counters = s: seq<u64> | |s| == COUNTERS witness Repeat<u64>(0, COUNTERS)

  const ZERO_COUNTERS: Counters := Repeat<u64>(0, COUNTERS)

  /** ISDOMAIN is the enumeration's first value, the one a cleared record has. */
  datatype TaskType = ISDOMAIN | ISVCPU | ISTHREAD

  /** A heap address; a block keeps its address for life. */
  type Ptr = nat
  const NULL: Ptr := 0

  datatype Task = Task(
    typ: TaskType,
    domainId: int,
    vmname: string,
    pid: int,
    ppid: int,
    nlwp: int,
    stat: Counters,
    delta: Counters,
    threads: Ptr,
    smpVcpus: nat)

  /** The record after memset(.., 0, ..). */
  const ZERO_TASK := Task(ISDOMAIN, 0, "", 0, 0, 0, ZERO_COUNTERS, ZERO_COUNTERS, NULL, 0)

  datatype Option<+T> = None | Some(value: T)

  /** DELTA_FUN: the increase, or the previous delta if the counter went back. */
  function Delta(newValue: u64, oldValue: u64, oldDelta: u64): u64 {
    if newValue >= oldValue then newValue - oldValue else oldDelta
  }

  /** `t` after running the delta functions of rows lo..hi against `prev`. */
  function WithDeltas(t: Task, prev: Task, lo: nat, hi: nat): Task {
    t.(delta := seq(COUNTERS, r requires 0 <= r < COUNTERS =>
      if lo <= r < hi && HasDelta(r)
      then Delta(t.stat[r], prev.stat[r], prev.delta[r])
      else t.delta[r]))
  }

  /** `d` after running the sum functions of rows below hi with `thread`. */
  function WithSums(d: Task, thread: Task, hi: nat): Task {
    d.(delta := seq(COUNTERS, r requires 0 <= r < COUNTERS =>
      if r < hi && HasSum(r) then Add64(d.delta[r], thread.delta[r]) else d.delta[r]))
  }

  /** SUM_FUN over the whole table, and then st_max. */
  function AddThread(d: Task, thread: Task): Task {
    WithSums(d, thread, VCPU_STAT_SIZE)
      .(stat := d.stat[ST_MAX := Add64(d.stat[ST_MAX], thread.stat[ST_MAX])])
  }
}
