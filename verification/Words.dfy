/** Fixed-width C arithmetic used throughout vmtop, and finite sums.
    `u64` is the C type `unsigned long long`; its `+` and `-` wrap. */
module Words {

  const TWO64: int := 0x1_0000_0000_0000_0000
  const TWO32: int := 0x1_0000_0000

  type u64 = x: int | 0 <= x < TWO64

  function Wrap64(x: int): u64 {
    x % TWO64
  }

  function Add64(a: u64, b: u64): u64 {
    Wrap64(a + b)
  }

  function Sub64(a: u64, b: u64): u64 {
    Wrap64(a - b)
  }

  /** C division of a signed `a` by a positive count truncates towards zero. */
  function TruncDiv(a: int, b: int): int
    requires b > 0
  {
    if a >= 0 then a / b else -((-a) / b)
  }

  /** Sum of a sequence, last element added last, as the accumulation loops do. */
  function Sum(s: seq<int>): int {
    if s == [] then 0 else Sum(s[..|s| - 1]) + s[|s| - 1]
  }

  lemma WrapShift(n: int, q: int)
    ensures Wrap64(n + q * TWO64) == Wrap64(n)
  {
    var r, r' := n % TWO64, (n + q * TWO64) % TWO64;
    var k := (n + q * TWO64) / TWO64 - n / TWO64 - q;
    assert r - r' == k * TWO64;
    assert k == 0;
  }

  lemma WrapCongruence(a: int, b: int)
    ensures Wrap64(Wrap64(a) + b) == Wrap64(a + b)
    ensures Wrap64(b - Wrap64(a)) == Wrap64(b - a)
  {
    var q := a / TWO64;
    assert Wrap64(a) == a - q * TWO64;
    WrapShift(a + b, -q);
    WrapShift(b - a, q);
  }

  lemma WrapAdd(a: int, b: int, c: int, d: int)
    requires Wrap64(a) == Wrap64(c) && Wrap64(b) == Wrap64(d)
    ensures Wrap64(a + b) == Wrap64(c + d)
  {
    hide Wrap64;
    WrapCongruence(a, b);
    WrapCongruence(b, Wrap64(a));
    WrapCongruence(c, d);
    WrapCongruence(d, Wrap64(c));
  }

  lemma WrapSmall(a: int)
    ensures Wrap64(Wrap64(a)) == Wrap64(a)
    ensures 0 <= a < TWO64 ==> Wrap64(a) == a
  {
  }

  lemma DivNonNegative(a: nat, b: nat)
    requires b > 0
    ensures a / b >= 0
  {
  }

  lemma SumAppend(s: seq<int>, x: int)
    ensures Sum(s + [x]) == Sum(s) + x
  {
    assert (s + [x])[..|s|] == s;
  }

  lemma {:induction false} SumConcat(a: seq<int>, b: seq<int>)
    ensures Sum(a + b) == Sum(a) + Sum(b)
    decreases |b|
  {
    if b == [] {
      assert a + b == a;
    } else {
      var b' := b[..|b| - 1];
      assert (a + b)[..|a + b| - 1] == a + b';
      SumConcat(a, b');
    }
  }
}
