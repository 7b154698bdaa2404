/** Sequences as multisets. */
module Multisets {

  /** A sequence around one of its elements. */
  lemma Without<T>(b: seq<T>, x: T) returns (u: seq<T>, v: seq<T>)
    requires x in multiset(b)
    ensures b == u + [x] + v && multiset(u + v) == multiset(b) - multiset{x}
  {
    var i :| 0 <= i < |b| && b[i] == x;
    u, v := b[..i], b[i + 1..];
    assert b == u + [x] + v;
  }

  /** The last element taken off. */
  lemma Last<T>(a: seq<T>) returns (init: seq<T>, x: T)
    requires a != []
    ensures a == init + [x] && |init| == |a| - 1 && multiset(init) == multiset(a) - multiset{x}
  {
    init, x := a[..|a| - 1], a[|a| - 1];
    assert a == init + [x];
  }

  lemma Empty<T>(a: seq<T>, b: seq<T>)
    requires multiset(a) == multiset(b) && a == []
    ensures b == []
  {
    assert |multiset(b)| == |b|;
  }

  lemma SameElements<T>(a: seq<T>, b: seq<T>)
    requires multiset(a) == multiset(b)
    ensures forall x :: x in a <==> x in b
  {
    forall x
      ensures x in a <==> x in b
    {
      assert x in a <==> x in multiset(a);
      assert x in b <==> x in multiset(b);
    }
  }

  /** An element moved to either end. */
  lemma ToEitherEnd<T>(u: seq<T>, x: T, v: seq<T>)
    ensures multiset(u + [x] + v) == multiset(u + v + [x]) == multiset([x] + (u + v))
  {
  }

  /** All results of f, element by element. */
  function FlatMap<X, Y>(f: X -> seq<Y>, xs: seq<X>): seq<Y> {
    if xs == [] then [] else f(xs[0]) + FlatMap(f, xs[1..])
  }

  lemma {:induction false} FlatMapConcat<X, Y>(f: X -> seq<Y>, a: seq<X>, b: seq<X>)
    ensures FlatMap(f, a + b) == FlatMap(f, a) + FlatMap(f, b)
  {
    if a == [] {
      assert a + b == b;
    } else {
      assert (a + b)[1..] == a[1..] + b;
      FlatMapConcat(f, a[1..], b);
    }
  }

  lemma FlatMapAround<X, Y>(f: X -> seq<Y>, u: seq<X>, x: X, v: seq<X>)
    ensures FlatMap(f, u + [x] + v) == FlatMap(f, u) + f(x) + FlatMap(f, v)
    ensures multiset(FlatMap(f, u + [x] + v)) == multiset(FlatMap(f, u + v)) + multiset(f(x))
  {
    FlatMapConcat(f, u + [x], v);
    FlatMapConcat(f, u, [x]);
    FlatMapConcat(f, u, v);
    assert FlatMap(f, [x]) == f(x) by { assert [x][1..] == []; }
  }

  /** The order does not matter for which results there are. */
  lemma {:induction false} FlatMapPermuted<X, Y>(f: X -> seq<Y>, a: seq<X>, b: seq<X>)
    requires multiset(a) == multiset(b)
    ensures multiset(FlatMap(f, a)) == multiset(FlatMap(f, b))
    decreases |a|
  {
    if a == [] {
      Empty(a, b);
    } else {
      var a', x := Last(a);
      var u, v := Without(b, x);
      FlatMapPermuted(f, a', u + v);
      FlatMapAround(f, a', x, []);
      FlatMapAround(f, u, x, v);
      assert a' + [x] + [] == a && a' + [] == a';
    }
  }
}
