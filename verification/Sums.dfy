/** Sums over sequences, and why the order of the elements does not matter. */
module Sums {
  function Sum<T>(xs: seq<T>, f: T -> int): int {
    if xs == [] then 0 else Sum(xs[..|xs| - 1], f) + f(xs[|xs| - 1])
  }

  lemma {:induction false} SumConcat<T>(xs: seq<T>, ys: seq<T>, f: T -> int)
    ensures Sum(xs + ys, f) == Sum(xs, f) + Sum(ys, f)
  {
    if ys == [] {
      assert xs + ys == xs;
    } else {
      assert (xs + ys)[..|xs + ys| - 1] == xs + ys[..|ys| - 1];
      SumConcat(xs, ys[..|ys| - 1], f);
    }
  }

  lemma SumOne<T>(x: T, f: T -> int)
    ensures Sum([x], f) == f(x)
  {
    assert [x][..0] == [];
  }

  lemma WithoutOne<T>(front: seq<T>, a: seq<T>, b: seq<T>, x: T)
    requires multiset(front + [x]) == multiset(a + [x] + b)
    ensures multiset(front) == multiset(a + b)
  {
    assert multiset(front + [x])[x := multiset(front)[x]] == multiset(front);
    assert multiset(a + [x] + b) == multiset(a + b) + multiset{x};
  }

  /** Equal multisets have equal sums. */
  lemma {:induction false} SumPermutes<T>(xs: seq<T>, ys: seq<T>, f: T -> int)
    requires multiset(xs) == multiset(ys)
    ensures Sum(xs, f) == Sum(ys, f)
  {
    if xs == [] {
      assert |multiset(ys)| == 0;
    } else {
      var front, x := xs[..|xs| - 1], xs[|xs| - 1];
      assert xs == front + [x];
      assert x in multiset(ys);
      var i :| 0 <= i < |ys| && ys[i] == x;
      var a, b := ys[..i], ys[i + 1..];
      assert ys == a + [x] + b;
      WithoutOne(front, a, b, x);
      SumPermutes(front, a + b, f);
      SumConcat(a + [x], b, f);
      SumConcat(a, [x], f);
      SumConcat(a, b, f);
      SumOne(x, f);
    }
  }

  /** Equal summands, one by one, have equal sums. */
  lemma {:induction false} SumPointwise<S, T>(xs: seq<S>, ys: seq<T>, f: S -> int, g: T -> int)
    requires |xs| == |ys| && forall i :: 0 <= i < |xs| ==> f(xs[i]) == g(ys[i])
    ensures Sum(xs, f) == Sum(ys, g)
  {
    if xs != [] { SumPointwise(xs[..|xs| - 1], ys[..|ys| - 1], f, g); }
  }

  lemma {:induction false} SumNonNegative<T>(xs: seq<T>, f: T -> int)
    requires forall x :: x in xs ==> f(x) >= 0
    ensures Sum(xs, f) >= 0
  {
    if xs != [] {
      assert xs[|xs| - 1] in xs;
      SumNonNegative(xs[..|xs| - 1], f);
    }
  }
}
