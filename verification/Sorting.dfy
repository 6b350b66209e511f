/** Sorting by an integer key, and what distinct keys from a range of the same size must be. */
module Sorting {
  predicate Ascending<T(!new)>(xs: seq<T>, key: T -> int) {
    forall i, j :: 0 <= i < j < |xs| ==> key(xs[i]) <= key(xs[j])
  }

  predicate DistinctBy<T(!new)>(xs: seq<T>, key: T -> int) {
    forall i, j :: 0 <= i < j < |xs| ==> key(xs[i]) != key(xs[j])
  }

  method SortBy<T(!new)>(xs: seq<T>, key: T -> int) returns (ys: seq<T>)
    ensures Ascending(ys, key) && multiset(ys) == multiset(xs) && |ys| == |xs|
  {
    ys := [];
    for i := 0 to |xs|
      invariant |ys| == i && Ascending(ys, key) && multiset(ys) == multiset(xs[..i])
    {
      assert xs[..i + 1] == xs[..i] + [xs[i]];
      ys := Insert(ys, xs[i], key);
    }
    assert xs[..|xs|] == xs;
  }

  method Insert<T(!new)>(xs: seq<T>, x: T, key: T -> int) returns (ys: seq<T>)
    requires Ascending(xs, key)
    ensures |ys| == |xs| + 1 && Ascending(ys, key) && multiset(ys) == multiset(xs) + multiset{x}
  {
    var k := |xs|;
    while k > 0 && key(xs[k - 1]) > key(x)
      invariant 0 <= k <= |xs| && forall i :: k <= i < |xs| ==> key(x) <= key(xs[i])
    {
      k := k - 1;
    }
    Inserted(xs, x, key, k);
    ys := xs[..k] + [x] + xs[k..];
  }

  lemma Inserted<T(!new)>(xs: seq<T>, x: T, key: T -> int, k: nat)
    requires k <= |xs| && Ascending(xs, key) && (k == 0 || key(xs[k - 1]) <= key(x))
    requires forall i :: k <= i < |xs| ==> key(x) <= key(xs[i])
    ensures Ascending(xs[..k] + [x] + xs[k..], key)
    ensures multiset(xs[..k] + [x] + xs[k..]) == multiset(xs) + multiset{x}
  {
    var ys := xs[..k] + [x] + xs[k..];
    forall i, j | 0 <= i < j < |ys| ensures key(ys[i]) <= key(ys[j]) {
      assert i < k ==> ys[i] == xs[i] && (i == k - 1 || key(xs[i]) <= key(xs[k - 1]));
      assert j > k ==> ys[j] == xs[j - 1];
      assert i > k ==> ys[i] == xs[i - 1];
    }
    InsertedMultiset(xs, x, k);
  }

  lemma InsertedMultiset<T>(xs: seq<T>, x: T, k: nat)
    requires k <= |xs|
    ensures multiset(xs[..k] + [x] + xs[k..]) == multiset(xs) + multiset{x}
  {
    assert xs == xs[..k] + xs[k..];
  }

  /** As many distinct keys as the range has places fill it in order. */
  lemma Consecutive<T(!new)>(xs: seq<T>, key: T -> int, low: int)
    requires Ascending(xs, key) && DistinctBy(xs, key)
    requires forall x :: x in xs ==> low <= key(x) < low + |xs|
    ensures forall i :: 0 <= i < |xs| ==> key(xs[i]) == low + i
  {
    forall i | 0 <= i < |xs| ensures key(xs[i]) == low + i {
      AtLeast(xs, key, low, i);
      AtMost(xs, key, low + |xs|, i);
    }
  }

  lemma {:induction false} AtLeast<T(!new)>(xs: seq<T>, key: T -> int, low: int, i: nat)
    requires Ascending(xs, key) && DistinctBy(xs, key) && i < |xs|
    requires forall x :: x in xs ==> low <= key(x)
    ensures low + i <= key(xs[i])
  {
    if i > 0 { AtLeast(xs, key, low, i - 1); }
  }

  lemma {:induction false} AtMost<T(!new)>(xs: seq<T>, key: T -> int, high: int, i: nat)
    requires Ascending(xs, key) && DistinctBy(xs, key) && i < |xs|
    requires forall x :: x in xs ==> key(x) < high
    ensures key(xs[i]) <= high - |xs| + i
    decreases |xs| - i
  {
    if i + 1 < |xs| { AtMost(xs, key, high, i + 1); }
  }

  predicate NoDuplicates<T(==)>(xs: seq<T>) {
    forall i, j :: 0 <= i < j < |xs| ==> xs[i] != xs[j]
  }

  lemma {:induction false} OnceEach<T>(xs: seq<T>, x: T)
    requires NoDuplicates(xs)
    ensures multiset(xs)[x] == if x in xs then 1 else 0
  {
    if xs != [] {
      var front, last := xs[..|xs| - 1], xs[|xs| - 1];
      OnceEach(front, x);
      assert xs == front + [last];
    }
  }

  /** Duplicate-free sequences of the same elements are rearrangements of each other. */
  lemma SameMultiset<T>(xs: seq<T>, ys: seq<T>)
    requires NoDuplicates(xs) && NoDuplicates(ys) && forall x :: x in xs <==> x in ys
    ensures multiset(xs) == multiset(ys)
  {
    forall x ensures multiset(xs)[x] == multiset(ys)[x] {
      OnceEach(xs, x);
      OnceEach(ys, x);
    }
  }

  lemma Twice<T>(xs: seq<T>, i: nat, j: nat)
    requires i < j < |xs| && xs[i] == xs[j]
    ensures multiset(xs)[xs[i]] >= 2
  {
    assert xs == xs[..i] + [xs[i]] + xs[i + 1..j] + [xs[j]] + xs[j + 1..];
  }

  lemma DistinctPermutes<T(!new)>(xs: seq<T>, ys: seq<T>, key: T -> int)
    requires multiset(xs) == multiset(ys) && DistinctBy(xs, key)
    ensures DistinctBy(ys, key)
  {
    forall i, j | 0 <= i < j < |ys| ensures key(ys[i]) != key(ys[j]) {
      assert ys[i] in multiset(ys) && ys[j] in multiset(ys);
      assert ys[i] in xs && ys[j] in xs;
      if ys[i] == ys[j] {
        Twice(ys, i, j);
        OnceEach(xs, ys[i]);
      }
    }
  }
}
