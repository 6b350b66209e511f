/** Byte order on strings, and the sorted listing of a finite set of keys. */
module Ordering {
  predicate Le(a: string, b: string) {
    a == [] || (b != [] && (a[0] < b[0] || (a[0] == b[0] && Le(a[1..], b[1..]))))
  }

  lemma {:induction false} LeTotal(a: string, b: string)
    ensures Le(a, b) || Le(b, a)
  {
    if a != [] && b != [] && a[0] == b[0] { LeTotal(a[1..], b[1..]); }
  }

  lemma {:induction false} LeAntisymmetric(a: string, b: string)
    requires Le(a, b) && Le(b, a)
    ensures a == b
  {
    if a != [] {
      LeAntisymmetric(a[1..], b[1..]);
      assert a == [a[0]] + a[1..] && b == [b[0]] + b[1..];
    }
  }

  lemma {:induction false} LeTransitive(a: string, b: string, c: string)
    requires Le(a, b) && Le(b, c)
    ensures Le(a, c)
  {
    if a != [] && a[0] == b[0] == c[0] { LeTransitive(a[1..], b[1..], c[1..]); }
  }

  lemma {:induction false} LeastExists(s: set<string>) returns (k: string)
    requires s != {}
    ensures k in s && forall x :: x in s ==> Le(k, x)
  {
    var a :| a in s;
    var rest := s - {a};
    LeTotal(a, a);
    if rest == {} {
      assert s == {a};
      k := a;
    } else {
      var m := LeastExists(rest);
      LeTotal(a, m);
      k := if Le(a, m) then a else m;
      forall x | x in s ensures Le(k, x) {
        if x != a && Le(a, m) { LeTransitive(a, m, x); }
      }
    }
  }

  ghost predicate IsLeast(s: set<string>, k: string) {
    k in s && forall x :: x in s ==> Le(k, x)
  }

  ghost function Least(s: set<string>): (k: string)
    requires s != {}
    ensures IsLeast(s, k)
  {
    assert exists k :: IsLeast(s, k) by { var k := LeastExists(s); assert IsLeast(s, k); }
    var k :| IsLeast(s, k);
    k
  }

  predicate Sorted(ks: seq<string>) {
    forall i, j :: 0 <= i < j < |ks| ==> Le(ks[i], ks[j]) && ks[i] != ks[j]
  }

  /** The keys in byte order, each once. */
  ghost function SortedKeys(s: set<string>): (ks: seq<string>)
    ensures Sorted(ks) && |ks| == |s| && forall k :: k in ks <==> k in s
    decreases |s|
  {
    if s == {} then [] else
      var k, rest := Least(s), SortedKeys(s - {Least(s)});
      assert forall i :: 0 <= i < |rest| ==> rest[i] in rest;
      [k] + rest
  }

  /** Keys have one sorted listing only. */
  lemma {:induction false} OneListing(xs: seq<string>, ys: seq<string>)
    requires Sorted(xs) && Sorted(ys) && forall k :: k in xs <==> k in ys
    ensures xs == ys
  {
    var head := if ys == [] then "" else ys[0];
    assert ys != [] ==> head in ys;
    if xs != [] {
      assert xs[0] in xs;
      assert ys != [] && ys[0] in ys;
      HeadIsLeast(xs, ys[0]);
      HeadIsLeast(ys, xs[0]);
      LeAntisymmetric(xs[0], ys[0]);
      TailElements(xs);
      TailElements(ys);
      OneListing(xs[1..], ys[1..]);
      assert xs == [xs[0]] + xs[1..] && ys == [ys[0]] + ys[1..];
    }
  }

  lemma HeadIsLeast(xs: seq<string>, k: string)
    requires Sorted(xs) && k in xs
    ensures Le(xs[0], k)
  {
    hide Le;
    LeReflexive(k);
    var i :| 0 <= i < |xs| && xs[i] == k;
  }

  lemma LeReflexive(a: string)
    ensures Le(a, a)
  {
    LeTotal(a, a);
  }

  lemma TailElements(xs: seq<string>)
    requires Sorted(xs) && xs != []
    ensures Sorted(xs[1..]) && forall k :: k in xs[1..] <==> k in xs && k != xs[0]
  {
    hide Le;
    var rest := xs[1..];
    assert xs == [xs[0]] + rest;
    forall i, j | 0 <= i < j < |rest| ensures Le(rest[i], rest[j]) && rest[i] != rest[j] {
      assert rest[i] == xs[i + 1] && rest[j] == xs[j + 1];
    }
    forall k | k in rest ensures k != xs[0] {
      var i :| 0 <= i < |rest| && rest[i] == k;
      assert xs[i + 1] == k;
    }
  }

  // ----- sorting in any order of arrival -----

  method InsertKey(ks: seq<string>, k: string) returns (out: seq<string>)
    requires Sorted(ks) && k !in ks
    ensures Sorted(out) && forall x :: x in out <==> x in ks || x == k
  {
    hide Le;
    var i := |ks|;
    while i > 0 && !Le(ks[i - 1], k)
      invariant 0 <= i <= |ks| && forall j :: i <= j < |ks| ==> Le(k, ks[j])
    {
      LeTotal(ks[i - 1], k);
      i := i - 1;
    }
    Inserted(ks, k, i);
    out := ks[..i] + [k] + ks[i..];
  }

  lemma Inserted(ks: seq<string>, k: string, i: nat)
    requires Sorted(ks) && k !in ks && i <= |ks|
    requires (i > 0 ==> Le(ks[i - 1], k)) && forall j :: i <= j < |ks| ==> Le(k, ks[j])
    ensures var out := ks[..i] + [k] + ks[i..]; Sorted(out) && forall x :: x in out <==> x in ks || x == k
  {
    hide Le;
    InsertedElements(ks, k, i);
    var out := ks[..i] + [k] + ks[i..];
    forall j | 0 <= j < i ensures Le(ks[j], k) {
      if j < i - 1 { LeTransitive(ks[j], ks[i - 1], k); }
    }
    forall a, b | 0 <= a < b < |out| ensures Le(out[a], out[b]) && out[a] != out[b] {
      InsertedAt(ks, k, i, a);
      InsertedAt(ks, k, i, b);
      assert forall x :: 0 <= x < |ks| ==> ks[x] in ks;
    }
  }

  lemma InsertedAt(ks: seq<string>, k: string, i: nat, a: nat)
    requires i <= |ks| && a <= |ks|
    ensures (ks[..i] + [k] + ks[i..])[a] == if a < i then ks[a] else if a == i then k else ks[a - 1]
  { }

  lemma InsertedElements(ks: seq<string>, k: string, i: nat)
    requires i <= |ks|
    ensures forall x :: x in ks[..i] + [k] + ks[i..] <==> x in ks || x == k
  {
    assert ks == ks[..i] + ks[i..];
  }

  /** The keys of a set, taken in any order, are put into the one sorted listing. */
  method SortKeys(s: set<string>) returns (ks: seq<string>)
    ensures ks == SortedKeys(s)
  {
    hide Sorted;
    ks := [];
    var todo := s;
    NothingSorted();
    while todo != {}
      invariant todo <= s && Sorted(ks) && forall x :: x in ks <==> x in s - todo
      decreases |todo|
    {
      var k :| k in todo;
      ks := InsertKey(ks, k);
      todo := todo - {k};
    }
    OneListing(ks, SortedKeys(s));
  }

  lemma NothingSorted()
    ensures Sorted([])
  { }
}
