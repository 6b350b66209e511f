/** Reordering the members of records at every level is all that canonical form forgets. */
module JsonReorder {
  import opened Sets
  import opened CanonicalJson
  import opened JsonOrder

  /** Each of the first `n` numbers once. */
  predicate Permutes(p: seq<nat>, n: nat) {
    && |p| == n && (forall i :: 0 <= i < n ==> p[i] < n)
    && forall i, j :: 0 <= i < j < n ==> p[i] != p[j]
  }

  /** The same text up to the order of members, at every level. */
  ghost predicate Reorders(t: Tree, u: Tree)
    decreases t, 1
  {
    match t
    case Scalar(v) => u == Scalar(v)
    case List(xs) => u.List? && |u.items| == |xs| && forall i :: 0 <= i < |xs| ==> Reorders(xs[i], u.items[i])
    case Record(ms) => u.Record? && |u.members| == |ms| && exists p :: Permutes(p, |ms|) && Matched(ms, u.members, p)
  }

  /** Member `i` is written at place `p[i]` on the other side. */
  ghost predicate Matched(ms: seq<Member>, ns: seq<Member>, p: seq<nat>)
    requires |ns| == |ms| && Permutes(p, |ms|)
    decreases ms, 0
  {
    forall i :: 0 <= i < |ms| ==> ms[i].key == ns[p[i]].key && Reorders(ms[i].tree, ns[p[i]].tree)
  }

  lemma {:induction false} FieldCount(ms: seq<Member>)
    requires DistinctKeys(ms)
    ensures |Fields(ms).Keys| == |ms|
  {
    hide Meaning;
    if ms != [] {
      var rest, k := ms[1..], ms[0].key;
      RestDistinct(ms);
      FieldCount(rest);
      FieldsAre(rest, k);
      assert Fields(ms).Keys == {k} + Fields(rest).Keys;
    }
  }

  lemma RestDistinct(ms: seq<Member>)
    requires DistinctKeys(ms) && ms != []
    ensures DistinctKeys(ms[1..]) && forall m :: m in ms[1..] ==> m.key != ms[0].key
  {
    var rest := ms[1..];
    forall i, j | 0 <= i < j < |rest| ensures rest[i].key != rest[j].key { assert ms[i + 1].key != ms[j + 1].key; }
    forall m | m in rest ensures m.key != ms[0].key {
      var i :| 0 <= i < |rest| && rest[i] == m;
      assert ms[i + 1] == m;
    }
  }

  lemma FieldAt(ms: seq<Member>, i: nat)
    requires DistinctKeys(ms) && i < |ms|
    ensures ms[i].key in Fields(ms) && Fields(ms)[ms[i].key] == Meaning(ms[i].tree)
  {
    assert ms[i] in ms;
    FieldsAre(ms, ms[i].key);
  }

  lemma FieldFrom(ms: seq<Member>, k: string) returns (i: nat)
    requires DistinctKeys(ms) && k in Fields(ms)
    ensures i < |ms| && ms[i].key == k
  {
    FieldsAre(ms, k);
    var m :| m in ms && m.key == k;
    i :| 0 <= i < |ms| && ms[i] == m;
  }

  lemma AcceptableRecord(ms: seq<Member>, depth: nat)
    requires Acceptable(Record(ms), depth)
    ensures DistinctKeys(ms) && forall i :: 0 <= i < |ms| ==> Acceptable(ms[i].tree, depth + 1)
  {
    forall i | 0 <= i < |ms| ensures Acceptable(ms[i].tree, depth + 1) { assert ms[i] in ms; }
  }

  lemma {:induction false} MeaningsAt(items: seq<Tree>, i: nat)
    requires i < |items|
    ensures |Meanings(items)| == |items| && Meanings(items)[i] == Meaning(items[i])
  {
    hide Meaning;
    if |items| > 1 { MeaningsAt(items[1..], if i > 0 then i - 1 else 0); }
  }

  /** Two acceptable texts mean the same exactly when one is a reordering of the other. */
  lemma {:induction false} SameMeaning(t: Tree, u: Tree, depth: nat)
    requires Acceptable(t, depth) && Acceptable(u, depth)
    ensures Reorders(t, u) <==> Meaning(t) == Meaning(u)
    decreases t, 1
  {
    match t
    case Scalar(_) =>
    case List(xs) => if u.List? { SameList(xs, u.items, depth); }
    case Record(ms) => if u.Record? { SameRecord(ms, u.members, depth); }
  }

  lemma {:induction false} SameList(xs: seq<Tree>, ys: seq<Tree>, depth: nat)
    requires Acceptable(List(xs), depth) && Acceptable(List(ys), depth)
    ensures Reorders(List(xs), List(ys)) <==> Meanings(xs) == Meanings(ys)
    decreases xs, 0
  {
    NoMeanings(xs);
    NoMeanings(ys);
    if |xs| == |ys| {
      forall i | 0 <= i < |xs|
        ensures Reorders(xs[i], ys[i]) <==> Meaning(xs[i]) == Meaning(ys[i])
        ensures |Meanings(xs)| == |xs| && Meanings(xs)[i] == Meaning(xs[i])
        ensures |Meanings(ys)| == |ys| && Meanings(ys)[i] == Meaning(ys[i])
      {
        assert xs[i] in xs && ys[i] in ys;
        SameMeaning(xs[i], ys[i], depth + 1);
        MeaningsAt(xs, i);
        MeaningsAt(ys, i);
      }
    }
  }

  lemma NoMeanings(xs: seq<Tree>)
    ensures |Meanings(xs)| == |xs|
  {
    if xs != [] { MeaningsAt(xs, 0); }
  }

  lemma {:induction false} SameRecord(ms: seq<Member>, ns: seq<Member>, depth: nat)
    requires Acceptable(Record(ms), depth) && Acceptable(Record(ns), depth)
    ensures Reorders(Record(ms), Record(ns)) <==> Fields(ms) == Fields(ns)
    decreases ms, 0
  {
    hide Acceptable, Meaning, Fields;
    AcceptableRecord(ms, depth);
    AcceptableRecord(ns, depth);
    forall i, j | 0 <= i < |ms| && 0 <= j < |ns|
      ensures Reorders(ms[i].tree, ns[j].tree) <==> Meaning(ms[i].tree) == Meaning(ns[j].tree)
    {
      SameMeaning(ms[i].tree, ns[j].tree, depth + 1);
    }
    FieldCount(ms);
    FieldCount(ns);
    if Reorders(Record(ms), Record(ns)) {
      var p :| Permutes(p, |ms|) && Matched(ms, ns, p);
      MatchedFields(ms, ns, p);
    }
    if Fields(ms) == Fields(ns) {
      var p := Places(ms, ns);
      assert Matched(ms, ns, p);
    }
  }

  lemma MatchedFields(ms: seq<Member>, ns: seq<Member>, p: seq<nat>)
    requires DistinctKeys(ms) && DistinctKeys(ns) && |ns| == |ms| && Permutes(p, |ms|)
    requires forall i :: 0 <= i < |ms| ==> ms[i].key == ns[p[i]].key && Meaning(ms[i].tree) == Meaning(ns[p[i]].tree)
    ensures Fields(ms) == Fields(ns)
  {
    hide Meaning, Fields;
    FieldCount(ms);
    FieldCount(ns);
    forall k | k in Fields(ms) ensures k in Fields(ns) && Fields(ns)[k] == Fields(ms)[k] {
      var i := FieldFrom(ms, k);
      FieldAt(ms, i);
      FieldAt(ns, p[i]);
    }
    assert Fields(ms).Keys <= Fields(ns).Keys;
    SubsetEqual(Fields(ms).Keys, Fields(ns).Keys);
  }

  /** Where each member is found on the other side. */
  lemma Places(ms: seq<Member>, ns: seq<Member>) returns (p: seq<nat>)
    requires DistinctKeys(ms) && DistinctKeys(ns) && Fields(ms) == Fields(ns)
    ensures |ns| == |ms| && Permutes(p, |ms|)
    ensures forall i :: 0 <= i < |ms| ==> ms[i].key == ns[p[i]].key && Meaning(ms[i].tree) == Meaning(ns[p[i]].tree)
  {
    hide Meaning, Fields;
    FieldCount(ms);
    FieldCount(ns);
    p := PlacesOf(ms, ns, |ms|);
    forall i | 0 <= i < |ms| ensures Meaning(ms[i].tree) == Meaning(ns[p[i]].tree) {
      FieldAt(ms, i);
      FieldAt(ns, p[i]);
    }
    forall i, j | 0 <= i < j < |ms| ensures p[i] != p[j] { assert ms[i].key != ms[j].key; }
  }

  lemma {:induction false} PlacesOf(ms: seq<Member>, ns: seq<Member>, n: nat) returns (p: seq<nat>)
    requires DistinctKeys(ms) && DistinctKeys(ns) && Fields(ms) == Fields(ns) && n <= |ms|
    ensures |p| == n && forall i :: 0 <= i < n ==> p[i] < |ns| && ms[i].key == ns[p[i]].key
  {
    hide Fields;
    if n == 0 { return []; }
    p := PlacesOf(ms, ns, n - 1);
    FieldAt(ms, n - 1);
    var i := FieldFrom(ns, ms[n - 1].key);
    p := p + [i];
  }

  /** Two accepted texts have the same canonical form if and only if they are reorderings of each other. */
  lemma ReorderExactly(t: Tree, u: Tree)
    requires Acceptable(t, 0) && Acceptable(u, 0)
    ensures Canonical(Tokens(t)) == Canonical(Tokens(u)) <==> Reorders(t, u)
  {
    hide Acceptable, Meaning, Reorders, Tokens, Ordered;
    TextParses(t);
    TextParses(u);
    CanonicalEquality(Tokens(t), Tokens(u));
    SameMeaning(t, u, 0);
  }
}
