/** Grouping of near-duplicate items by union-find with minimum roots, and the split of
    whole groups into development, calibration and test.  Items are numbered in the order
    of their identifiers, so comparing numbers is comparing identifiers. */
module GroupSplits {
  type Item = nat
  type Forest = map<Item, Item>

  // ----- connected items -----

  datatype Edge = Edge(a: Item, b: Item)

  predicate Joins(es: seq<Edge>, x: Item, y: Item) { Edge(x, y) in es || Edge(y, x) in es }

  ghost predicate Path(es: seq<Edge>, p: seq<Item>) {
    |p| > 0 && forall i :: 0 < i < |p| ==> Joins(es, p[i - 1], p[i])
  }

  /** A chain of unions leads from one item to the other. */
  ghost predicate Connected(es: seq<Edge>, x: Item, y: Item) {
    exists p :: Path(es, p) && p[0] == x && p[|p| - 1] == y
  }

  lemma ConnectedSelf(es: seq<Edge>, x: Item)
    ensures Connected(es, x, x)
  {
    assert Path(es, [x]);
  }

  lemma ConnectedEdge(es: seq<Edge>, x: Item, y: Item)
    requires Joins(es, x, y)
    ensures Connected(es, x, y)
  {
    assert Path(es, [x, y]);
  }

  lemma ConnectedTransitive(es: seq<Edge>, x: Item, y: Item, z: Item)
    requires Connected(es, x, y) && Connected(es, y, z)
    ensures Connected(es, x, z)
  {
    var p :| Path(es, p) && p[0] == x && p[|p| - 1] == y;
    var q :| Path(es, q) && q[0] == y && q[|q| - 1] == z;
    var r := p + q[1..];
    forall i | 0 < i < |r| ensures Joins(es, r[i - 1], r[i]) {
      if i > |p| { assert r[i] == q[i - |p| + 1] && r[i - 1] == q[i - |p|]; }
    }
    assert Path(es, r);
  }

  lemma ConnectedSymmetric(es: seq<Edge>, x: Item, y: Item)
    requires Connected(es, x, y)
    ensures Connected(es, y, x)
  {
    var p :| Path(es, p) && p[0] == x && p[|p| - 1] == y;
    var r := seq(|p|, i requires 0 <= i < |p| => p[|p| - 1 - i]);
    assert forall i :: 0 < i < |p| ==> Joins(es, p[i - 1], p[i]);
    forall i | 0 < i < |r| ensures Joins(es, r[i - 1], r[i]) {
      assert Joins(es, p[|p| - 1 - i], p[|p| - i]);
    }
    assert Path(es, r);
  }

  lemma ConnectedGrows(es: seq<Edge>, e: Edge, x: Item, y: Item)
    requires Connected(es, x, y)
    ensures Connected(es + [e], x, y)
  {
    var p :| Path(es, p) && p[0] == x && p[|p| - 1] == y;
    assert Path(es + [e], p);
  }

  // ----- the forest -----

  /** No parent is greater than its child, so climbing ends. */
  ghost predicate Downward(m: Forest) {
    forall x :: x in m ==> m[x] in m && m[x] <= x
  }

  function Root(m: Forest, x: Item): (r: Item)
    requires Downward(m) && x in m
    ensures r in m && m[r] == r && r <= x
    decreases x
  {
    if m[x] == x then x else Root(m, m[x])
  }

  /** Two items have the same root exactly when unions connect them. */
  ghost predicate Faithful(m: Forest, es: seq<Edge>) {
    && Downward(m)
    && (forall e :: e in es ==> e.a in m && e.b in m && Root(m, e.a) == Root(m, e.b))
    && (forall x :: x in m ==> Connected(es, x, Root(m, x)))
  }

  lemma FaithfulGoesDown(m: Forest, es: seq<Edge>)
    requires Faithful(m, es)
    ensures Downward(m)
  { }

  /** Hanging root `hi` under the smaller root `lo` moves exactly the items of `hi`. */
  lemma {:induction false} LinkedRoot(m: Forest, lo: Item, hi: Item, x: Item)
    requires Downward(m) && lo in m && hi in m && m[lo] == lo && m[hi] == hi && lo <= hi && x in m
    ensures Downward(m[hi := lo])
    ensures Root(m[hi := lo], x) == if Root(m, x) == hi then lo else Root(m, x)
    decreases x
  {
    if m[x] != x { LinkedRoot(m, lo, hi, m[x]); }
  }

  predicate Ordered(lo: Item, hi: Item, r: Item, s: Item) {
    lo <= hi && ((lo == r && hi == s) || (lo == s && hi == r))
  }

  lemma LinkKeepsFaithful(m: Forest, es: seq<Edge>, a: Item, b: Item, lo: Item, hi: Item)
    requires Faithful(m, es) && a in m && b in m && Ordered(lo, hi, Root(m, a), Root(m, b))
    ensures Faithful(m[hi := lo], es + [Edge(a, b)])
  {
    hide Connected;
    var m', es' := m[hi := lo], es + [Edge(a, b)];
    LinkedRoot(m, lo, hi, a);
    LinkedRoot(m, lo, hi, b);
    forall e | e in es' ensures e.a in m' && e.b in m' && Root(m', e.a) == Root(m', e.b) {
      if e in es {
        LinkedRoot(m, lo, hi, e.a);
        LinkedRoot(m, lo, hi, e.b);
      }
    }
    RootsMeet(m, es, a, b, lo, hi);
    forall x | x in m' ensures Connected(es', x, Root(m', x)) {
      LinkedRoot(m, lo, hi, x);
      ConnectedGrows(es, Edge(a, b), x, Root(m, x));
      if Root(m, x) == hi { ConnectedTransitive(es', x, hi, lo); }
    }
  }

  lemma RootsMeet(m: Forest, es: seq<Edge>, a: Item, b: Item, lo: Item, hi: Item)
    requires Faithful(m, es) && a in m && b in m && Ordered(lo, hi, Root(m, a), Root(m, b))
    ensures Connected(es + [Edge(a, b)], hi, lo)
  {
    hide Connected;
    var es', ra, rb := es + [Edge(a, b)], Root(m, a), Root(m, b);
    ConnectedGrows(es, Edge(a, b), a, ra);
    ConnectedGrows(es, Edge(a, b), b, rb);
    ConnectedSymmetric(es', a, ra);
    ConnectedEdge(es', a, b);
    ConnectedTransitive(es', ra, a, b);
    ConnectedTransitive(es', ra, b, rb);
    ConnectedSymmetric(es', ra, rb);
  }

  lemma {:induction false} PathSameRoot(m: Forest, es: seq<Edge>, p: seq<Item>)
    requires Faithful(m, es) && Path(es, p) && p[0] in m
    ensures p[|p| - 1] in m && Root(m, p[|p| - 1]) == Root(m, p[0])
  {
    if |p| > 1 {
      var q := p[..|p| - 1];
      assert Path(es, q);
      PathSameRoot(m, es, q);
      assert Joins(es, p[|p| - 2], p[|p| - 1]);
    }
  }

  /** The root is the least item of the connected component of all unions made, and decides connection. */
  lemma RootIsMinimum(m: Forest, es: seq<Edge>, x: Item, y: Item)
    requires Faithful(m, es) && x in m
    ensures Connected(es, x, Root(m, x))
    ensures Connected(es, x, y) ==> y in m && Root(m, x) <= y
    ensures y in m ==> (Connected(es, x, y) <==> Root(m, x) == Root(m, y))
  {
    if Connected(es, x, y) {
      var p :| Path(es, p) && p[0] == x && p[|p| - 1] == y;
      PathSameRoot(m, es, p);
    }
    if y in m && Root(m, x) == Root(m, y) {
      ConnectedSymmetric(es, y, Root(m, y));
      ConnectedTransitive(es, x, Root(m, x), y);
    }
  }

  class Groups {
    var parent: Forest
    ghost var unions: seq<Edge>

    ghost predicate Valid() reads this { Faithful(parent, unions) }

    constructor (items: set<Item>)
      ensures Valid() && parent.Keys == items && unions == []
    {
      parent := map x | x in items :: x;
      unions := [];
      new;
      forall x | x in parent ensures Connected(unions, x, Root(parent, x)) { ConnectedSelf(unions, x); }
    }

    method Find(x: Item) returns (r: Item)
      requires Valid() && x in parent
      ensures r == Root(parent, x)
    {
      r := x;
      while parent[r] != r
        invariant r in parent && Root(parent, r) == Root(parent, x)
        decreases r
      {
        r := parent[r];
      }
    }

    method Union(a: Item, b: Item)
      requires Valid() && a in parent && b in parent
      modifies this
      ensures Valid() && parent.Keys == old(parent.Keys) && unions == old(unions) + [Edge(a, b)]
    {
      hide Faithful, Root;
      FaithfulGoesDown(parent, unions);
      var ra := Find(a);
      var rb := Find(b);
      var lo, hi := if ra <= rb then ra else rb, if ra <= rb then rb else ra;
      LinkKeepsFaithful(parent, unions, a, b, lo, hi);
      parent := parent[hi := lo];
      unions := unions + [Edge(a, b)];
    }
  }

  // ----- the splits -----

  datatype Split = Development | Calibration | Test

  /** What the identifier's prefix says about an item. */
  datatype Prefix = Pilot | Food | Rest

  /** The items whose root is `g`, in corpus order. */
  function Members(m: Forest, corpus: seq<Item>, g: Item): seq<Item>
    requires Downward(m) && forall x :: x in corpus ==> x in m
  {
    if corpus == [] then []
    else var rest := Members(m, corpus[..|corpus| - 1], g);
         var last := corpus[|corpus| - 1];
         if Root(m, last) == g then rest + [last] else rest
  }

  lemma {:induction false} MembersExactly(m: Forest, corpus: seq<Item>, g: Item, x: Item)
    requires Downward(m) && forall x :: x in corpus ==> x in m
    ensures x in Members(m, corpus, g) <==> x in corpus && Root(m, x) == g
  {
    if corpus != [] {
      var front, last := corpus[..|corpus| - 1], corpus[|corpus| - 1];
      assert corpus == front + [last];
      MembersExactly(m, front, g, x);
    }
  }

  /** The groups of the corpus with an item of the given prefix. */
  ghost predicate HasPrefix(m: Forest, corpus: seq<Item>, kind: Item -> Prefix, g: Item, p: Prefix)
    requires Downward(m) && forall x :: x in corpus ==> x in m
  {
    exists x :: x in corpus && Root(m, x) == g && kind(x) == p
  }

  function SplitOf(dev: set<Item>, cal: set<Item>, g: Item): Split {
    if g in dev then Development else if g in cal then Calibration else Test
  }

  /** How many corpus items have their group in `gs`. */
  function CountIn(m: Forest, corpus: seq<Item>, gs: set<Item>): nat
    requires Downward(m) && forall x :: x in corpus ==> x in m
  {
    if corpus == [] then 0
    else CountIn(m, corpus[..|corpus| - 1], gs) + if Root(m, corpus[|corpus| - 1]) in gs then 1 else 0
  }

  lemma {:induction false} CountAddsGroup(m: Forest, corpus: seq<Item>, gs: set<Item>, g: Item)
    requires Downward(m) && (forall x :: x in corpus ==> x in m) && g !in gs
    ensures CountIn(m, corpus, gs + {g}) == CountIn(m, corpus, gs) + |Members(m, corpus, g)|
  {
    if corpus != [] { CountAddsGroup(m, corpus[..|corpus| - 1], gs, g); }
  }

  lemma {:induction false} CountNothing(m: Forest, corpus: seq<Item>)
    requires Downward(m) && forall x :: x in corpus ==> x in m
    ensures CountIn(m, corpus, {}) == 0
  {
    if corpus != [] { CountNothing(m, corpus[..|corpus| - 1]); }
  }

  datatype Assignment = Assignment(dev: set<Item>, hold: set<Item>, cal: set<Item>)

  /** The groups holding an item with the given prefix. */
  method GroupsWith(m: Forest, corpus: seq<Item>, kind: Item -> Prefix, p: Prefix) returns (gs: set<Item>)
    requires Downward(m) && forall x :: x in corpus ==> x in m
    ensures forall g :: g in gs <==> HasPrefix(m, corpus, kind, g, p)
  {
    gs := {};
    for i := 0 to |corpus|
      invariant forall g :: g in gs <==> HasPrefix(m, corpus[..i], kind, g, p)
    {
      assert corpus[..i + 1] == corpus[..i] + [corpus[i]];
      ghost var before := gs;
      if kind(corpus[i]) == p { gs := gs + {Root(m, corpus[i])}; }
      forall g ensures g in gs <==> HasPrefix(m, corpus[..i + 1], kind, g, p) {
        assert HasPrefix(m, corpus[..i], kind, g, p) <==> g in before;
        assert corpus[i] in corpus[..i + 1];
      }
    }
    assert corpus[..|corpus|] == corpus;
  }

  /** The calibration groups: taken greedily in the seeded order, never past 90 items, and no
      eligible group that was left would still fit. */
  method Calibrate(m: Forest, corpus: seq<Item>, order: seq<Item>, excluded: set<Item>)
    returns (cal: set<Item>, count: nat)
    requires Downward(m) && forall x :: x in corpus ==> x in m
    requires forall i, j :: 0 <= i < j < |order| ==> order[i] != order[j]
    ensures cal <= (set g | g in order) - excluded
    ensures count == CountIn(m, corpus, cal) <= 90
    ensures forall g :: g in order && g !in excluded && g !in cal ==> count + |Members(m, corpus, g)| > 90
  {
    cal, count := {}, 0;
    CountNothing(m, corpus);
    for i := 0 to |order|
      invariant forall g :: g in cal ==> g in order[..i] && g !in excluded
      invariant count == CountIn(m, corpus, cal) <= 90
      invariant forall g :: g in order[..i] && g !in excluded && g !in cal ==> count + |Members(m, corpus, g)| > 90
    {
      var g := order[i];
      assert order[..i + 1] == order[..i] + [g];
      assert g !in cal;
      if g !in excluded && count + |Members(m, corpus, g)| <= 90 {
        CountAddsGroup(m, corpus, cal, g);
        cal := cal + {g};
        count := count + |Members(m, corpus, g)|;
      }
    }
    assert order[..|order|] == order;
  }

  /** The partition is refused if a group is both pilot and held out, or if calibration is not exactly 90 items. */
  method Assign(m: Forest, corpus: seq<Item>, kind: Item -> Prefix, order: seq<Item>) returns (ok: bool, s: Assignment)
    requires Downward(m) && forall x :: x in corpus ==> x in m
    requires forall i, j :: 0 <= i < j < |order| ==> order[i] != order[j]
    ensures forall g :: g in s.dev <==> HasPrefix(m, corpus, kind, g, Pilot)
    ensures forall g :: g in s.hold <==> HasPrefix(m, corpus, kind, g, Food)
    ensures s.cal !! s.dev + s.hold
    ensures ok <==> s.dev !! s.hold && CountIn(m, corpus, s.cal) == 90
    ensures forall g :: g in order && g !in s.dev + s.hold + s.cal ==>
              CountIn(m, corpus, s.cal) + |Members(m, corpus, g)| > 90
  {
    var dev := GroupsWith(m, corpus, kind, Pilot);
    var hold := GroupsWith(m, corpus, kind, Food);
    var cal, count := Calibrate(m, corpus, order, dev + hold);
    s := Assignment(dev, hold, cal);
    ok := dev !! hold && count == 90;
  }

  /** How many corpus items end up in a split. */
  function Share(m: Forest, corpus: seq<Item>, s: Assignment, split: Split): nat
    requires Downward(m) && forall x :: x in corpus ==> x in m
  {
    if corpus == [] then 0
    else Share(m, corpus[..|corpus| - 1], s, split)
         + if SplitOf(s.dev, s.cal, Root(m, corpus[|corpus| - 1])) == split then 1 else 0
  }

  lemma {:induction false} CalibrationShare(m: Forest, corpus: seq<Item>, s: Assignment)
    requires Downward(m) && (forall x :: x in corpus ==> x in m) && s.cal !! s.dev
    ensures Share(m, corpus, s, Calibration) == CountIn(m, corpus, s.cal)
  {
    if corpus != [] { CalibrationShare(m, corpus[..|corpus| - 1], s); }
  }

  /** Whatever the unions and the order: connected items share a split, every pilot item is in
      development, every food item in test, and exactly 90 items in calibration. */
  lemma GroupSafe(m: Forest, es: seq<Edge>, corpus: seq<Item>, kind: Item -> Prefix, s: Assignment, x: Item, y: Item)
    requires Faithful(m, es) && (forall x :: x in corpus ==> x in m) && x in corpus && y in corpus
    requires forall g :: g in s.dev <==> HasPrefix(m, corpus, kind, g, Pilot)
    requires forall g :: g in s.hold <==> HasPrefix(m, corpus, kind, g, Food)
    requires s.cal !! s.dev + s.hold && s.dev !! s.hold && CountIn(m, corpus, s.cal) == 90
    ensures Connected(es, x, y) ==> SplitOf(s.dev, s.cal, Root(m, x)) == SplitOf(s.dev, s.cal, Root(m, y))
    ensures kind(x) == Pilot ==> SplitOf(s.dev, s.cal, Root(m, x)) == Development
    ensures kind(x) == Food ==> SplitOf(s.dev, s.cal, Root(m, x)) == Test
    ensures Share(m, corpus, s, Calibration) == 90
  {
    RootIsMinimum(m, es, x, y);
    CalibrationShare(m, corpus, s);
    assert kind(x) == Pilot ==> HasPrefix(m, corpus, kind, Root(m, x), Pilot);
    assert kind(x) == Food ==> HasPrefix(m, corpus, kind, Root(m, x), Food);
  }
}
