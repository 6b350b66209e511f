/** Key order in canonical JSON: an encoder that meets keys in any order writes the one sorted text, a text is
    its own canonical form exactly when its keys are in order, and two texts have the same canonical form exactly
    when they are reorderings of each other at every level. */
module JsonOrder {
  import opened Options
  import opened Ordering
  import opened CanonicalJson

  // ----- the encoder -----

  /** Writes a value, sorting the keys of each object as the map hands them out. */
  method Encode(j: Json) returns (ts: seq<Token>)
    ensures ts == Print(j)
    decreases j, 1, 0
  {
    PrintShape(j);
    hide Ordered, Tokens, SortedKeys, OrderedItems, ItemTokens, MemberTokens;
    if j.Leaf? {
      ts := [Atom(j.value)];
    } else if j.Arr? {
      var body := EncodeItems(j.items);
      ts := [BeginArray] + body + [EndArray];
    } else {
      var ks := SortKeys(j.fields.Keys);
      var body := EncodeMembers(ks, j);
      ts := [BeginObject] + body + [EndObject];
    }
  }

  lemma PrintShape(j: Json)
    ensures j.Leaf? ==> Print(j) == [Atom(j.value)]
    ensures j.Arr? ==> Print(j) == [BeginArray] + ItemTokens(OrderedItems(j.items)) + [EndArray]
    ensures j.Obj? ==>
              Print(j) == [BeginObject] + MemberTokens(SortedMembers(SortedKeys(j.fields.Keys), j)) + [EndObject]
  {
    hide OrderedItems, ItemTokens, MemberTokens, SortedMembers, SortedKeys;
  }

  method EncodeItems(items: seq<Json>) returns (ts: seq<Token>)
    ensures ts == ItemTokens(OrderedItems(items))
    decreases items, 0, 0
  {
    if items == [] { return []; }
    var first := Encode(items[0]);
    var rest := EncodeItems(items[1..]);
    ts := first + rest;
  }

  method EncodeMembers(ks: seq<string>, j: Json) returns (ts: seq<Token>)
    requires j.Obj? && forall k :: k in ks ==> k in j.fields
    ensures ts == MemberTokens(SortedMembers(ks, j))
    decreases j, 0, |ks|
  {
    if ks == [] { return []; }
    var first := Encode(j.fields[ks[0]]);
    var rest := EncodeMembers(ks[1..], j);
    ts := [Atom(Str(ks[0]))] + first + rest;
  }

  // ----- different trees are written differently -----

  lemma {:induction false} TokensDetermine(t: Tree, u: Tree, r: seq<Token>, q: seq<Token>)
    requires Tokens(t) + r == Tokens(u) + q
    ensures t == u && r == q
    decreases t, 1
  {
    hide ItemTokens, MemberTokens;
    assert (Tokens(t) + r)[0] == Tokens(t)[0] && (Tokens(u) + q)[0] == Tokens(u)[0];
    assert t.Scalar? <==> u.Scalar?;
    assert t.List? <==> u.List?;
    match t
    case Scalar(_) => assert (Tokens(t) + r)[1..] == r && (Tokens(u) + q)[1..] == q;
    case List(xs) =>
      assert (Tokens(t) + r)[1..] == ItemTokens(xs) + ([EndArray] + r);
      assert (Tokens(u) + q)[1..] == ItemTokens(u.items) + ([EndArray] + q);
      ItemTokensDetermine(xs, u.items, r, q);
    case Record(ms) =>
      assert (Tokens(t) + r)[1..] == MemberTokens(ms) + ([EndObject] + r);
      assert (Tokens(u) + q)[1..] == MemberTokens(u.members) + ([EndObject] + q);
      MemberTokensDetermine(ms, u.members, r, q);
  }

  lemma ItemTokensHead(xs: seq<Tree>, r: seq<Token>)
    ensures var ts := ItemTokens(xs) + ([EndArray] + r);
            && ts != [] && (ts[0] == EndArray <==> xs == [])
            && (xs != [] ==> ts == Tokens(xs[0]) + (ItemTokens(xs[1..]) + ([EndArray] + r)))
            && (xs == [] ==> ts[1..] == r)
  { }

  lemma {:induction false} ItemTokensDetermine(xs: seq<Tree>, ys: seq<Tree>, r: seq<Token>, q: seq<Token>)
    requires ItemTokens(xs) + ([EndArray] + r) == ItemTokens(ys) + ([EndArray] + q)
    ensures xs == ys && r == q
    decreases xs, 0
  {
    hide Tokens;
    ItemTokensHead(xs, r);
    ItemTokensHead(ys, q);
    if xs != [] {
      TokensDetermine(xs[0], ys[0], ItemTokens(xs[1..]) + ([EndArray] + r), ItemTokens(ys[1..]) + ([EndArray] + q));
      ItemTokensDetermine(xs[1..], ys[1..], r, q);
      assert xs == [xs[0]] + xs[1..] && ys == [ys[0]] + ys[1..];
    }
  }

  lemma MemberTokensHead(ms: seq<Member>, r: seq<Token>)
    ensures var ts := MemberTokens(ms) + ([EndObject] + r);
            && ts != [] && (ts[0] == EndObject <==> ms == [])
            && (ms != [] ==>
                  && ts[0] == Atom(Str(ms[0].key))
                  && ts[1..] == Tokens(ms[0].tree) + (MemberTokens(ms[1..]) + ([EndObject] + r)))
            && (ms == [] ==> ts[1..] == r)
  {
    hide Tokens, MemberTokens;
    var end := [EndObject] + r;
    if ms == [] {
      NoMembers();
      assert MemberTokens(ms) + end == end;
    } else {
      MemberTokensStep(ms, end);
      var tail := Tokens(ms[0].tree) + (MemberTokens(ms[1..]) + end);
      assert ([Atom(Str(ms[0].key))] + tail)[1..] == tail;
    }
  }

  lemma NoMembers()
    ensures MemberTokens([]) == []
  { }

  lemma {:induction false} MemberTokensDetermine(ms: seq<Member>, ns: seq<Member>, r: seq<Token>, q: seq<Token>)
    requires MemberTokens(ms) + ([EndObject] + r) == MemberTokens(ns) + ([EndObject] + q)
    ensures ms == ns && r == q
    decreases ms, 0
  {
    hide Tokens;
    MemberTokensHead(ms, r);
    MemberTokensHead(ns, q);
    if ms != [] {
      TokensDetermine(ms[0].tree, ns[0].tree, MemberTokens(ms[1..]) + ([EndObject] + r),
                      MemberTokens(ns[1..]) + ([EndObject] + q));
      MemberTokensDetermine(ms[1..], ns[1..], r, q);
      assert ms == [ms[0]] + ms[1..] && ns == [ns[0]] + ns[1..];
    }
  }

  // ----- texts whose keys are in order -----

  function KeysOf(ms: seq<Member>): (ks: seq<string>)
    ensures |ks| == |ms| && forall i :: 0 <= i < |ms| ==> ks[i] == ms[i].key
  {
    if ms == [] then [] else [ms[0].key] + KeysOf(ms[1..])
  }

  /** Every record, at every level, has its keys in byte order. */
  ghost predicate InKeyOrder(t: Tree)
    decreases t
  {
    match t
    case Scalar(_) => true
    case List(items) => forall x :: x in items ==> InKeyOrder(x)
    case Record(ms) => Sorted(KeysOf(ms)) && forall m :: m in ms ==> InKeyOrder(m.tree)
  }

  /** What the encoder writes is in order. */
  lemma {:induction false} OrderedInOrder(j: Json)
    ensures InKeyOrder(Ordered(j))
    decreases j, 1, 0
  {
    match j
    case Leaf(_) =>
    case Arr(items) => ItemsInOrder(items);
    case Obj(fields) => MembersInOrder(SortedKeys(fields.Keys), j);
  }

  lemma {:induction false} ItemsInOrder(items: seq<Json>)
    ensures forall x :: x in OrderedItems(items) ==> InKeyOrder(x)
    decreases items, 0, 0
  {
    if items != [] {
      OrderedInOrder(items[0]);
      ItemsInOrder(items[1..]);
      hide InKeyOrder;
    }
  }

  lemma {:induction false} MembersInOrder(ks: seq<string>, j: Json)
    requires j.Obj? && forall k :: k in ks ==> k in j.fields
    ensures KeysOf(SortedMembers(ks, j)) == ks && forall m :: m in SortedMembers(ks, j) ==> InKeyOrder(m.tree)
    decreases j, 0, |ks|
  {
    if ks != [] {
      OrderedInOrder(j.fields[ks[0]]);
      MembersInOrder(ks[1..], j);
      hide InKeyOrder, Ordered;
      assert ks == [ks[0]] + ks[1..];
    }
  }

  /** A text in order is the one the encoder writes for its value. */
  lemma {:induction false} InOrderIsOrdered(t: Tree)
    requires InKeyOrder(t)
    ensures Ordered(Meaning(t)) == t
    decreases t, 1
  {
    match t
    case Scalar(_) =>
    case List(items) => ItemsAreOrdered(items);
    case Record(ms) => RecordIsOrdered(ms);
  }

  lemma {:induction false} ItemsAreOrdered(items: seq<Tree>)
    requires forall x :: x in items ==> InKeyOrder(x)
    ensures OrderedItems(Meanings(items)) == items
    decreases items, 0
  {
    if items != [] {
      assert items[0] in items;
      assert items == [items[0]] + items[1..];
      InOrderIsOrdered(items[0]);
      ItemsAreOrdered(items[1..]);
      assert Meanings(items)[1..] == Meanings(items[1..]);
    }
  }

  predicate DistinctKeys(ms: seq<Member>) { forall i, j :: 0 <= i < j < |ms| ==> ms[i].key != ms[j].key }

  lemma SortedIsDistinct(ms: seq<Member>)
    requires Sorted(KeysOf(ms))
    ensures DistinctKeys(ms)
  {
    hide Le;
    forall i, j | 0 <= i < j < |ms| ensures ms[i].key != ms[j].key { assert KeysOf(ms)[i] != KeysOf(ms)[j]; }
  }

  lemma KeysAreFields(ms: seq<Member>)
    requires DistinctKeys(ms)
    ensures forall k :: k in KeysOf(ms) <==> k in Fields(ms)
  {
    hide Fields;
    forall k ensures k in KeysOf(ms) <==> k in Fields(ms) {
      FieldsAre(ms, k);
      if k in KeysOf(ms) {
        var i :| 0 <= i < |ms| && KeysOf(ms)[i] == k;
        assert ms[i] in ms;
      }
      if m :| m in ms && m.key == k {
        var i :| 0 <= i < |ms| && ms[i] == m;
        assert KeysOf(ms)[i] == k;
      }
    }
  }

  lemma {:induction false} RecordIsOrdered(ms: seq<Member>)
    requires Sorted(KeysOf(ms)) && forall m :: m in ms ==> InKeyOrder(m.tree)
    ensures Ordered(Obj(Fields(ms))) == Record(ms)
    decreases ms, 1
  {
    var j := Obj(Fields(ms));
    SortedIsDistinct(ms);
    KeysAreFields(ms);
    OneListing(SortedKeys(j.fields.Keys), KeysOf(ms));
    forall m | m in ms ensures m.key in j.fields && Ordered(j.fields[m.key]) == m.tree {
      FieldsAre(ms, m.key);
      InOrderIsOrdered(m.tree);
    }
    hide Fields;
    MembersBack(ms, j);
  }

  lemma {:induction false} MembersBack(ms: seq<Member>, j: Json)
    requires j.Obj? && forall m :: m in ms ==> m.key in j.fields && Ordered(j.fields[m.key]) == m.tree
    ensures (forall k :: k in KeysOf(ms) ==> k in j.fields) && SortedMembers(KeysOf(ms), j) == ms
    decreases ms, 0
  {
    if ms != [] {
      assert ms == [ms[0]] + ms[1..];
      assert ms[0] in ms;
      MembersBack(ms[1..], j);
      assert KeysOf(ms)[1..] == KeysOf(ms[1..]);
    }
  }

  /** An accepted text is its own canonical form if and only if its keys are in order at every level. */
  lemma CanonicalText(t: Tree)
    requires Acceptable(t, 0)
    ensures Canonical(Tokens(t)) == Some(Tokens(t)) <==> InKeyOrder(t)
  {
    hide Tokens, Ordered, Meaning, Acceptable, InKeyOrder;
    TextParses(t);
    if InKeyOrder(t) { InOrderIsOrdered(t); }
    if Tokens(Ordered(Meaning(t))) == Tokens(t) {
      TokensDetermine(Ordered(Meaning(t)), t, [], []);
      OrderedInOrder(Meaning(t));
    }
  }
}
