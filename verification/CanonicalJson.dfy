/** Canonical JSON over token streams: a bounded recursive parser that refuses duplicate keys,
    and a printer that sorts keys.  Separators and string escapes are below this level. */
module CanonicalJson {
  import opened Options
  import opened Ordering

  datatype Scalar = Null | Bool(b: bool) | Number(text: string) | Str(s: string)

  datatype Json = Leaf(value: Scalar) | Arr(items: seq<Json>) | Obj(fields: map<string, Json>)

  datatype Token = BeginObject | EndObject | BeginArray | EndArray | Atom(value: Scalar)

  const MAX_DEPTH: nat := 16
  const MAX_ITEMS: nat := 256

  // ----- the parser -----

  datatype Parsed = Failed | Value(json: Json, rest: seq<Token>)

  function ParseValue(ts: seq<Token>, depth: nat): (p: Parsed)
    ensures p.Value? ==> |p.rest| < |ts|
    decreases |ts|, 1
  {
    if depth > MAX_DEPTH || ts == [] then Failed
    else match ts[0]
         case Atom(v) => Value(Leaf(v), ts[1..])
         case BeginObject => ParseMembers(ts[1..], depth, map[])
         case BeginArray => ParseItems(ts[1..], depth, [])
         case _ => Failed
  }

  function ParseMembers(ts: seq<Token>, depth: nat, fields: map<string, Json>): (p: Parsed)
    ensures p.Value? ==> |p.rest| < |ts|
    decreases |ts|, 0
  {
    if ts == [] || ts[0] == EndArray then Failed
    else if ts[0] == EndObject then Value(Obj(fields), ts[1..])
    else if !ts[0].Atom? || !ts[0].value.Str? || ts[0].value.s in fields then Failed
    else match ParseValue(ts[1..], depth + 1)
         case Failed => Failed
         case Value(v, rest) => ParseMembers(rest, depth, fields[ts[0].value.s := v])
  }

  function ParseItems(ts: seq<Token>, depth: nat, items: seq<Json>): (p: Parsed)
    ensures p.Value? ==> |p.rest| < |ts|
    decreases |ts|, 2
  {
    if ts == [] || ts[0] == EndObject then Failed
    else if ts[0] == EndArray then Value(Arr(items), ts[1..])
    else if |items| >= MAX_ITEMS then Failed
    else match ParseValue(ts, depth + 1)
         case Failed => Failed
         case Value(v, rest) => ParseItems(rest, depth, items + [v])
  }

  // ----- the texts that are JSON -----

  /** A JSON text as written: members in their order, keys possibly repeated. */
  datatype Tree = Scalar(value: Scalar) | List(items: seq<Tree>) | Record(members: seq<Member>)
  datatype Member = Member(key: string, tree: Tree)

  function Tokens(t: Tree): (ts: seq<Token>)
    ensures ts != [] && !ts[0].EndObject? && !ts[0].EndArray?
    decreases t
  {
    match t
    case Scalar(v) => [Atom(v)]
    case List(items) => [BeginArray] + ItemTokens(items) + [EndArray]
    case Record(members) => [BeginObject] + MemberTokens(members) + [EndObject]
  }

  function ItemTokens(items: seq<Tree>): seq<Token>
    decreases items
  {
    if items == [] then [] else Tokens(items[0]) + ItemTokens(items[1..])
  }

  function MemberTokens(members: seq<Member>): seq<Token>
    decreases members
  {
    if members == [] then []
    else [Atom(Str(members[0].key))] + Tokens(members[0].tree) + MemberTokens(members[1..])
  }

  /** Within the limits, and no record at any level repeats a key. */
  ghost predicate Acceptable(t: Tree, depth: nat)
    decreases t
  {
    && depth <= MAX_DEPTH
    && match t
       case Scalar(_) => true
       case List(items) => |items| <= MAX_ITEMS && forall x :: x in items ==> Acceptable(x, depth + 1)
       case Record(members) =>
         && (forall i, j :: 0 <= i < j < |members| ==> members[i].key != members[j].key)
         && (forall m :: m in members ==> Acceptable(m.tree, depth + 1))
  }

  /** The value a text denotes; a later member of the same key would win. */
  function Meaning(t: Tree): Json
    decreases t
  {
    match t
    case Scalar(v) => Leaf(v)
    case List(items) => Arr(Meanings(items))
    case Record(members) => Obj(Fields(members))
  }

  function Meanings(items: seq<Tree>): seq<Json>
    decreases items
  {
    if items == [] then [] else [Meaning(items[0])] + Meanings(items[1..])
  }

  function Fields(members: seq<Member>): map<string, Json>
    decreases members
  {
    if members == [] then map[] else map[members[0].key := Meaning(members[0].tree)] + Fields(members[1..])
  }

  // ----- the parser accepts exactly these -----

  /** The rest of a record is acceptable after members with the given keys. */
  ghost predicate MembersFrom(ms: seq<Member>, depth: nat, seen: set<string>) {
    && (forall m :: m in ms ==> m.key !in seen && Acceptable(m.tree, depth + 1))
    && (forall i, j :: 0 <= i < j < |ms| ==> ms[i].key != ms[j].key)
  }

  lemma MembersStep(ms: seq<Member>, depth: nat, seen: set<string>)
    requires ms != []
    ensures MembersFrom(ms, depth, seen) <==>
            ms[0].key !in seen && Acceptable(ms[0].tree, depth + 1) && MembersFrom(ms[1..], depth, seen + {ms[0].key})
  {
    hide Acceptable;
    var rest := ms[1..];
    assert ms == [ms[0]] + rest;
    if MembersFrom(ms, depth, seen) {
      assert ms[0] in ms;
      forall i | 0 <= i < |rest| ensures rest[i].key != ms[0].key { assert rest[i] == ms[i + 1]; }
      forall i, j | 0 <= i < j < |rest| ensures rest[i].key != rest[j].key {
        assert ms[i + 1].key != ms[j + 1].key;
      }
    }
    if ms[0].key !in seen && Acceptable(ms[0].tree, depth + 1) && MembersFrom(rest, depth, seen + {ms[0].key}) {
      forall i, j | 0 <= i < j < |ms| ensures ms[i].key != ms[j].key {
        assert ms[j] == rest[j - 1] && rest[j - 1] in rest;
        if i > 0 { assert rest[i - 1].key != rest[j - 1].key; }
      }
    }
  }

  /** Parsing a text gives its value, if and only if it is acceptable. */
  lemma {:induction false} ParseTree(t: Tree, rest: seq<Token>, depth: nat)
    ensures ParseValue(Tokens(t) + rest, depth) == if Acceptable(t, depth) then Value(Meaning(t), rest) else Failed
    decreases t, 1
  {
    var ts := Tokens(t) + rest;
    if depth <= MAX_DEPTH {
      match t
      case Scalar(_) => assert ts[1..] == rest;
      case List(items) =>
        assert ts[1..] == ItemTokens(items) + ([EndArray] + rest);
        ParseList(items, [], rest, depth);
        assert [] + Meanings(items) == Meanings(items);
      case Record(members) =>
        assert ts[1..] == MemberTokens(members) + ([EndObject] + rest);
        ParseRecord(members, map[], rest, depth);
        assert map[] + Fields(members) == Fields(members);
    }
  }

  ghost predicate AllItems(items: seq<Tree>, depth: nat) {
    forall x :: x in items ==> Acceptable(x, depth + 1)
  }

  lemma AllItemsStep(items: seq<Tree>, depth: nat)
    requires items != []
    ensures AllItems(items, depth) <==> Acceptable(items[0], depth + 1) && AllItems(items[1..], depth)
  {
    var rest := items[1..];
    assert items == [items[0]] + rest;
    if AllItems(items, depth) {
      assert items[0] in items;
      forall x | x in rest ensures Acceptable(x, depth + 1) { assert x in items; }
    }
    if Acceptable(items[0], depth + 1) && AllItems(rest, depth) {
      forall x | x in items ensures Acceptable(x, depth + 1) { assert x == items[0] || x in rest; }
    }
  }

  ghost predicate ItemsFrom(items: seq<Tree>, depth: nat, done: nat) {
    done + |items| <= MAX_ITEMS && AllItems(items, depth)
  }

  lemma ItemsStep(items: seq<Tree>, depth: nat, done: nat)
    requires items != []
    ensures ItemsFrom(items, depth, done) <==> Acceptable(items[0], depth + 1) && ItemsFrom(items[1..], depth, done + 1)
  {
    hide AllItems, Acceptable;
    AllItemsStep(items, depth);
  }

  lemma ItemTokensStep(items: seq<Tree>, rest: seq<Token>)
    requires items != []
    ensures var tail := ItemTokens(items[1..]) + rest;
            && ItemTokens(items) + rest == Tokens(items[0]) + tail
            && (Tokens(items[0]) + tail)[0] == Tokens(items[0])[0]
  {
    hide Tokens;
  }

  lemma MeaningsStep(items: seq<Tree>, done: seq<Json>)
    requires items != []
    ensures done + Meanings(items) == done + [Meaning(items[0])] + Meanings(items[1..])
  {
    hide Meaning;
  }

  lemma {:induction false} ParseList(items: seq<Tree>, done: seq<Json>, rest: seq<Token>, depth: nat)
    requires |done| <= MAX_ITEMS
    ensures ParseItems(ItemTokens(items) + ([EndArray] + rest), depth, done) ==
            if ItemsFrom(items, depth, |done|) then Value(Arr(done + Meanings(items)), rest) else Failed
    decreases items, 0
  {
    if items == [] {
      assert ItemTokens(items) + ([EndArray] + rest) == [EndArray] + rest && done + [] == done;
    } else {
      hide Acceptable, ParseValue, Tokens, ItemTokens, Meaning, Meanings, AllItems;
      var end := [EndArray] + rest;
      ItemTokensStep(items, end);
      ParseTree(items[0], ItemTokens(items[1..]) + end, depth + 1);
      ItemsStep(items, depth, |done|);
      MeaningsStep(items, done);
      if |done| < MAX_ITEMS && Acceptable(items[0], depth + 1) {
        ParseList(items[1..], done + [Meaning(items[0])], rest, depth);
      }
    }
  }

  lemma MemberTokensStep(ms: seq<Member>, rest: seq<Token>)
    requires ms != []
    ensures MemberTokens(ms) + rest == [Atom(Str(ms[0].key))] + (Tokens(ms[0].tree) + (MemberTokens(ms[1..]) + rest))
  {
    hide Tokens;
  }

  lemma FieldsStep(ms: seq<Member>, done: map<string, Json>)
    requires ms != []
    ensures done + Fields(ms) == done[ms[0].key := Meaning(ms[0].tree)] + Fields(ms[1..])
    ensures done[ms[0].key := Meaning(ms[0].tree)].Keys == done.Keys + {ms[0].key}
  {
    hide Meaning;
  }

  lemma {:induction false} ParseRecord(ms: seq<Member>, done: map<string, Json>, rest: seq<Token>, depth: nat)
    ensures ParseMembers(MemberTokens(ms) + ([EndObject] + rest), depth, done) ==
            if MembersFrom(ms, depth, done.Keys) then Value(Obj(done + Fields(ms)), rest) else Failed
    decreases ms, 0
  {
    if ms == [] {
      assert MemberTokens(ms) + ([EndObject] + rest) == [EndObject] + rest && done + map[] == done;
    } else {
      hide Acceptable, MembersFrom, Tokens, Meaning, MemberTokens, Fields, ParseValue;
      var k, end := ms[0].key, [EndObject] + rest;
      var tail := MemberTokens(ms[1..]) + end;
      MemberTokensStep(ms, end);
      assert ([Atom(Str(k))] + (Tokens(ms[0].tree) + tail))[1..] == Tokens(ms[0].tree) + tail;
      ParseTree(ms[0].tree, tail, depth + 1);
      MembersStep(ms, depth, done.Keys);
      FieldsStep(ms, done);
      if k !in done && Acceptable(ms[0].tree, depth + 1) {
        ParseRecord(ms[1..], done[k := Meaning(ms[0].tree)], rest, depth);
      }
    }
  }

  /** What the parser accepts is the text of an acceptable tree with that value. */
  lemma {:induction false} ParseIsSound(ts: seq<Token>, depth: nat) returns (t: Tree)
    requires ParseValue(ts, depth).Value?
    ensures var p := ParseValue(ts, depth); ts == Tokens(t) + p.rest && Acceptable(t, depth) && Meaning(t) == p.json
    decreases |ts|, 1
  {
    assert ts == [ts[0]] + ts[1..];
    match ts[0]
    case Atom(v) => t := Scalar(v);
    case BeginObject =>
      var ms := RecordIsSound(ts[1..], depth, map[]);
      t := Record(ms);
      RecordText(ms, depth, ParseValue(ts, depth).rest);
    case BeginArray =>
      var items := ListIsSound(ts[1..], depth, []);
      t := List(items);
      ListText(items, depth, ParseValue(ts, depth).rest);
  }

  lemma RecordText(ms: seq<Member>, depth: nat, rest: seq<Token>)
    requires depth <= MAX_DEPTH && MembersFrom(ms, depth, {})
    ensures Tokens(Record(ms)) + rest == [BeginObject] + (MemberTokens(ms) + ([EndObject] + rest))
    ensures Acceptable(Record(ms), depth) && Meaning(Record(ms)) == Obj(map[] + Fields(ms))
  {
    assert map[] + Fields(ms) == Fields(ms);
  }

  lemma ListText(items: seq<Tree>, depth: nat, rest: seq<Token>)
    requires depth <= MAX_DEPTH && ItemsFrom(items, depth, 0)
    ensures Tokens(List(items)) + rest == [BeginArray] + (ItemTokens(items) + ([EndArray] + rest))
    ensures Acceptable(List(items), depth) && Meaning(List(items)) == Arr([] + Meanings(items))
  {
    assert [] + Meanings(items) == Meanings(items);
  }

  lemma {:induction false} ListIsSound(ts: seq<Token>, depth: nat, done: seq<Json>) returns (items: seq<Tree>)
    requires ParseItems(ts, depth, done).Value? && |done| <= MAX_ITEMS
    ensures var p := ParseItems(ts, depth, done);
            && ts == ItemTokens(items) + ([EndArray] + p.rest)
            && ItemsFrom(items, depth, |done|)
            && p.json == Arr(done + Meanings(items))
    decreases |ts|, 2
  {
    if ts[0] == EndArray {
      items := [];
      assert done + [] == done;
    } else {
      hide Acceptable, ParseValue, Tokens, ItemTokens, Meaning, Meanings, AllItems;
      var head := ParseValue(ts, depth + 1);
      var t := ParseIsSound(ts, depth + 1);
      var tail := ListIsSound(head.rest, depth, done + [head.json]);
      items := [t] + tail;
      assert items[1..] == tail;
      ItemTokensStep(items, [EndArray] + ParseItems(ts, depth, done).rest);
      ItemsStep(items, depth, |done|);
      MeaningsStep(items, done);
    }
  }

  lemma {:induction false} RecordIsSound(ts: seq<Token>, depth: nat, done: map<string, Json>) returns (ms: seq<Member>)
    requires ParseMembers(ts, depth, done).Value?
    ensures var p := ParseMembers(ts, depth, done);
            && ts == MemberTokens(ms) + ([EndObject] + p.rest)
            && MembersFrom(ms, depth, done.Keys)
            && p.json == Obj(done + Fields(ms))
    decreases |ts|, 0
  {
    if ts[0] == EndObject {
      ms := [];
      assert done + map[] == done;
    } else {
      hide Acceptable, MembersFrom, Tokens, Meaning, MemberTokens, Fields, ParseValue;
      var k, head := ts[0].value.s, ParseValue(ts[1..], depth + 1);
      var t := ParseIsSound(ts[1..], depth + 1);
      var tail := RecordIsSound(head.rest, depth, done[k := head.json]);
      ms := [Member(k, t)] + tail;
      assert ms[1..] == tail;
      var end := [EndObject] + ParseMembers(ts, depth, done).rest;
      MemberTokensStep(ms, end);
      MembersStep(ms, depth, done.Keys);
      FieldsStep(ms, done);
      assert ts == [ts[0]] + ts[1..];
    }
  }

  // ----- the printer -----

  /** The members of an object in the given order of its keys. */
  ghost function SortedMembers(ks: seq<string>, j: Json): seq<Member>
    requires j.Obj? && forall k :: k in ks ==> k in j.fields
    decreases j, 0, |ks|
  {
    if ks == [] then []
    else [Member(ks[0], Ordered(j.fields[ks[0]]))] + SortedMembers(ks[1..], j)
  }

  ghost function OrderedItems(items: seq<Json>): seq<Tree>
    decreases items, 0, 0
  {
    if items == [] then [] else [Ordered(items[0])] + OrderedItems(items[1..])
  }

  /** The text the encoder writes. */
  ghost function Ordered(j: Json): Tree
    decreases j, 1, 0
  {
    match j
    case Leaf(v) => Scalar(v)
    case Arr(items) => List(OrderedItems(items))
    case Obj(fields) => Record(SortedMembers(SortedKeys(fields.Keys), j))
  }

  /** The value respects the limits. */
  ghost predicate Bounded(j: Json, depth: nat)
    decreases j
  {
    && depth <= MAX_DEPTH
    && match j
       case Leaf(_) => true
       case Arr(items) => |items| <= MAX_ITEMS && forall x :: x in items ==> Bounded(x, depth + 1)
       case Obj(fields) => forall k :: k in fields ==> Bounded(fields[k], depth + 1)
  }

  ghost predicate AllBounded(items: seq<Json>, depth: nat) {
    forall x :: x in items ==> Bounded(x, depth + 1)
  }

  lemma AllBoundedStep(items: seq<Json>, depth: nat)
    requires items != []
    ensures AllBounded(items, depth) <==> Bounded(items[0], depth + 1) && AllBounded(items[1..], depth)
  {
    var rest := items[1..];
    assert items == [items[0]] + rest;
    if AllBounded(items, depth) {
      assert items[0] in items;
      forall x | x in rest ensures Bounded(x, depth + 1) { assert x in items; }
    }
    if Bounded(items[0], depth + 1) && AllBounded(rest, depth) {
      forall x | x in items ensures Bounded(x, depth + 1) { assert x == items[0] || x in rest; }
    }
  }

  ghost predicate AllFields(ks: seq<string>, j: Json, depth: nat)
    requires j.Obj? && forall k :: k in ks ==> k in j.fields
  {
    forall k :: k in ks ==> Bounded(j.fields[k], depth + 1)
  }

  lemma AllFieldsStep(ks: seq<string>, j: Json, depth: nat)
    requires j.Obj? && (forall k :: k in ks ==> k in j.fields) && ks != []
    ensures AllFields(ks, j, depth) <==> Bounded(j.fields[ks[0]], depth + 1) && AllFields(ks[1..], j, depth)
  {
    var rest := ks[1..];
    assert ks == [ks[0]] + rest;
    if AllFields(ks, j, depth) {
      assert ks[0] in ks;
      forall k | k in rest ensures Bounded(j.fields[k], depth + 1) { assert k in ks; }
    }
    if Bounded(j.fields[ks[0]], depth + 1) && AllFields(rest, j, depth) {
      forall k | k in ks ensures Bounded(j.fields[k], depth + 1) { assert k == ks[0] || k in rest; }
    }
  }

  /** Ordering a value and reading it back gives the value, and the text is acceptable exactly when the value is
      bounded. */
  lemma {:induction false} OrderedMeans(j: Json, depth: nat)
    ensures Meaning(Ordered(j)) == j
    ensures Acceptable(Ordered(j), depth) <==> Bounded(j, depth)
    decreases j, 2, 0
  {
    match j
    case Leaf(_) =>
    case Arr(items) =>
      OrderedItemsMean(items, depth);
      ListAcceptable(OrderedItems(items), depth);
      ArrayBounded(j, depth);
    case Obj(_) => ObjectMeans(j, depth);
  }

  lemma {:induction false} ObjectMeans(j: Json, depth: nat)
    requires j.Obj?
    ensures Meaning(Ordered(j)) == j
    ensures Acceptable(Ordered(j), depth) <==> Bounded(j, depth)
    decreases j, 1, 0
  {
    hide Acceptable, Bounded, Ordered, Meaning, Fields, SortedMembers, SortedKeys, AllFields, MembersFrom, Le;
    var ks := SortedKeys(j.fields.Keys);
    KeysInOrder(ks, j);
    ObjectShape(j);
    var ms := SortedMembers(ks, j);
    SortedMembersMean(ks, j, depth);
    ObjectBounded(ks, j, depth);
    RecordAcceptable(ms, depth);
    assert Restricted(ks, j) == j.fields;
  }

  lemma ObjectShape(j: Json)
    requires j.Obj?
    ensures var ms := SortedMembers(SortedKeys(j.fields.Keys), j);
            Ordered(j) == Record(ms) && Meaning(Record(ms)) == Obj(Fields(ms))
  {
    hide SortedMembers, SortedKeys, Fields;
  }

  lemma ListAcceptable(items: seq<Tree>, depth: nat)
    ensures Acceptable(List(items), depth) <==> depth <= MAX_DEPTH && |items| <= MAX_ITEMS && AllItems(items, depth)
  {}

  lemma ArrayBounded(j: Json, depth: nat)
    requires j.Arr?
    ensures Bounded(j, depth) <==> depth <= MAX_DEPTH && |j.items| <= MAX_ITEMS && AllBounded(j.items, depth)
  {}

  lemma ObjectBounded(ks: seq<string>, j: Json, depth: nat)
    requires j.Obj? && (forall k :: k in ks <==> k in j.fields)
    ensures Bounded(j, depth) <==> depth <= MAX_DEPTH && AllFields(ks, j, depth)
  {}

  lemma RecordAcceptable(ms: seq<Member>, depth: nat)
    requires forall i, j :: 0 <= i < j < |ms| ==> ms[i].key != ms[j].key
    ensures Acceptable(Record(ms), depth) <==> depth <= MAX_DEPTH && MembersFrom(ms, depth, {})
  {}

  lemma {:induction false} OrderedItemsMean(items: seq<Json>, depth: nat)
    ensures Meanings(OrderedItems(items)) == items && |OrderedItems(items)| == |items|
    ensures AllItems(OrderedItems(items), depth) <==> AllBounded(items, depth)
    decreases items, 0, 0
  {
    if items != [] {
      hide Acceptable, Bounded, Ordered, Meaning, AllItems, AllBounded;
      OrderedMeans(items[0], depth + 1);
      OrderedItemsMean(items[1..], depth);
      assert OrderedItems(items)[1..] == OrderedItems(items[1..]);
      AllItemsStep(OrderedItems(items), depth);
      AllBoundedStep(items, depth);
    }
  }

  /** The members carry exactly the given keys, in the given order. */
  lemma {:induction false} KeysInOrder(ks: seq<string>, j: Json)
    requires j.Obj? && Sorted(ks) && forall k :: k in ks ==> k in j.fields
    ensures var ms := SortedMembers(ks, j);
            && |ms| == |ks| && (forall i :: 0 <= i < |ks| ==> ms[i].key == ks[i])
            && (forall i, j :: 0 <= i < j < |ms| ==> ms[i].key != ms[j].key)
    decreases |ks|
  {
    if ks != [] {
      hide Le, Ordered;
      KeysInOrder(ks[1..], j);
    }
  }

  lemma {:induction false} SortedMembersMean(ks: seq<string>, j: Json, depth: nat)
    requires j.Obj? && Sorted(ks) && forall k :: k in ks ==> k in j.fields
    ensures var ms := SortedMembers(ks, j);
            && Fields(ms) == Restricted(ks, j)
            && (MembersFrom(ms, depth, {}) <==> AllFields(ks, j, depth))
    decreases j, 0, |ks|
  {
    if ks != [] {
      var rest, ms, all := ks[1..], SortedMembers(ks[1..], j), SortedMembers(ks, j);
      assert all == [Member(ks[0], Ordered(j.fields[ks[0]]))] + ms && all[1..] == ms;
      assert Fields(all) == map[ks[0] := Meaning(Ordered(j.fields[ks[0]]))] + Fields(ms);
      hide Acceptable, Bounded, Ordered, Meaning, Le, AllFields, MembersFrom, SortedMembers, Fields, Restricted, Sorted;
      SortedTail(ks);
      KeysInOrder(rest, j);
      KeysOf(ks, j, ms);
      OrderedMeans(j.fields[ks[0]], depth + 1);
      SortedMembersMean(rest, j, depth);
      MembersStep(all, depth, {});
      AllFieldsStep(ks, j, depth);
      MembersAvoid(ms, depth, ks[0]);
      RestrictedStep(ks, j);
    }
  }

  /** The object's fields, looked up key by key. */
  ghost function Restricted(ks: seq<string>, j: Json): map<string, Json>
    requires j.Obj? && forall k :: k in ks ==> k in j.fields
  {
    map k | k in ks :: j.fields[k]
  }

  lemma RestrictedStep(ks: seq<string>, j: Json)
    requires j.Obj? && (forall k :: k in ks ==> k in j.fields) && ks != []
    ensures Restricted(ks, j) == map[ks[0] := j.fields[ks[0]]] + Restricted(ks[1..], j)
  {
    assert ks == [ks[0]] + ks[1..];
  }

  lemma SortedTail(ks: seq<string>)
    requires Sorted(ks) && ks != []
    ensures Sorted(ks[1..])
  {
    hide Le;
  }

  lemma KeysOf(ks: seq<string>, j: Json, ms: seq<Member>)
    requires Sorted(ks) && ks != [] && |ms| == |ks[1..]| && forall i :: 0 <= i < |ms| ==> ms[i].key == ks[1..][i]
    ensures forall m :: m in ms ==> m.key != ks[0]
  {
    hide Le;
  }

  /** A key that does not occur may as well have been seen. */
  lemma MembersAvoid(ms: seq<Member>, depth: nat, k: string)
    requires forall m :: m in ms ==> m.key != k
    ensures MembersFrom(ms, depth, {} + {k}) <==> MembersFrom(ms, depth, {})
  {}

  // ----- canonical form -----

  /** Parse one value with nothing after it. */
  function Parse(ts: seq<Token>): Option<Json> {
    match ParseValue(ts, 0)
    case Failed => None
    case Value(j, rest) => if rest == [] then Some(j) else None
  }

  ghost function Print(j: Json): seq<Token> { Tokens(Ordered(j)) }

  ghost function Canonical(ts: seq<Token>): Option<seq<Token>> {
    match Parse(ts)
    case None => None
    case Some(j) => Some(Print(j))
  }

  /** Printing and parsing undo each other, exactly within the limits. */
  lemma RoundTrip(j: Json)
    ensures Parse(Print(j)) == if Bounded(j, 0) then Some(j) else None
  {
    OrderedMeans(j, 0);
    ParseTree(Ordered(j), [], 0);
    assert Tokens(Ordered(j)) + [] == Tokens(Ordered(j));
  }

  /** A text parses to its value if and only if it is within the limits and repeats no key at any level. */
  lemma TextParses(t: Tree)
    ensures Parse(Tokens(t)) == if Acceptable(t, 0) then Some(Meaning(t)) else None
  {
    ParseTree(t, [], 0);
    assert Tokens(t) + [] == Tokens(t);
  }

  lemma {:induction false} AcceptableIsBounded(t: Tree, depth: nat)
    requires Acceptable(t, depth)
    ensures Bounded(Meaning(t), depth)
    decreases t
  {
    match t
    case Scalar(_) =>
    case List(items) =>
      ListAcceptable(items, depth);
      ItemsAreBounded(items, depth);
      ArrayBounded(Meaning(t), depth);
    case Record(ms) =>
      forall k | k in Fields(ms) ensures Bounded(Fields(ms)[k], depth + 1) { FieldIsBounded(ms, k, depth); }
  }

  lemma {:induction false} ItemsAreBounded(items: seq<Tree>, depth: nat)
    requires AllItems(items, depth)
    ensures |Meanings(items)| == |items| && AllBounded(Meanings(items), depth)
    decreases items
  {
    if items != [] {
      hide Acceptable, Bounded, Meaning, AllItems, AllBounded;
      AllItemsStep(items, depth);
      AcceptableIsBounded(items[0], depth + 1);
      ItemsAreBounded(items[1..], depth);
      assert Meanings(items)[1..] == Meanings(items[1..]);
      AllBoundedStep(Meanings(items), depth);
    }
  }

  lemma {:induction false} FieldIsBounded(ms: seq<Member>, k: string, depth: nat)
    requires (forall m :: m in ms ==> Acceptable(m.tree, depth + 1)) && k in Fields(ms)
    ensures Bounded(Fields(ms)[k], depth + 1)
    decreases ms
  {
    if k in Fields(ms[1..]) {
      FieldIsBounded(ms[1..], k, depth);
    } else {
      assert ms[0] in ms;
      AcceptableIsBounded(ms[0].tree, depth + 1);
    }
  }

  /** Whatever parses is bounded, so its canonical form parses to the same value. */
  lemma CanonicalParses(ts: seq<Token>)
    requires Parse(ts).Some?
    ensures Canonical(ts).Some? && Parse(Canonical(ts).value) == Parse(ts)
  {
    var t := ParseIsSound(ts, 0);
    AcceptableIsBounded(t, 0);
    RoundTrip(Parse(ts).value);
  }

  lemma CanonicalIdempotent(ts: seq<Token>)
    requires Canonical(ts).Some?
    ensures Canonical(Canonical(ts).value) == Canonical(ts)
  {
    CanonicalParses(ts);
  }

  /** Two accepted texts have the same canonical form exactly when they denote the same value. */
  lemma CanonicalEquality(xs: seq<Token>, ys: seq<Token>)
    requires Parse(xs).Some? && Parse(ys).Some?
    ensures Canonical(xs) == Canonical(ys) <==> Parse(xs) == Parse(ys)
  {
    CanonicalParses(xs);
    CanonicalParses(ys);
  }

  lemma {:induction false} FieldsAre(ms: seq<Member>, k: string)
    requires forall i, j :: 0 <= i < j < |ms| ==> ms[i].key != ms[j].key
    ensures k in Fields(ms) <==> exists m :: m in ms && m.key == k
    ensures forall m :: m in ms && m.key == k ==> k in Fields(ms) && Fields(ms)[k] == Meaning(m.tree)
  {
    if ms != [] {
      var rest := ms[1..];
      assert ms == [ms[0]] + rest;
      forall i, j | 0 <= i < j < |rest| ensures rest[i].key != rest[j].key { assert ms[i + 1].key != ms[j + 1].key; }
      forall m | m in rest ensures m.key != ms[0].key {
        var i :| 0 <= i < |rest| && rest[i] == m;
        assert ms[i + 1] == m;
      }
      FieldsAre(rest, k);
      hide Meaning;
    }
  }
}
