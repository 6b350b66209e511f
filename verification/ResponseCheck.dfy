/** The per-case response schema, and the checker that restores what its translation drops. */
module ResponseCheck {
  import opened Options
  import opened Ordering
  import opened CanonicalJson
  import opened SchemaTranslation

  datatype CaseKind = Retrieval | Extraction | Classification | Commands | OtherKind

  type Documents = map<string, string>

  function Text(s: string): Json { Leaf(Str(s)) }

  function Texts(ss: seq<string>): (js: seq<Json>)
    ensures |js| == |ss| && forall s :: Text(s) in js <==> s in ss
  {
    if ss == [] then [] else [Text(ss[0])] + Texts(ss[1..])
  }

  const LABELS: seq<string> := ["important", "observe"]
  const AUTHORITIES: seq<string> := ["owner_required", "none"]
  const INTENTS: seq<string> := [
    "stop_tree", "pause_task", "amend_prepare_only", "prepare_only", "delete_source", "restrict_scope",
    "correct_preference", "restrict_budget", "export_private", "revoke_extension", "require_evidence",
    "correct_source", "restrict_privacy", "revoke_mandate", "reconcile_only", "suspend_initiative",
    "restrict_resource", "clarify"]

  // ----- the schema of one case -----

  function StringType(): Operand { Shape(Node(map[Type := Lower(TypeName.StringType)])) }

  function OneOf(ss: seq<string>): Operand {
    Shape(Node(map[Type := Lower(TypeName.StringType), Enum := Values(Texts(ss))]))
  }

  /** An object with exactly these properties, all required. */
  function Closed(properties: map<string, Operand>, required: seq<string>): Node {
    Node(map[Type := Lower(ObjectType), Properties := Shapes(properties),
             Required := Values(Texts(required)), AdditionalProperties := Flag(false)])
  }

  predicate Admissible(docs: Documents) {
    |docs| <= 8 && forall id :: id in docs ==> id != "" && |id| <= 128 && docs[id] != "" && |docs[id]| <= 65536
  }

  ghost function IdType(docs: Documents): Operand {
    if docs == map[] then StringType() else OneOf(SortedKeys(docs.Keys))
  }

  ghost function FactNode(docs: Documents): Node {
    Closed(map["key" := StringType(), "value" := StringType(), "source_id" := IdType(docs), "quote" := StringType()],
           ["key", "value", "source_id", "quote"])
  }

  ghost function RefsNode(docs: Documents): Node {
    Node(map[Type := Lower(ArrayType), Items := IdType(docs), MaxItems := Count(|docs|)])
  }

  ghost function FactsNode(docs: Documents): Node {
    var facts := map[Type := Lower(ArrayType), Items := Shape(FactNode(docs))];
    Node(if docs == map[] then facts[MaxItems := Count(0)] else facts)
  }

  /** An object with this one property. */
  function Single(name: string, x: Operand): Node { Closed(map[name := x], [name]) }

  function CommandNode(intents: seq<string>, authorities: seq<string>): Node {
    Closed(map["intent" := OneOf(intents), "authority" := OneOf(authorities)], ["intent", "authority"])
  }

  /** Derived from all provided document keys and nothing else. */
  ghost function ResponseSchema(kind: CaseKind, docs: Documents): Option<Node> {
    if !Admissible(docs) then None
    else match kind
         case Retrieval => Some(Single("refs", Shape(RefsNode(docs))))
         case Extraction => Some(Single("facts", Shape(FactsNode(docs))))
         case Classification => Some(Single("label", OneOf(LABELS)))
         case Commands => Some(CommandNode(INTENTS, AUTHORITIES))
         case OtherKind => None
  }

  // ----- the checker -----

  datatype Verdict = Verdict(schemaError: bool, sourceFabrication: bool)

  /** Decoding into a string: null leaves the empty string, anything else but a string fails. */
  function AsString(j: Json): Option<string> {
    if j == Leaf(Null) then Some("") else if j.Leaf? && j.value.Str? then Some(j.value.s) else None
  }

  /** A strict object decode: exactly these fields, none of them null. */
  predicate Strict(v: Json, names: set<string>) {
    v.Obj? && v.fields.Keys == names && forall n :: n in names ==> v.fields[n] != Leaf(Null)
  }

  predicate StrictStrings(v: Json, names: set<string>) {
    Strict(v, names) && forall n :: n in names ==> AsString(v.fields[n]).Some?
  }

  predicate IsSubstring(s: string, body: string) {
    exists i :: 0 <= i <= |body| && s <= body[i..]
  }

  /** One extracted fact quotes one provided document. */
  predicate Witnessed(fact: Json, docs: Documents)
    requires StrictStrings(fact, {"key", "value", "source_id", "quote"})
  {
    var key, value, source, quote := AsString(fact.fields["key"]).value, AsString(fact.fields["value"]).value,
                                     AsString(fact.fields["source_id"]).value, AsString(fact.fields["quote"]).value;
    source in docs && key != "" && quote != "" && value == quote && IsSubstring(quote, docs[source])
  }

  predicate Decodable(items: seq<Json>) { forall x :: x in items ==> AsString(x).Some? }

  function Decoded(items: seq<Json>): (ss: seq<string>)
    ensures |ss| == |items| && forall k :: 0 <= k < |items| ==>
            ss[k] == (match AsString(items[k]) case Some(s) => s case None => "")
  {
    if items == [] then []
    else [match AsString(items[0]) case Some(s) => s case None => ""] + Decoded(items[1..])
  }

  predicate Distinct(ss: seq<string>) {
    forall i, j :: 0 <= i < j < |ss| ==> ss[i] != ss[j]
  }

  predicate InOrder(ss: seq<string>) {
    forall k :: 0 < k < |ss| ==> Le(ss[k - 1], ss[k])
  }

  /** Refs decode, are sorted and at most 32, and each names a provided document, once. */
  predicate CleanRefs(items: seq<Json>, docs: Documents) {
    && Decodable(items) && |items| <= ARRAY_CAP
    && var refs := Decoded(items);
       Distinct(refs) && InOrder(refs) && forall s :: s in refs ==> s in docs
  }

  predicate OrderedRefs(items: seq<Json>) { Decodable(items) && InOrder(Decoded(items)) }

  /** A list of texts in order, not too long. */
  predicate SortedRefs(items: seq<Json>) { OrderedRefs(items) && |items| <= ARRAY_CAP }

  /** A list of texts, one of which names no document or names one again. */
  predicate FabricatedRefs(items: seq<Json>, docs: Documents) {
    Decodable(items) && !(Distinct(Decoded(items)) && forall s :: s in Decoded(items) ==> s in docs)
  }

  method CheckRefs(items: seq<Json>, docs: Documents) returns (x: Verdict)
    ensures !x.schemaError && !x.sourceFabrication <==> CleanRefs(items, docs)
    ensures x.schemaError <==> !SortedRefs(items)
    ensures x.sourceFabrication <==> FabricatedRefs(items, docs)
  {
    x := Verdict(false, false);
    var refs: seq<string> := [];
    for i := 0 to |items|
      invariant |refs| == i && forall k :: 0 <= k < i ==> AsString(items[k]) == Some(refs[k])
    {
      var s := AsString(items[i]);
      if s.None? { return Verdict(true, false); }
      refs := refs + [s.value];
    }
    assert refs == Decoded(items);
    var fabricated := Fabricates(refs, docs);
    var sorted := IsSorted(refs);
    x := Verdict(!sorted || |items| > ARRAY_CAP, fabricated);
  }

  method Fabricates(refs: seq<string>, docs: Documents) returns (f: bool)
    ensures f <==> !(Distinct(refs) && forall s :: s in refs ==> s in docs)
  {
    f := false;
    var seen: set<string> := {};
    for i := 0 to |refs|
      invariant forall s :: s in seen <==> s in refs[..i]
      invariant f <==> !(Distinct(refs[..i]) && forall s :: s in refs[..i] ==> s in docs)
    {
      assert refs[..i + 1] == refs[..i] + [refs[i]];
      if refs[i] !in docs || refs[i] in seen {
        f := true;
        if refs[i] in seen {
          var j :| 0 <= j < i && refs[..i][j] == refs[i];
          assert refs[..i + 1][j] == refs[..i + 1][i];
        } else {
          assert refs[i] in refs[..i + 1];
        }
      } else if f && !Distinct(refs[..i]) {
        var a, b :| 0 <= a < b < i && refs[..i][a] == refs[..i][b];
        assert refs[..i + 1][a] == refs[..i + 1][b];
      }
      seen := seen + {refs[i]};
    }
    assert refs[..|refs|] == refs;
  }

  method IsSorted(ss: seq<string>) returns (sorted: bool)
    ensures sorted <==> InOrder(ss)
  {
    sorted := true;
    var i := 1;
    while i < |ss|
      invariant 1 <= i
      invariant forall k :: 0 < k < i && k < |ss| ==> Le(ss[k - 1], ss[k])
    {
      if !Le(ss[i - 1], ss[i]) { return false; }
      i := i + 1;
    }
  }

  const FACT: set<string> := {"key", "value", "source_id", "quote"}

  predicate CleanFact(fact: Json, docs: Documents) {
    StrictStrings(fact, FACT) && Witnessed(fact, docs)
  }

  predicate ShapedFacts(items: seq<Json>) { forall f :: f in items ==> StrictStrings(f, FACT) }

  /** A well-formed fact that its document does not contain word for word. */
  predicate FabricatedFacts(items: seq<Json>, docs: Documents) {
    exists f :: f in items && StrictStrings(f, FACT) && !Witnessed(f, docs)
  }

  method CheckFacts(items: seq<Json>, docs: Documents) returns (x: Verdict)
    ensures !x.schemaError && !x.sourceFabrication <==> |items| <= ARRAY_CAP && forall f :: f in items ==>
            CleanFact(f, docs)
    ensures x.schemaError <==> |items| > ARRAY_CAP || !ShapedFacts(items)
    ensures x.sourceFabrication <==> FabricatedFacts(items, docs)
  {
    x := Verdict(|items| > ARRAY_CAP, false);
    for i := 0 to |items|
      invariant x.schemaError <==> |items| > ARRAY_CAP || !ShapedFacts(items[..i])
      invariant x.sourceFabrication <==> FabricatedFacts(items[..i], docs)
    {
      hide StrictStrings, Witnessed;
      assert items[..i + 1] == items[..i] + [items[i]];
      if !StrictStrings(items[i], FACT) {
        x := x.(schemaError := true);
      } else if !Witnessed(items[i], docs) {
        x := x.(sourceFabrication := true);
      }
      assert items[i] in items[..i + 1];
    }
    assert items[..|items|] == items;
  }

  /** What a response with neither finding looks like. */
  predicate Clean(kind: CaseKind, docs: Documents, v: Json) {
    match kind
    case Retrieval => OneArray(v, "refs") && CleanRefs(v.fields["refs"].items, docs)
    case Extraction =>
      OneArray(v, "facts") && |v.fields["facts"].items| <= ARRAY_CAP
      && forall f :: f in v.fields["facts"].items ==> CleanFact(f, docs)
    case Classification => StrictStrings(v, {"label"}) && AsString(v.fields["label"]).value in LABELS
    case Commands =>
      StrictStrings(v, {"intent", "authority"})
      && AsString(v.fields["intent"]).value in INTENTS && AsString(v.fields["authority"]).value in AUTHORITIES
    case OtherKind => false
  }

  /** A field with this name and nothing else, holding an array. */
  predicate OneArray(v: Json, name: string) { Strict(v, {name}) && v.fields[name].Arr? }

  /** The shape finding, without a bound on arrays. */
  predicate Unshaped(kind: CaseKind, v: Json) {
    match kind
    case Retrieval => !OneArray(v, "refs") || !OrderedRefs(v.fields["refs"].items)
    case Extraction => !OneArray(v, "facts") || !ShapedFacts(v.fields["facts"].items)
    case _ => !Clean(kind, map[], v)
  }

  predicate Overlong(kind: CaseKind, v: Json) {
    match kind
    case Retrieval => OneArray(v, "refs") && |v.fields["refs"].items| > ARRAY_CAP
    case Extraction => OneArray(v, "facts") && |v.fields["facts"].items| > ARRAY_CAP
    case _ => false
  }

  /** The schema finding. */
  predicate Misshapen(kind: CaseKind, v: Json) { Unshaped(kind, v) || Overlong(kind, v) }

  /** The source finding, which only cited documents can give. */
  predicate Fabricated(kind: CaseKind, docs: Documents, v: Json) {
    match kind
    case Retrieval => OneArray(v, "refs") && FabricatedRefs(v.fields["refs"].items, docs)
    case Extraction => OneArray(v, "facts") && FabricatedFacts(v.fields["facts"].items, docs)
    case _ => false
  }

  /** A response is clean exactly when it has neither finding. */
  lemma CleanExactly(kind: CaseKind, docs: Documents, v: Json)
    ensures Clean(kind, docs, v) <==> !Misshapen(kind, v) && !Fabricated(kind, docs, v)
  {
    hide StrictStrings, Witnessed, Decodable, Decoded, InOrder, Distinct;
  }

  /** The checker on a parsed response (`None` when it is not canonical JSON) of `size` bytes. */
  method Verify(kind: CaseKind, docs: Documents, response: Option<Json>, size: nat) returns (x: Verdict)
    ensures !x.schemaError && !x.sourceFabrication <==>
            response.Some? && size <= 8192 && Clean(kind, docs, response.value)
    ensures x.schemaError <==> response.None? || size > 8192 || Misshapen(kind, response.value)
    ensures x.sourceFabrication <==> response.Some? && size <= 8192 && Fabricated(kind, docs, response.value)
  {
    hide CleanRefs, OrderedRefs, FabricatedRefs, CleanFact, ShapedFacts, FabricatedFacts;
    if response.None? || size > 8192 { return Verdict(true, false); }
    var v := response.value;
    match kind
    case Retrieval =>
      if !OneArray(v, "refs") { return Verdict(true, false); }
      x := CheckRefs(v.fields["refs"].items, docs);
    case Extraction =>
      if !OneArray(v, "facts") { return Verdict(true, false); }
      x := CheckFacts(v.fields["facts"].items, docs);
    case Classification =>
      x := Verdict(!StrictStrings(v, {"label"}) || AsString(v.fields["label"]).value !in LABELS, false);
    case Commands =>
      x := Verdict(!StrictStrings(v, {"intent", "authority"})
                   || AsString(v.fields["intent"]).value !in INTENTS
                   || AsString(v.fields["authority"]).value !in AUTHORITIES, false);
    case OtherKind => x := Verdict(true, false);
  }

  // ----- what the checker guarantees -----

  /** Distinct members of a set are no more than the set has. */
  lemma {:induction false} Pigeonhole(ss: seq<string>, s: set<string>)
    requires Distinct(ss) && forall x :: x in ss ==> x in s
    ensures |ss| <= |s|
  {
    if ss != [] {
      var front, last := ss[..|ss| - 1], ss[|ss| - 1];
      assert ss == front + [last];
      assert forall x :: x in front ==> x in s - {last};
      Pigeonhole(front, s - {last});
    }
  }

  lemma StringIsValid(v: Json)
    requires v.Leaf? && v.value.Str?
    ensures Valid(StringType().node, v) && Capped(StringType().node, v) && Restored(StringType().node, v)
  {}

  lemma MemberIsValid(ss: seq<string>, v: Json)
    requires v.Leaf? && v.value.Str? && v.value.s in ss
    ensures Valid(OneOf(ss).node, v) && Capped(OneOf(ss).node, v)
  {
    assert v == Text(v.value.s);
  }

  lemma IdIsValid(docs: Documents, v: Json)
    requires v.Leaf? && v.value.Str? && v.value.s in docs
    ensures IdType(docs).Shape? && Valid(IdType(docs).node, v) && Capped(IdType(docs).node, v)
  {
    if docs == map[] { StringIsValid(v); } else { MemberIsValid(SortedKeys(docs.Keys), v); }
  }

  /** An object is valid for a closed schema when it has exactly its properties, each valid. */
  lemma ClosedIsValid(properties: map<string, Operand>, required: seq<string>, v: Json)
    requires v.Obj? && v.fields.Keys == properties.Keys && (forall n :: n in required ==> n in v.fields)
    requires forall n :: n in properties ==>
             properties[n].Shape? && Valid(properties[n].node, v.fields[n]) && Capped(properties[n].node, v.fields[n])
    ensures Valid(Closed(properties, required), v) && Capped(Closed(properties, required), v)
  {
    var s := Closed(properties, required);
    assert s.keywords[Properties] == Shapes(properties);
    assert Declared(s) == properties.Keys;
    forall n | n in Texts(required) && n.Leaf? && n.value.Str? ensures n.value.s in v.fields {
      assert n == Text(n.value.s);
    }
  }

  lemma SingleIsValid(name: string, x: Operand, v: Json)
    requires Strict(v, {name}) && x.Shape? && Valid(x.node, v.fields[name]) && Capped(x.node, v.fields[name])
    ensures Valid(Single(name, x), v) && Capped(Single(name, x), v)
  {
    hide Valid, Capped;
    ClosedIsValid(map[name := x], [name], v);
  }

  lemma RefNamesDocument(docs: Documents, items: seq<Json>, e: Json)
    requires CleanRefs(items, docs) && e in items && "" !in docs
    ensures e.Leaf? && e.value.Str? && e.value.s in docs
  {
    var k :| 0 <= k < |items| && items[k] == e;
    assert Decoded(items)[k] in Decoded(items);
  }

  lemma RefsFit(docs: Documents, items: seq<Json>)
    requires CleanRefs(items, docs)
    ensures |items| <= |docs| && |items| <= ARRAY_CAP
  {
    Pigeonhole(Decoded(items), docs.Keys);
  }

  lemma RefsAreValid(docs: Documents, v: Json)
    requires v.Arr? && CleanRefs(v.items, docs) && "" !in docs
    ensures Valid(RefsNode(docs), v) && Capped(RefsNode(docs), v)
  {
    hide Valid, Capped, CleanRefs, IdType;
    RefsFit(docs, v.items);
    forall e | e in v.items ensures IdType(docs).Shape? && Valid(IdType(docs).node, e) && Capped(IdType(docs).node, e) {
      RefNamesDocument(docs, v.items, e);
      IdIsValid(docs, e);
    }
    IdTypeShape(docs);
    ArrayIsValid(RefsNode(docs), v, |docs|);
  }

  lemma IdTypeShape(docs: Documents)
    ensures IdType(docs).Shape?
  {}

  /** An array is valid for an array schema when it is short enough and every item is valid. */
  lemma ArrayIsValid(s: Node, v: Json, bound: nat)
    requires v.Arr? && |v.items| <= bound && |v.items| <= ARRAY_CAP
    requires s.keywords.Keys <= {Type, Items, MaxItems} && Items in s.keywords
    requires Type in s.keywords ==> s.keywords[Type] == Lower(ArrayType)
    requires MaxItems in s.keywords ==> s.keywords[MaxItems] == Count(bound)
    requires s.keywords[Items].Shape? && forall e :: e in v.items ==>
             Valid(s.keywords[Items].node, e) && Capped(s.keywords[Items].node, e)
    ensures Valid(s, v) && Capped(s, v)
  {
    forall k | k in s.keywords ensures ValidAt(s, k, v) && CappedAt(s, k, v) {
      assert k == Type || k == Items || k == MaxItems;
    }
  }

  function FactProperties(id: Operand): map<string, Operand> {
    map["key" := StringType(), "value" := StringType(), "source_id" := id, "quote" := StringType()]
  }

  lemma FactPropertiesShape(id: Operand)
    ensures FactProperties(id).Keys == FACT
    ensures forall n :: n in FACT ==> FactProperties(id)[n] == if n == "source_id" then id else StringType()
  { }

  lemma FactTexts(docs: Documents, fact: Json)
    requires CleanFact(fact, docs)
    ensures fact.Obj? && fact.fields.Keys == FACT
    ensures forall n :: n in FACT ==> fact.fields[n].Leaf? && fact.fields[n].value.Str?
  {
    forall n | n in FACT ensures fact.fields[n].Leaf? && fact.fields[n].value.Str? { }
  }

  lemma FactCites(docs: Documents, fact: Json)
    requires CleanFact(fact, docs)
    ensures "source_id" in FACT && fact.Obj? && "source_id" in fact.fields
    ensures AsString(fact.fields["source_id"]).Some? && AsString(fact.fields["source_id"]).value in docs
  { }

  lemma FactFieldIsValid(docs: Documents, fact: Json, n: string)
    requires CleanFact(fact, docs) && n in FACT
    ensures var p := FactProperties(IdType(docs));
            n in p && p[n].Shape? && Valid(p[n].node, fact.fields[n]) && Capped(p[n].node, fact.fields[n])
  {
    hide CleanFact, IdType, FactProperties;
    FactTexts(docs, fact);
    FactPropertiesShape(IdType(docs));
    if n == "source_id" {
      FactCites(docs, fact);
      IdIsValid(docs, fact.fields[n]);
    } else {
      StringIsValid(fact.fields[n]);
    }
  }

  lemma FactIsValid(docs: Documents, fact: Json)
    requires CleanFact(fact, docs)
    ensures Valid(FactNode(docs), fact) && Capped(FactNode(docs), fact)
  {
    var required, properties := ["key", "value", "source_id", "quote"], FactProperties(IdType(docs));
    assert FactNode(docs) == Closed(properties, required);
    hide CleanFact, IdType, FactNode, FactProperties, Valid, Capped, Closed;
    FactShape();
    FactTexts(docs, fact);
    FactPropertiesShape(IdType(docs));
    forall n | n in properties
      ensures properties[n].Shape? && Valid(properties[n].node, fact.fields[n])
              && Capped(properties[n].node, fact.fields[n])
    {
      FactFieldIsValid(docs, fact, n);
    }
    ClosedIsValid(properties, required, fact);
  }

  lemma FactShape()
    ensures forall n :: n in ["key", "value", "source_id", "quote"] ==> n in FACT
  {}

  lemma FactsAreValid(docs: Documents, v: Json)
    requires v.Arr? && |v.items| <= ARRAY_CAP && forall f :: f in v.items ==> CleanFact(f, docs)
    ensures Valid(FactsNode(docs), v) && Capped(FactsNode(docs), v)
  {
    hide Valid, Capped, CleanFact, FactNode;
    NoDocumentsNoFacts(docs, v.items);
    forall f | f in v.items ensures Valid(FactNode(docs), f) && Capped(FactNode(docs), f) { FactIsValid(docs, f); }
    ArrayIsValid(FactsNode(docs), v, if docs == map[] then 0 else ARRAY_CAP);
  }

  lemma NoDocumentsNoFacts(docs: Documents, items: seq<Json>)
    requires forall f :: f in items ==> CleanFact(f, docs)
    ensures docs == map[] ==> items == []
  {
    assert items != [] ==> items[0] in items;
  }

  lemma CommandIsValid(intents: seq<string>, authorities: seq<string>, v: Json)
    requires StrictStrings(v, {"intent", "authority"})
    requires AsString(v.fields["intent"]).value in intents && AsString(v.fields["authority"]).value in authorities
    ensures Valid(CommandNode(intents, authorities), v) && Capped(CommandNode(intents, authorities), v)
  {
    MemberIsValid(intents, v.fields["intent"]);
    MemberIsValid(authorities, v.fields["authority"]);
    hide Valid, Capped;
    ClosedIsValid(map["intent" := OneOf(intents), "authority" := OneOf(authorities)], ["intent", "authority"], v);
  }

  /** A response without a finding satisfies the original schema of its case, arrays capped. */
  lemma CleanIsValid(kind: CaseKind, docs: Documents, v: Json)
    requires ResponseSchema(kind, docs).Some? && Clean(kind, docs, v)
    ensures Valid(ResponseSchema(kind, docs).value, v) && Capped(ResponseSchema(kind, docs).value, v)
  {
    hide Valid, Capped, Single, RefsNode, FactsNode, CommandNode, CleanRefs, CleanFact;
    match kind
    case Retrieval =>
      RefsAreValid(docs, v.fields["refs"]);
      SingleIsValid("refs", Shape(RefsNode(docs)), v);
    case Extraction =>
      FactsAreValid(docs, v.fields["facts"]);
      SingleIsValid("facts", Shape(FactsNode(docs)), v);
    case Classification =>
      MemberIsValid(LABELS, v.fields["label"]);
      SingleIsValid("label", OneOf(LABELS), v);
    case Commands => CommandIsValid(INTENTS, AUTHORITIES, v);
  }

  lemma OneOfSupported(ss: seq<string>)
    ensures Supported(OneOf(ss).node)
  {}

  lemma StringSupported()
    ensures Supported(StringType().node)
  {}

  lemma IdTypeSupported(docs: Documents)
    ensures IdType(docs).Shape? && Supported(IdType(docs).node) && Supported(StringType().node)
  {
    hide Supported;
    StringSupported();
    OneOfSupported(SortedKeys(docs.Keys));
  }

  lemma ClosedSupported(properties: map<string, Operand>, required: seq<string>)
    requires forall n :: n in properties ==> properties[n].Shape? && Supported(properties[n].node)
    ensures Supported(Closed(properties, required))
  {}

  lemma ArraySupported(s: Node)
    requires s.keywords.Keys <= {Type, Items, MaxItems}
    requires Type in s.keywords ==> s.keywords[Type] == Lower(ArrayType)
    requires Items in s.keywords ==> s.keywords[Items].Shape? && Supported(s.keywords[Items].node)
    ensures Supported(s)
  {
    forall k | k in s.keywords ensures SupportedOperand(k, s.keywords[k]) {
      assert k == Type || k == Items || k == MaxItems;
    }
  }

  lemma FactSupported(docs: Documents)
    ensures Supported(FactNode(docs))
  {
    IdTypeSupported(docs);
    hide IdType, Supported, Closed;
    ClosedSupported(map["key" := StringType(), "value" := StringType(), "source_id" := IdType(docs), "quote" :=
                        StringType()],
                    ["key", "value", "source_id", "quote"]);
  }

  lemma SingleSupported(name: string, x: Operand)
    requires x.Shape? && Supported(x.node)
    ensures Supported(Single(name, x))
  {
    hide Supported, Closed;
    ClosedSupported(map[name := x], [name]);
  }

  lemma CommandSupported(intents: seq<string>, authorities: seq<string>)
    ensures Supported(CommandNode(intents, authorities))
  {
    OneOfSupported(intents);
    OneOfSupported(authorities);
    hide Supported, Closed;
    ClosedSupported(map["intent" := OneOf(intents), "authority" := OneOf(authorities)], ["intent", "authority"]);
  }

  lemma SchemaSupported(kind: CaseKind, docs: Documents)
    requires ResponseSchema(kind, docs).Some?
    ensures Supported(ResponseSchema(kind, docs).value)
  {
    hide Supported, Single, FactNode, IdType, CommandNode, RefsNode, FactsNode, Valid, Capped;
    match kind
    case Retrieval => RefsSupported(docs);
    case Extraction => FactsSupported(docs);
    case Classification =>
      OneOfSupported(LABELS);
      SingleSupported("label", OneOf(LABELS));
    case Commands => CommandSupported(INTENTS, AUTHORITIES);
  }

  lemma RefsSupported(docs: Documents)
    ensures Supported(Single("refs", Shape(RefsNode(docs))))
  {
    hide Supported, Single, IdType;
    IdTypeSupported(docs);
    ArraySupported(RefsNode(docs));
    SingleSupported("refs", Shape(RefsNode(docs)));
  }

  lemma FactsSupported(docs: Documents)
    ensures Supported(Single("facts", Shape(FactsNode(docs))))
  {
    hide Supported, Single, FactNode;
    FactSupported(docs);
    ArraySupported(FactsNode(docs));
    SingleSupported("facts", Shape(FactsNode(docs)));
  }

  /** The checker restores what translation dropped: a response with neither finding satisfies both
      the original schema of its case and the translated one, which always exists. */
  lemma CheckerRestores(kind: CaseKind, docs: Documents, v: Json)
    requires ResponseSchema(kind, docs).Some?
    ensures Convert(ResponseSchema(kind, docs).value).Some?
    ensures Clean(kind, docs, v) ==>
              && Valid(ResponseSchema(kind, docs).value, v)
              && ValidOpenApi(Convert(ResponseSchema(kind, docs).value).value, v)
  {
    var s := ResponseSchema(kind, docs).value;
    SchemaSupported(kind, docs);
    ConvertsExactly(s);
    if Clean(kind, docs, v) {
      CleanIsValid(kind, docs, v);
      hide Convert, Valid, ValidOpenApi, Capped, Restored;
      TranslationPreserves(s, v, Convert(s).value);
    }
  }
}
