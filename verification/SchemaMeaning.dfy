/** What the per-case response schemas ask for: a value is valid exactly when it has the described shape. */
module SchemaMeaning {
  import opened Options
  import opened Ordering
  import opened CanonicalJson
  import opened SchemaTranslation
  import opened ResponseCheck

  predicate IsText(v: Json) { v.Leaf? && v.value.Str? }

  /** A text among these. */
  predicate TextIn(v: Json, ss: seq<string>) { IsText(v) && v.value.s in ss }

  /** A text that names a given document. */
  predicate Names(v: Json, docs: Documents) { IsText(v) && v.value.s in docs }

  /** An object with exactly these names. */
  predicate Exactly(v: Json, names: set<string>) { v.Obj? && v.fields.Keys == names }

  predicate DescribedRefs(v: Json, docs: Documents) {
    v.Arr? && |v.items| <= |docs| && forall e :: e in v.items ==> Names(e, docs)
  }

  predicate DescribedFact(f: Json, docs: Documents) {
    && Exactly(f, {"key", "value", "source_id", "quote"}) && IsText(f.fields["key"]) && IsText(f.fields["value"])
    && IsText(f.fields["quote"]) && Names(f.fields["source_id"], docs)
  }

  predicate DescribedFacts(v: Json, docs: Documents) {
    v.Arr? && forall f :: f in v.items ==> DescribedFact(f, docs)
  }

  predicate DescribedCommand(v: Json) {
    && Exactly(v, {"intent", "authority"})
    && TextIn(v.fields["authority"], ["owner_required", "none"])
    && TextIn(v.fields["intent"], [
      "stop_tree", "pause_task", "amend_prepare_only", "prepare_only", "delete_source", "restrict_scope",
      "correct_preference", "restrict_budget", "export_private", "revoke_extension", "require_evidence",
      "correct_source", "restrict_privacy", "revoke_mandate", "reconcile_only", "suspend_initiative",
      "restrict_resource", "clarify"])
  }

  /** The shape of a response, kind by kind. */
  predicate Described(kind: CaseKind, docs: Documents, v: Json) {
    match kind
    case Retrieval => Exactly(v, {"refs"}) && DescribedRefs(v.fields["refs"], docs)
    case Extraction => Exactly(v, {"facts"}) && DescribedFacts(v.fields["facts"], docs)
    case Classification => Exactly(v, {"label"}) && TextIn(v.fields["label"], ["important", "observe"])
    case Commands => DescribedCommand(v)
    case OtherKind => false
  }

  lemma StringExactly(v: Json)
    ensures Valid(ResponseCheck.StringType().node, v) <==> IsText(v)
  {
    var s := ResponseCheck.StringType().node;
    assert s.keywords.Keys == {Type};
  }

  lemma OneOfExactly(ss: seq<string>, v: Json)
    ensures Valid(OneOf(ss).node, v) <==> TextIn(v, ss)
  {
    var s := OneOf(ss).node;
    assert s.keywords.Keys == {Type, Enum} && s.keywords[Enum] == Values(Texts(ss));
    if IsText(v) {
      assert v == Text(v.value.s);
      assert ValidAt(s, Enum, v) <==> v in Texts(ss);
    } else {
      assert !ValidAt(s, Type, v);
    }
  }

  /** Without documents any text is an identifier, but then no identifier can be used. */
  lemma IdExactly(docs: Documents, v: Json)
    ensures IdType(docs).Shape? && (docs != map[] ==> (Valid(IdType(docs).node, v) <==> Names(v, docs)))
  {
    hide Valid;
    if docs != map[] { OneOfExactly(SortedKeys(docs.Keys), v); }
  }

  /** A closed object schema asks for exactly its properties, each valid. */
  lemma ClosedExactly(properties: map<string, Operand>, required: seq<string>, v: Json)
    requires (forall n :: n in required <==> n in properties) && forall n :: n in properties ==> properties[n].Shape?
    ensures Valid(Closed(properties, required), v)
            <==> && Exactly(v, properties.Keys)
                 && forall n :: n in properties ==> Valid(properties[n].node, v.fields[n])
  {
    var s := Closed(properties, required);
    assert s.keywords.Keys == {Type, Properties, Required, AdditionalProperties};
    assert s.keywords[Properties] == Shapes(properties) && s.keywords[Required] == Values(Texts(required));
    assert Declared(s) == properties.Keys;
    assert Valid(s, v) <==> ValidAt(s, Type, v) && ValidAt(s, Properties, v) && ValidAt(s, Required, v)
                            && ValidAt(s, AdditionalProperties, v);
    if v.Obj? { PresentExactly(required, v); }
  }

  lemma PresentExactly(required: seq<string>, v: Json)
    requires v.Obj?
    ensures Present(Texts(required), v) <==> forall n :: n in required ==> n in v.fields
  {
    if Present(Texts(required), v) {
      forall n | n in required ensures n in v.fields { assert Text(n) in Texts(required); }
    } else {
      var x :| x in Texts(required) && x.Leaf? && x.value.Str? && x.value.s !in v.fields;
      assert x == Text(x.value.s);
    }
  }

  lemma RefsExactly(docs: Documents, v: Json)
    ensures Valid(RefsNode(docs), v) <==> DescribedRefs(v, docs)
  {
    hide Valid, IdType, Names;
    IdExactly(docs, v);
    RefsParts(docs, v);
    if v.Arr? {
      forall e | e in v.items ensures docs != map[] ==> (Valid(IdType(docs).node, e) <==> Names(e, docs)) {
        IdExactly(docs, e);
      }
    }
  }

  lemma RefsParts(docs: Documents, v: Json)
    requires IdType(docs).Shape?
    ensures Valid(RefsNode(docs), v)
            <==> v.Arr? && |v.items| <= |docs| && forall e :: e in v.items ==> Valid(IdType(docs).node, e)
  {
    hide IdType;
    var s := RefsNode(docs);
    assert s.keywords.Keys == {Type, Items, MaxItems};
    assert Valid(s, v) <==> ValidAt(s, Type, v) && ValidAt(s, Items, v) && ValidAt(s, MaxItems, v);
  }

  lemma FourExactly(a: string, b: string, c: string, d: string, text: Operand, id: Operand, v: Json)
    requires a != b && a != c && a != d && b != c && b != d && c != d && text.Shape? && id.Shape?
    ensures Valid(Closed(map[a := text, b := text, c := id, d := text], [a, b, c, d]), v)
            <==> && Exactly(v, {a, b, c, d}) && Valid(text.node, v.fields[a]) && Valid(text.node, v.fields[b])
                 && Valid(id.node, v.fields[c]) && Valid(text.node, v.fields[d])
  {
    hide Valid, Closed;
    var properties := map[a := text, b := text, c := id, d := text];
    assert properties.Keys == {a, b, c, d};
    ClosedExactly(properties, [a, b, c, d], v);
  }

  lemma FactNames()
    ensures "key" != "value" && "key" != "source_id" && "key" != "quote" && "value" != "source_id"
    ensures "value" != "quote" && "source_id" != "quote"
  {
    assert "value"[0] != "quote"[0];
  }

  lemma StringShape()
    ensures ResponseCheck.StringType().Shape?
  { }

  lemma FactExactly(docs: Documents, f: Json)
    requires docs != map[]
    ensures Valid(FactNode(docs), f) <==> DescribedFact(f, docs)
  {
    hide Valid, IdType, Names, Closed, IsText, ResponseCheck.StringType;
    StringShape();
    IdExactly(docs, f);
    FactNames();
    FourExactly("key", "value", "source_id", "quote", ResponseCheck.StringType(), IdType(docs), f);
    if Exactly(f, {"key", "value", "source_id", "quote"}) {
      IdExactly(docs, f.fields["source_id"]);
      StringExactly(f.fields["key"]);
      StringExactly(f.fields["value"]);
      StringExactly(f.fields["quote"]);
    }
  }

  lemma FactsExactly(docs: Documents, v: Json)
    ensures Valid(FactsNode(docs), v) <==> DescribedFacts(v, docs)
  {
    hide Valid, FactNode, DescribedFact;
    FactsParts(docs, v);
    if v.Arr? {
      forall f | f in v.items ensures docs != map[] ==> (Valid(FactNode(docs), f) <==> DescribedFact(f, docs)) {
        if docs != map[] { FactExactly(docs, f); }
      }
      forall f | f in v.items ensures docs == map[] ==> !DescribedFact(f, docs) { NothingCited(f); }
      assert v.items != [] ==> v.items[0] in v.items;
    }
  }

  lemma NothingCited(f: Json)
    ensures !DescribedFact(f, map[])
  { }

  lemma FactsParts(docs: Documents, v: Json)
    ensures Valid(FactsNode(docs), v)
            <==> && v.Arr? && (docs == map[] ==> v.items == [])
                 && forall f :: f in v.items ==> Valid(FactNode(docs), f)
  {
    hide FactNode;
    var s := FactsNode(docs);
    assert s.keywords.Keys == if docs == map[] then {Type, Items, MaxItems} else {Type, Items};
    assert Valid(s, v) <==> ValidAt(s, Type, v) && ValidAt(s, Items, v) && (docs == map[] ==> ValidAt(s, MaxItems, v));
  }

  lemma SingleExactly(name: string, x: Operand, v: Json)
    requires x.Shape?
    ensures Valid(Single(name, x), v) <==> Exactly(v, {name}) && Valid(x.node, v.fields[name])
  {
    hide Valid, Closed;
    ClosedExactly(map[name := x], [name], v);
  }

  lemma TwoExactly(a: string, b: string, x: Operand, y: Operand, v: Json)
    requires a != b && x.Shape? && y.Shape?
    ensures Valid(Closed(map[a := x, b := y], [a, b]), v)
            <==> Exactly(v, {a, b}) && Valid(x.node, v.fields[a]) && Valid(y.node, v.fields[b])
  {
    hide Valid, Closed;
    var properties := map[a := x, b := y];
    assert properties.Keys == {a, b};
    ClosedExactly(properties, [a, b], v);
  }

  lemma CommandParts(intents: seq<string>, authorities: seq<string>, v: Json)
    ensures Valid(CommandNode(intents, authorities), v)
            <==> && Exactly(v, {"intent", "authority"}) && TextIn(v.fields["intent"], intents)
                 && TextIn(v.fields["authority"], authorities)
  {
    hide Valid, Closed, OneOf, TextIn;
    assert OneOf(intents).Shape? && OneOf(authorities).Shape? by { OneOfShape(intents); OneOfShape(authorities); }
    TwoExactly("intent", "authority", OneOf(intents), OneOf(authorities), v);
    if Exactly(v, {"intent", "authority"}) {
      OneOfExactly(intents, v.fields["intent"]);
      OneOfExactly(authorities, v.fields["authority"]);
    }
  }

  lemma OneOfShape(ss: seq<string>)
    ensures OneOf(ss).Shape?
  { }

  lemma CommandExactly(v: Json)
    ensures Valid(CommandNode(INTENTS, AUTHORITIES), v) <==> DescribedCommand(v)
  {
    hide Valid, CommandNode, TextIn;
    CommandParts(INTENTS, AUTHORITIES, v);
  }

  /** A value satisfies the schema of its case exactly when it has the described shape: the declared names and
      no other, listed labels, intents and authorities, and every reference naming a given document. */
  lemma SchemaExactly(kind: CaseKind, docs: Documents, v: Json)
    requires ResponseSchema(kind, docs).Some?
    ensures Valid(ResponseSchema(kind, docs).value, v) <==> Described(kind, docs, v)
  {
    hide Valid, Single, RefsNode, FactsNode, CommandNode, DescribedRefs, DescribedFacts, DescribedCommand, TextIn;
    match kind
    case Retrieval =>
      SingleExactly("refs", Shape(RefsNode(docs)), v);
      if Exactly(v, {"refs"}) { RefsExactly(docs, v.fields["refs"]); }
    case Extraction =>
      SingleExactly("facts", Shape(FactsNode(docs)), v);
      if Exactly(v, {"facts"}) { FactsExactly(docs, v.fields["facts"]); }
    case Classification =>
      SingleExactly("label", OneOf(LABELS), v);
      if Exactly(v, {"label"}) { OneOfExactly(LABELS, v.fields["label"]); }
    case Commands => CommandExactly(v);
  }

  /** A case has a schema exactly when it has one of the four kinds and at most eight documents, each with an
      identifier of at most 128 bytes and a text of at most 65536, neither of them empty. */
  lemma SchemaExists(kind: CaseKind, docs: Documents)
    ensures ResponseSchema(kind, docs).Some?
            <==> && kind != OtherKind && |docs| <= 8
                 && forall id :: id in docs ==> id != "" && |id| <= 128 && docs[id] != "" && |docs[id]| <= 65536
  {
    hide Single, RefsNode, FactsNode, CommandNode, OneOf;
  }

  // ----- what the checker asks beyond the schema -----

  /** Sorted references, none of them twice. */
  predicate OrderedOnce(items: seq<Json>) {
    && (forall i, j :: 0 <= i < j < |items| ==> TextOf(items[i]) != TextOf(items[j]))
    && forall k :: 0 < k < |items| ==> Le(TextOf(items[k - 1]), TextOf(items[k]))
  }

  function TextOf(v: Json): string { if IsText(v) then v.value.s else "" }

  /** The fact has a name, and its value is a quotation from the document it cites. */
  predicate Quotes(f: Json, docs: Documents)
    requires DescribedFact(f, docs)
  {
    var quote, body := f.fields["quote"].value.s, docs[f.fields["source_id"].value.s];
    && f.fields["key"].value.s != "" && quote != "" && f.fields["value"].value.s == quote
    && exists i :: 0 <= i <= |body| && quote <= body[i..]
  }

  ghost predicate Backed(kind: CaseKind, docs: Documents, v: Json)
    requires Described(kind, docs, v)
  {
    match kind
    case Retrieval => |v.fields["refs"].items| <= 32 && OrderedOnce(v.fields["refs"].items)
    case Extraction =>
      |v.fields["facts"].items| <= 32 && forall f :: f in v.fields["facts"].items ==> Quotes(f, docs)
    case _ => true
  }

  lemma TextDecodes(v: Json)
    ensures v != Leaf(Null) ==> (AsString(v).Some? <==> IsText(v))
    ensures IsText(v) ==> v != Leaf(Null) && AsString(v) == Some(v.value.s)
  { }

  lemma RefsDecode(items: seq<Json>)
    requires forall e :: e in items ==> IsText(e)
    ensures Decodable(items) && forall k :: 0 <= k < |items| ==> Decoded(items)[k] == TextOf(items[k])
  {
    forall k | 0 <= k < |items| ensures Decoded(items)[k] == TextOf(items[k]) {
      assert items[k] in items;
      TextDecodes(items[k]);
    }
    forall e | e in items ensures AsString(e).Some? { TextDecodes(e); }
  }

  lemma SameOrder(items: seq<Json>, ss: seq<string>)
    requires |ss| == |items| && forall k :: 0 <= k < |items| ==> ss[k] == TextOf(items[k])
    ensures OrderedOnce(items) <==> Distinct(ss) && InOrder(ss)
  {
    hide TextOf;
  }

  lemma RefsMean(items: seq<Json>, docs: Documents)
    requires "" !in docs
    ensures CleanRefs(items, docs)
            <==> && |items| <= 32 && |items| <= |docs| && (forall e :: e in items ==> Names(e, docs))
                 && OrderedOnce(items)
  {
    hide OrderedOnce, Distinct, InOrder, TextOf;
    if Decodable(items) && forall s :: s in Decoded(items) ==> s in docs {
      forall e | e in items ensures Names(e, docs) { RefNames(items, docs, e); }
    }
    if forall e :: e in items ==> Names(e, docs) {
      RefsDecode(items);
      SameOrder(items, Decoded(items));
      forall s | s in Decoded(items) ensures s in docs {
        var k :| 0 <= k < |items| && Decoded(items)[k] == s;
        NamedText(items[k], docs);
      }
    }
    if CleanRefs(items, docs) { RefsFit(docs, items); }
  }

  lemma NamedText(e: Json, docs: Documents)
    ensures Names(e, docs) ==> TextOf(e) in docs
  { }

  lemma RefNames(items: seq<Json>, docs: Documents, e: Json)
    requires Decodable(items) && (forall s :: s in Decoded(items) ==> s in docs) && "" !in docs && e in items
    ensures Names(e, docs)
  {
    var k :| 0 <= k < |items| && items[k] == e;
    assert Decoded(items)[k] in Decoded(items);
  }

  lemma FactTextsExactly(f: Json)
    ensures StrictStrings(f, FACT)
            <==> && Exactly(f, {"key", "value", "source_id", "quote"}) && IsText(f.fields["key"])
                 && IsText(f.fields["value"]) && IsText(f.fields["source_id"]) && IsText(f.fields["quote"])
  {
    hide IsText;
    if Exactly(f, FACT) {
      TextDecodes(f.fields["key"]);
      TextDecodes(f.fields["value"]);
      TextDecodes(f.fields["source_id"]);
      TextDecodes(f.fields["quote"]);
    }
  }

  lemma FactMeans(f: Json, docs: Documents)
    ensures CleanFact(f, docs) <==> DescribedFact(f, docs) && Quotes(f, docs)
  {
    hide StrictStrings, IsText;
    FactTextsExactly(f);
    if StrictStrings(f, FACT) {
      TextDecodes(f.fields["key"]);
      TextDecodes(f.fields["value"]);
      TextDecodes(f.fields["source_id"]);
      TextDecodes(f.fields["quote"]);
    }
  }

  lemma OneTextMeans(v: Json, name: string, ss: seq<string>)
    ensures StrictStrings(v, {name}) && AsString(v.fields[name]).value in ss
            <==> Exactly(v, {name}) && TextIn(v.fields[name], ss)
  {
    if Exactly(v, {name}) { TextDecodes(v.fields[name]); }
  }

  lemma TwoTextsMean(v: Json, a: string, b: string, ss: seq<string>, ts: seq<string>)
    ensures StrictStrings(v, {a, b}) && AsString(v.fields[a]).value in ss && AsString(v.fields[b]).value in ts
            <==> Exactly(v, {a, b}) && TextIn(v.fields[a], ss) && TextIn(v.fields[b], ts)
  {
    if Exactly(v, {a, b}) {
      TextDecodes(v.fields[a]);
      TextDecodes(v.fields[b]);
    }
  }

  lemma RetrievalMeans(docs: Documents, v: Json)
    requires "" !in docs
    ensures Clean(Retrieval, docs, v) <==> Described(Retrieval, docs, v) && Backed(Retrieval, docs, v)
  {
    hide CleanRefs, OrderedOnce, Names;
    ArrayMeans(v, "refs");
    if Exactly(v, {"refs"}) && v.fields["refs"].Arr? { RefsMean(v.fields["refs"].items, docs); }
  }

  lemma ExtractionMeans(docs: Documents, v: Json)
    ensures Clean(Extraction, docs, v) <==> Described(Extraction, docs, v) && Backed(Extraction, docs, v)
  {
    hide CleanFact, DescribedFact, Quotes;
    ArrayMeans(v, "facts");
    if Exactly(v, {"facts"}) && v.fields["facts"].Arr? {
      forall f | f in v.fields["facts"].items
        ensures CleanFact(f, docs) <==> DescribedFact(f, docs) && Quotes(f, docs)
      {
        FactMeans(f, docs);
      }
    }
  }

  lemma CommandMeans(docs: Documents, v: Json)
    ensures Clean(Commands, docs, v) <==> Described(Commands, docs, v) && Backed(Commands, docs, v)
  {
    hide StrictStrings, TextIn, AsString;
    TwoTextsMean(v, "intent", "authority", INTENTS, AUTHORITIES);
  }

  lemma LabelMeans(docs: Documents, v: Json)
    ensures Clean(Classification, docs, v) <==> Described(Classification, docs, v) && Backed(Classification, docs, v)
  {
    hide StrictStrings, TextIn, AsString;
    OneTextMeans(v, "label", LABELS);
  }

  /** A response has no finding exactly when it satisfies the schema of its case and its citations hold: sorted
      references without repetition, and facts that quote the document they cite. */
  lemma CleanMeans(kind: CaseKind, docs: Documents, v: Json)
    requires ResponseSchema(kind, docs).Some?
    ensures Clean(kind, docs, v)
            <==> Valid(ResponseSchema(kind, docs).value, v) && Described(kind, docs, v) && Backed(kind, docs, v)
  {
    hide Valid, ResponseSchema, Clean, Described, Backed;
    SchemaExactly(kind, docs, v);
    SchemaExists(kind, docs);
    match kind
    case Retrieval => RetrievalMeans(docs, v);
    case Extraction => ExtractionMeans(docs, v);
    case Classification => LabelMeans(docs, v);
    case Commands => CommandMeans(docs, v);
  }

  lemma ArrayMeans(v: Json, name: string)
    ensures OneArray(v, name) <==> Exactly(v, {name}) && v.fields[name].Arr?
  { }
}
