/** Translation of a JSON Schema into the OpenAPI response dialect.  The dialect has no
    `additionalProperties`, and every array gets the same bound of 32; what the translation
    drops is checked again on the response. */
module SchemaTranslation {
  import opened Options
  import opened CanonicalJson

  // ----- schemas, decoded keyword by keyword -----

  datatype Keyword =
    | Type | AdditionalProperties | Properties | Items | Required | Enum | MaxItems
    | Unknown(name: string)

  datatype TypeName = ObjectType | ArrayType | StringType | OtherType(name: string)

  /** The operand of a keyword, by its JSON shape.  A lower-case and an upper-case type word are
      different strings, and so are a number and the same number written as text. */
  datatype Operand =
    | Lower(t: TypeName)
    | Upper(t: TypeName)
    | Count(n: nat)
    | CountText(n: nat)
    | Flag(b: bool)
    | Values(values: seq<Json>)
    | Shape(node: Node)
    | Shapes(children: map<string, Operand>)
    | OtherShape

  datatype Node = Node(keywords: map<Keyword, Operand>)

  const ARRAY_CAP: nat := 32

  // ----- the translation -----

  /** What becomes of one keyword. */
  datatype Field = Fail | Drop | Keep(value: Operand)

  function ConvertOperand(k: Keyword, x: Operand): Field
    decreases x, 2
  {
    match k
    case Type => if x.Lower? && !x.t.OtherType? then Keep(Upper(x.t)) else Fail
    case AdditionalProperties => if x == Flag(false) then Drop else Fail
    case Properties =>
      if x.Shapes? && forall n | n in x.children :: ConvertChild(x.children[n]).Some?
      then Keep(Shapes(map n | n in x.children :: ConvertChild(x.children[n]).value)) else Fail
    case Items => (match ConvertChild(x) case None => Fail case Some(y) => Keep(y))
    case Required => Keep(x)
    case Enum => Keep(x)
    case MaxItems => Drop
    case Unknown(_) => Fail
  }

  /** A nested schema has to be an object. */
  function ConvertChild(x: Operand): Option<Operand>
    decreases x, 1
  {
    if !x.Shape? then None
    else match Convert(x.node) case None => None case Some(t) => Some(Shape(t))
  }

  predicate IsArray(s: Node) {
    Type in s.keywords && s.keywords[Type] == Lower(ArrayType)
  }

  function Convert(s: Node): Option<Node>
    decreases s, 3
  {
    if exists k | k in s.keywords :: ConvertOperand(k, s.keywords[k]).Fail? then None
    else
      var out := map k | k in s.keywords
          && ConvertOperand(k, s.keywords[k]).Keep? :: ConvertOperand(k, s.keywords[k]).value;
      Some(Node(if IsArray(s) then out[MaxItems := CountText(ARRAY_CAP)] else out))
  }

  /** The keyword loop, in whatever order the map is walked. */
  method ConvertNode(s: Node) returns (r: Option<Node>)
    ensures r == Convert(s)
    decreases s, 3
  {
    var out: map<Keyword, Operand>, todo := map[], s.keywords.Keys;
    while todo != {}
      invariant todo <= s.keywords.Keys
      invariant forall k :: k in s.keywords && k !in todo ==> !ConvertOperand(k, s.keywords[k]).Fail?
      invariant out == map k | k in s.keywords && k !in todo
                && ConvertOperand(k, s.keywords[k]).Keep? :: ConvertOperand(k, s.keywords[k]).value
      decreases |todo|
    {
      var k :| k in todo;
      var f := ConvertKeyword(k, s.keywords[k]);
      if f.Fail? { return None; }
      if f.Keep? { out := out[k := f.value]; }
      todo := todo - {k};
    }
    assert !exists k | k in s.keywords :: ConvertOperand(k, s.keywords[k]).Fail?;
    ghost var kept := map k | k in s.keywords
        && ConvertOperand(k, s.keywords[k]).Keep? :: ConvertOperand(k, s.keywords[k]).value;
    assert out == kept;
    if IsArray(s) { out := out[MaxItems := CountText(ARRAY_CAP)]; }
    r := Some(Node(out));
  }

  method ConvertNested(x: Operand) returns (r: Option<Operand>)
    ensures r == ConvertChild(x)
    decreases x, 1
  {
    if !x.Shape? { return None; }
    var t := ConvertNode(x.node);
    r := if t.None? then None else Some(Shape(t.value));
  }

  method ConvertKeyword(k: Keyword, x: Operand) returns (f: Field)
    ensures f == ConvertOperand(k, x)
    decreases x, 2
  {
    match k
    case Type =>
      if !x.Lower? || (x.t != ObjectType && x.t != ArrayType && x.t != StringType) { return Fail; }
      f := Keep(Upper(x.t));
    case AdditionalProperties =>
      if x != Flag(false) { return Fail; }
      f := Drop;
    case Properties =>
      if !x.Shapes? { return Fail; }
      var out: map<string, Operand>, todo := map[], x.children.Keys;
      while todo != {}
        invariant todo <= x.children.Keys
        invariant forall n :: n in x.children && n !in todo ==> ConvertChild(x.children[n]).Some?
        invariant out == map n | n in x.children && n !in todo :: ConvertChild(x.children[n]).value
        decreases |todo|
      {
        var n :| n in todo;
        var c := ConvertNested(x.children[n]);
        if c.None? { return Fail; }
        out := out[n := c.value];
        todo := todo - {n};
      }
      assert out == map n | n in x.children :: ConvertChild(x.children[n]).value;
      f := Keep(Shapes(out));
    case Items =>
      var c := ConvertNested(x);
      f := if c.None? then Fail else Keep(c.value);
    case Required => f := Keep(x);
    case Enum => f := Keep(x);
    case MaxItems => f := Drop;
    case Unknown(_) => f := Fail;
  }

  /** Every nested node uses only the supported keywords, types and shapes. */
  ghost predicate Supported(s: Node)
    decreases s, 1
  {
    forall k :: k in s.keywords ==> SupportedOperand(k, s.keywords[k])
  }

  ghost predicate SupportedOperand(k: Keyword, x: Operand)
    decreases x, 0
  {
    match k
    case Type => x in {Lower(ObjectType), Lower(ArrayType), Lower(StringType)}
    case AdditionalProperties => x == Flag(false)
    case Properties => x.Shapes? && forall n :: n in x.children ==>
      x.children[n].Shape? && Supported(x.children[n].node)
    case Items => x.Shape? && Supported(x.node)
    case Unknown(_) => false
    case _ => true
  }

  /** The translation fails exactly on unsupported schemas. */
  lemma {:induction false} ConvertsExactly(s: Node)
    ensures Convert(s).Some? <==> Supported(s)
    decreases s, 1
  {
    forall k | k in s.keywords
      ensures ConvertOperand(k, s.keywords[k]).Fail? <==> !SupportedOperand(k, s.keywords[k])
    {
      OperandConvertsExactly(k, s.keywords[k]);
    }
  }

  lemma {:induction false} OperandConvertsExactly(k: Keyword, x: Operand)
    ensures ConvertOperand(k, x).Fail? <==> !SupportedOperand(k, x)
    decreases x, 0
  {
    match k
    case Properties =>
      if x.Shapes? {
        forall n | n in x.children
          ensures ConvertChild(x.children[n]).Some? <==> x.children[n].Shape? && Supported(x.children[n].node)
        {
          if x.children[n].Shape? { ConvertsExactly(x.children[n].node); }
        }
      }
    case Items => if x.Shape? { ConvertsExactly(x.node); }
    case _ =>
  }

  // ----- the two meanings -----

  predicate OfType(t: TypeName, v: Json) {
    match t
    case ObjectType => v.Obj?
    case ArrayType => v.Arr?
    case StringType => v.Leaf? && v.value.Str?
    case OtherType(_) => true
  }

  predicate AtMost(n: nat, v: Json) { v.Arr? ==> |v.items| <= n }

  predicate Present(names: seq<Json>, v: Json) {
    v.Obj? ==> forall n :: n in names && n.Leaf? && n.value.Str? ==> n.value.s in v.fields
  }

  /** The properties a schema declares. */
  function Declared(s: Node): set<string> {
    if Properties in s.keywords && s.keywords[Properties].Shapes? then s.keywords[Properties].children.Keys else {}
  }

  predicate OnlyDeclared(s: Node, v: Json) {
    v.Obj? ==> v.fields.Keys <= Declared(s)
  }

  /** Validity under JSON Schema, for the keywords used here. */
  ghost predicate Valid(s: Node, v: Json)
    decreases s, 1
  {
    forall k :: k in s.keywords ==> ValidAt(s, k, v)
  }

  ghost predicate ValidAt(s: Node, k: Keyword, v: Json)
    requires k in s.keywords
    decreases s, 0
  {
    match (k, s.keywords[k])
    case (Type, Lower(t)) => OfType(t, v)
    case (AdditionalProperties, Flag(b)) => b || OnlyDeclared(s, v)
    case (Properties, Shapes(children)) =>
      v.Obj? ==> forall n :: n in children && n in v.fields && children[n].Shape? ==>
          Valid(children[n].node, v.fields[n])
    case (Items, Shape(node)) => v.Arr? ==> forall e :: e in v.items ==> Valid(node, e)
    case (Required, Values(names)) => Present(names, v)
    case (Enum, Values(values)) => v in values
    case (MaxItems, Count(n)) => AtMost(n, v)
    case _ => true
  }

  /** Validity under the response dialect: upper-case types, a bound written as text, no closed objects. */
  ghost predicate ValidOpenApi(s: Node, v: Json)
    decreases s, 1
  {
    forall k :: k in s.keywords ==> OpenApiAt(s, k, v)
  }

  ghost predicate OpenApiAt(s: Node, k: Keyword, v: Json)
    requires k in s.keywords
    decreases s, 0
  {
    match (k, s.keywords[k])
    case (Type, Upper(t)) => OfType(t, v)
    case (Properties, Shapes(children)) =>
      v.Obj? ==> forall n :: n in children && n in v.fields && children[n].Shape? ==>
          ValidOpenApi(children[n].node, v.fields[n])
    case (Items, Shape(node)) => v.Arr? ==> forall e :: e in v.items ==> ValidOpenApi(node, e)
    case (Required, Values(names)) => Present(names, v)
    case (Enum, Values(values)) => v in values
    case (MaxItems, CountText(n)) => AtMost(n, v)
    case _ => true
  }

  /** What the application checks again: no undeclared field, and the source's own array bounds. */
  ghost predicate Restored(s: Node, v: Json)
    decreases s, 1
  {
    forall k :: k in s.keywords ==> RestoredAt(s, k, v)
  }

  ghost predicate RestoredAt(s: Node, k: Keyword, v: Json)
    requires k in s.keywords
    decreases s, 0
  {
    match (k, s.keywords[k])
    case (AdditionalProperties, _) => OnlyDeclared(s, v)
    case (MaxItems, Count(n)) => AtMost(n, v)
    case (Properties, Shapes(children)) =>
      v.Obj? ==> forall n :: n in children && n in v.fields && children[n].Shape? ==>
          Restored(children[n].node, v.fields[n])
    case (Items, Shape(node)) => v.Arr? ==> forall e :: e in v.items ==> Restored(node, e)
    case _ => true
  }

  /** Every array where the schema asks for one has at most 32 items. */
  ghost predicate Capped(s: Node, v: Json)
    decreases s, 1
  {
    (IsArray(s) ==> AtMost(ARRAY_CAP, v)) && forall k :: k in s.keywords ==> CappedAt(s, k, v)
  }

  ghost predicate CappedAt(s: Node, k: Keyword, v: Json)
    requires k in s.keywords
    decreases s, 0
  {
    match (k, s.keywords[k])
    case (Properties, Shapes(children)) =>
      v.Obj? ==> forall n :: n in children && n in v.fields && children[n].Shape? ==>
          Capped(children[n].node, v.fields[n])
    case (Items, Shape(node)) => v.Arr? ==> forall e :: e in v.items ==> Capped(node, e)
    case _ => true
  }

  // ----- the translation preserves meaning up to its weakening -----

  /** Keyword by keyword: valid and capped is the same as valid after translation plus what is restored. */
  lemma {:induction false} KeywordPreserved(s: Node, k: Keyword, v: Json, t: Node)
    requires Convert(s) == Some(t) && k in s.keywords
    ensures ValidAt(s, k, v) && CappedAt(s, k, v) <==>
            RestoredAt(s, k, v) && (k != MaxItems && k in t.keywords ==> OpenApiAt(t, k, v))
    decreases s, 0, 1
  {
    assert !ConvertOperand(k, s.keywords[k]).Fail?;
    match k
    case Properties => PropertiesPreserved(s, v, t);
    case Items => ItemsPreserved(s, v, t);
    case _ =>
  }

  lemma {:induction false} PropertiesPreserved(s: Node, v: Json, t: Node)
    requires Convert(s) == Some(t) && Properties in s.keywords
    ensures ValidAt(s, Properties, v) && CappedAt(s, Properties, v) <==>
            RestoredAt(s, Properties, v) && (Properties in t.keywords ==> OpenApiAt(t, Properties, v))
    decreases s, 0, 0
  {
    var x := s.keywords[Properties];
    assert !ConvertOperand(Properties, x).Fail?;
    if v.Obj? {
      var y := t.keywords[Properties];
      forall n | n in x.children && n in v.fields
        ensures x.children[n].Shape? && y.children[n].Shape?
        ensures Valid(x.children[n].node, v.fields[n]) && Capped(x.children[n].node, v.fields[n]) <==>
                ValidOpenApi(y.children[n].node, v.fields[n]) && Restored(x.children[n].node, v.fields[n])
      {
        assert ConvertChild(x.children[n]).Some?;
        TranslationPreserves(x.children[n].node, v.fields[n], y.children[n].node);
      }
    }
  }

  lemma {:induction false} ItemsPreserved(s: Node, v: Json, t: Node)
    requires Convert(s) == Some(t) && Items in s.keywords
    ensures ValidAt(s, Items, v) && CappedAt(s, Items, v) <==>
            RestoredAt(s, Items, v) && (Items in t.keywords ==> OpenApiAt(t, Items, v))
    decreases s, 0, 0
  {
    var x := s.keywords[Items];
    assert !ConvertOperand(Items, x).Fail?;
    if v.Arr? {
      var y := t.keywords[Items];
      forall e | e in v.items ensures Valid(x.node, e) && Capped(x.node, e) <==>
          ValidOpenApi(y.node, e) && Restored(x.node, e) {
        TranslationPreserves(x.node, e, y.node);
      }
    }
  }

  /** The translation has the source's other keywords, and a bound exactly where the source asks for an array. */
  lemma TranslatedKeywords(s: Node, t: Node, v: Json)
    requires Convert(s) == Some(t)
    ensures forall k :: k in t.keywords && k != MaxItems ==> k in s.keywords
    ensures ValidOpenApi(t, v) <==>
            (IsArray(s) ==> AtMost(ARRAY_CAP, v)) && forall k :: k in t.keywords && k != MaxItems ==> OpenApiAt(t, k, v)
  {
    assert MaxItems in t.keywords <==> IsArray(s);
    assert IsArray(s) ==> (OpenApiAt(t, MaxItems, v) <==> AtMost(ARRAY_CAP, v));
  }

  /** A value is valid for the source with all its arrays capped at 32, if and only if it is valid for
      the translation, has no undeclared field and keeps the source's own array bounds. */
  lemma {:induction false} TranslationPreserves(s: Node, v: Json, t: Node)
    requires Convert(s) == Some(t)
    ensures Valid(s, v) && Capped(s, v) <==> ValidOpenApi(t, v) && Restored(s, v)
    decreases s, 1, 0
  {
    hide ValidAt, CappedAt, RestoredAt, OpenApiAt, Convert, ValidOpenApi, IsArray, AtMost;
    TranslatedKeywords(s, t, v);
    forall k | k in s.keywords
      ensures ValidAt(s, k, v) && CappedAt(s, k, v) <==>
              RestoredAt(s, k, v) && (k != MaxItems && k in t.keywords ==> OpenApiAt(t, k, v))
    {
      KeywordPreserved(s, k, v, t);
    }
    assert Valid(s, v) && Capped(s, v) ==> forall k :: k in s.keywords ==> ValidAt(s, k, v) && CappedAt(s, k, v);
    assert ValidOpenApi(t, v) && Restored(s, v) ==> forall k :: k in s.keywords ==>
           ValidAt(s, k, v) && CappedAt(s, k, v);
  }
}
