/** The recursive reader over a stateful token decoder, proved to parse as specified. */
module JsonDecoder {
  import opened Options
  import opened CanonicalJson

  class Decoder {
    /** The tokens not read yet. */
    var rest: seq<Token>

    constructor (tokens: seq<Token>)
      ensures rest == tokens
    {
      rest := tokens;
    }

    /** Whether the array or object being read has another element. */
    predicate More()
      reads this
    {
      rest != [] && rest[0] != EndObject && rest[0] != EndArray
    }

    method Next() returns (t: Option<Token>)
      modifies this
      ensures old(rest) == [] ==> t == None && rest == []
      ensures old(rest) != [] ==> t == Some(old(rest)[0]) && rest == old(rest)[1..]
    {
      if rest == [] { return None; }
      t := Some(rest[0]);
      rest := rest[1..];
    }

    /** Reads one value.  The depth limit is checked before anything is read, duplicates
        before the value of the repeated key, and the array limit before a further element. */
    method JsonValue(depth: nat) returns (r: Option<Json>)
      modifies this
      ensures match ParseValue(old(rest), depth)
              case Failed => r == None
              case Value(j, after) => r == Some(j) && rest == after
      decreases |rest|, 0
    {
      if depth > MAX_DEPTH { return None; }
      var token := Next();
      if token.None? { return None; }
      match token.value
      case Atom(v) => r := Some(Leaf(v));
      case BeginObject => r := Members(depth);
      case BeginArray => r := Items(depth);
      case _ => r := None;
    }

    method Members(depth: nat) returns (r: Option<Json>)
      modifies this
      ensures match ParseMembers(old(rest), depth, map[])
              case Failed => r == None
              case Value(j, after) => r == Some(j) && rest == after
      decreases |rest|, 0
    {
      var fields: map<string, Json> := map[];
      while More()
        invariant |rest| <= |old(rest)|
        invariant ParseMembers(old(rest), depth, map[]) == ParseMembers(rest, depth, fields)
        decreases |rest|
      {
        var key := Next();
        if !key.value.Atom? || !key.value.value.Str? { return None; }
        var name := key.value.value.s;
        if name in fields { return None; }
        var value := JsonValue(depth + 1);
        if value.None? { return None; }
        fields := fields[name := value.value];
      }
      var close := Next();
      r := if close == Some(EndObject) then Some(Obj(fields)) else None;
    }

    method Items(depth: nat) returns (r: Option<Json>)
      modifies this
      ensures match ParseItems(old(rest), depth, [])
              case Failed => r == None
              case Value(j, after) => r == Some(j) && rest == after
      decreases |rest|, 1
    {
      var items: seq<Json> := [];
      while More()
        invariant |rest| <= |old(rest)|
        invariant ParseItems(old(rest), depth, []) == ParseItems(rest, depth, items)
        decreases |rest|
      {
        if |items| >= MAX_ITEMS { return None; }
        var value := JsonValue(depth + 1);
        if value.None? { return None; }
        items := items + [value.value];
      }
      var close := Next();
      r := if close == Some(EndArray) then Some(Arr(items)) else None;
    }
  }

  /** One value and nothing after it. */
  method ParseText(tokens: seq<Token>) returns (r: Option<Json>)
    ensures r == Parse(tokens)
  {
    var d := new Decoder(tokens);
    r := d.JsonValue(0);
    if r.Some? && d.rest != [] { r := None; }
  }
}
