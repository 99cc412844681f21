/**
 The bounded parser as written: one offset and one counter, moved by nested reads.
 It computes what the reading functions say.
 */
module JsonReader {
  import opened Common
  import opened Decimal
  import opened Json
  import opened JsonParser

  class Parser {
    const source: string
    const limits: Limits
    var offset: nat
    var nodes: nat

    constructor (source: string, limits: Limits)
      ensures this.source == source && this.limits == limits && offset == 0 && nodes == 0
    {
      this.source, this.limits, offset, nodes := source, limits, 0, 0;
    }

    ghost predicate Valid()
      reads this
    {
      offset <= |source|
    }

    /** The text not read yet. */
    ghost function Left(): string
      reads this
      requires Valid()
    {
      source[offset..]
    }

    method Whitespace()
      requires Valid()
      modifies this`offset
      ensures Valid() && Left() == Skip(old(Left())) && offset >= old(offset)
    {
      while offset < |source| && IsSpace(source[offset])
        invariant Valid() && Skip(Left()) == Skip(old(Left())) && offset >= old(offset)
      {
        assert source[offset..][1..] == source[offset + 1..];
        offset := offset + 1;
      }
    }

    /** Finds the closing quote from `start` on, stepping over escapes. */
    method CloseFrom(start: nat) returns (close: Option<nat>)
      requires start <= |source|
      ensures close.None? ==> CloseAt(source[start..]).None?
      ensures close.Some? ==> start <= close.value < |source| && CloseAt(source[start..]) == Some(close.value - start)
    {
      hide CloseAt;
      var at := start;
      while at < |source|
        invariant start <= at
        invariant at <= |source| ==> CloseAt(source[start..]) == Shift(CloseAt(source[at..]), at - start)
        invariant at > |source| ==> CloseAt(source[start..]).None?
      {
        var c := source[at];
        if c == '\"' {
          CloseHere(source, at);
          return Some(at);
        }
        CloseStep(source, at);
        at := at + if c == '\\' then 2 else 1;
      }
      CloseNowhere(source, at);
      return None;
    }

    /** Scans to the closing quote, then decodes what stands between. */
    method String() returns (r: Option<string>)
      requires Valid() && Left() != "" && Left()[0] == '\"'
      modifies this`offset
      ensures r.Some? <==> ReadString(old(Left()), nodes).Some?
      ensures r.Some? ==>
                && Valid() && offset > old(offset)
                && ReadString(old(Left()), nodes) == Some(Read(r.value, Left(), nodes))
    {
      hide Unescape, CloseAt;
      var start := offset;
      assert source[start..][1..] == source[start + 1..];
      var close := CloseFrom(start + 1);
      if close.None? {
        return None;
      }
      r := Unescape(source[start + 1..close.value]);
      assert source[start..][1..close.value - start] == source[start + 1..close.value];
      assert source[start..][close.value - start + 1..] == source[close.value + 1..];
      if r.Some? {
        offset := close.value + 1;
      }
    }

    /** A read came out as the function says, and the offset stands after it. */
    ghost predicate Agrees<T>(r: Option<T>, f: Outcome<T>)
      reads this
    {
      (r.Some? <==> f.Some?) && (r.Some? ==> Valid() && f == Some(Read(r.value, Left(), nodes)))
    }

    method Value(depth: int) returns (r: Option<Json>)
      requires Valid()
      modifies this
      ensures Agrees(r, ReadValue(old(Left()), depth, old(nodes), limits))
      ensures r.Some? ==> offset > old(offset)
      decreases |source| - offset, 1
    {
      hide ReadString, ReadArray, ReadObject, ReadPlain, Skip;
      if depth > limits.depth || nodes + 1 > limits.nodes {
        return None;
      }
      nodes := nodes + 1;
      Whitespace();
      if offset == |source| {
        return None;
      }
      var c := source[offset];
      if c == '\"' {
        var text := String();
        r := if text.Some? then Some(Str(text.value)) else None;
      } else if c == '{' {
        r := Object(depth);
      } else if c == '[' {
        r := Array(depth);
      } else {
        var plain := ReadPlain(source[offset..], nodes);
        if plain.None? {
          return None;
        }
        PlainSuffix(source[offset..], nodes);
        ghost var at := offset;
        offset := |source| - |plain.value.rest|;
        assert source[at..][offset - at..] == source[offset..];
        r := Some(plain.value.value);
      }
    }

    method Object(depth: int) returns (r: Option<Json>)
      requires Valid() && Left() != "" && Left()[0] == '{'
      modifies this
      ensures Agrees(r, ReadObject(old(Left()), depth, old(nodes), limits))
      ensures r.Some? ==> offset > old(offset)
      decreases |source| - offset, 0
    {
      hide ReadFields, Skip;
      assert source[offset..][1..] == source[offset + 1..];
      offset := offset + 1;
      Whitespace();
      if offset < |source| && source[offset] == '}' {
        assert source[offset..][1..] == source[offset + 1..];
        offset := offset + 1;
        return Some(Obj([]));
      }
      var fields := Fields(depth);
      r := if fields.Some? then Some(Obj(fields.value)) else None;
    }

    method Array(depth: int) returns (r: Option<Json>)
      requires Valid() && Left() != "" && Left()[0] == '['
      modifies this
      ensures Agrees(r, ReadArray(old(Left()), depth, old(nodes), limits))
      ensures r.Some? ==> offset > old(offset)
      decreases |source| - offset, 0
    {
      hide ReadItems, Skip;
      assert source[offset..][1..] == source[offset + 1..];
      offset := offset + 1;
      Whitespace();
      if offset < |source| && source[offset] == ']' {
        assert source[offset..][1..] == source[offset + 1..];
        offset := offset + 1;
        return Some(Arr([]));
      }
      var items := Items(depth);
      r := if items.Some? then Some(Arr(items.value)) else None;
    }

    method Items(depth: int) returns (r: Option<seq<Json>>)
      requires Valid()
      modifies this
      ensures Agrees(r, ReadItems(old(Left()), depth, old(nodes), limits))
      ensures r.Some? ==> offset > old(offset)
      decreases |source| - offset, 2
    {
      hide ReadValue, ReadItems, Skip;
      var items: seq<Json> := [];
      NothingBefore(ReadItems(Left(), depth, nodes, limits));
      while offset < |source|
        invariant Valid() && offset >= old(offset)
        invariant ReadItems(old(Left()), depth, old(nodes), limits)
                  == Before(items, ReadItems(Left(), depth, nodes, limits))
      {
        ItemsUnfold(Left(), depth, nodes, limits);
        var item := Value(depth + 1);
        if item.None? {
          return None;
        }
        Whitespace();
        if offset == |source| {
          return None;
        }
        var separator := source[offset];
        assert source[offset..][1..] == source[offset + 1..];
        offset := offset + 1;
        if separator != ']' && separator != ',' {
          return None;
        }
        BeforeOne(items, item.value, ReadItems(Left(), depth, nodes, limits));
        items := items + [item.value];
        if separator == ']' {
          return Some(items);
        }
      }
      NoItems(depth, nodes, limits);
      return None;
    }

    method Fields(depth: int) returns (r: Option<seq<Field>>)
      requires Valid()
      modifies this
      ensures Agrees(r, ReadFields(old(Left()), depth, old(nodes), {}, limits))
      ensures r.Some? ==> offset > old(offset)
      decreases |source| - offset, 2
    {
      hide ReadValue, ReadFields, ReadKey, Skip;
      var fields: seq<Field>, keys: set<string> := [], {};
      NothingBefore(ReadFields(Left(), depth, nodes, keys, limits));
      while offset < |source|
        invariant Valid() && offset >= old(offset)
        invariant ReadFields(old(Left()), depth, old(nodes), {}, limits)
                  == Before(fields, ReadFields(Left(), depth, nodes, keys, limits))
      {
        FieldsUnfold(Left(), depth, nodes, keys, limits);
        var key := Key(keys);
        if key.None? {
          return None;
        }
        var value := Value(depth + 1);
        if value.None? {
          return None;
        }
        Whitespace();
        if offset == |source| {
          return None;
        }
        var separator := source[offset];
        assert source[offset..][1..] == source[offset + 1..];
        offset := offset + 1;
        if separator != '}' && separator != ',' {
          return None;
        }
        var field := Field(key.value, value.value);
        keys := keys + {key.value};
        BeforeOne(fields, field, ReadFields(Left(), depth, nodes, keys, limits));
        fields := fields + [field];
        if separator == '}' {
          return Some(fields);
        }
      }
      NoFields(depth, nodes, keys, limits);
      return None;
    }

    /** A key not in `keys`, and its colon. */
    method Key(keys: set<string>) returns (r: Option<string>)
      requires Valid()
      modifies this`offset
      ensures Agrees(r, ReadKey(old(Left()), nodes, keys))
      ensures r.Some? ==> offset > old(offset)
    {
      hide ReadString, Skip;
      Whitespace();
      if offset == |source| || source[offset] != '\"' {
        return None;
      }
      var key := String();
      if key.None? || key.value in keys {
        return None;
      }
      Whitespace();
      if offset == |source| || source[offset] != ':' {
        return None;
      }
      assert source[offset..][1..] == source[offset + 1..];
      offset := offset + 1;
      return key;
    }
  }

  /** The parser of the delivery inbox: a value, then nothing but space. */
  method ParseSource(source: string) returns (r: Option<Json>)
    ensures r == Parse(source, LIMITS)
  {
    hide ReadValue, Skip;
    var parser := new Parser(source, LIMITS);
    assert source[0..] == source;
    r := parser.Value(0);
    if r.Some? {
      parser.Whitespace();
      if parser.offset != |source| {
        r := None;
      }
    }
  }

  // What the loops use

  /** `items` were read before `f`. */
  function Before<T>(items: seq<T>, f: Outcome<seq<T>>): Outcome<seq<T>>
  {
    if f.None? then None else Some(f.value.(value := items + f.value.value))
  }

  lemma NothingBefore<T>(f: Outcome<seq<T>>)
    ensures Before([], f) == f
  {
    if f.Some? {
      assert [] + f.value.value == f.value.value;
    }
  }

  lemma BeforeOne<T>(items: seq<T>, x: T, f: Outcome<seq<T>>)
    ensures Before(items, Before([x], f)) == Before(items + [x], f)
  {
    if f.Some? {
      assert items + ([x] + f.value.value) == (items + [x]) + f.value.value;
    }
  }

  lemma ItemsUnfold(s: string, depth: int, nodes: nat, l: Limits)
    ensures ReadItems(s, depth, nodes, l) ==
              var item := ReadValue(s, depth + 1, nodes, l);
              if item.None? then None
              else
                var t := Skip(item.value.rest);
                if t == "" then None
                else if t[0] == ']' then Some(Read([item.value.value], t[1..], item.value.nodes))
                else if t[0] != ',' then None
                else Before([item.value.value], ReadItems(t[1..], depth, item.value.nodes, l))
  {
    hide ReadValue, Skip;
  }

  lemma FieldsUnfold(s: string, depth: int, nodes: nat, keys: set<string>, l: Limits)
    ensures ReadFields(s, depth, nodes, keys, l) ==
              var key := ReadKey(s, nodes, keys);
              if key.None? then None
              else
                var value := ReadValue(key.value.rest, depth + 1, nodes, l);
                if value.None? then None
                else
                  var field := Field(key.value.value, value.value.value);
                  var t := Skip(value.value.rest);
                  if t == "" then None
                  else if t[0] == '}' then Some(Read([field], t[1..], value.value.nodes))
                  else if t[0] != ',' then None
                  else Before([field], ReadFields(t[1..], depth, value.value.nodes, keys + {field.key}, l))
  {
    hide ReadValue, ReadKey, Skip;
  }

  lemma NoItems(depth: int, nodes: nat, l: Limits)
    ensures ReadItems("", depth, nodes, l).None?
  {
  }

  lemma NoFields(depth: int, nodes: nat, keys: set<string>, l: Limits)
    ensures ReadFields("", depth, nodes, keys, l).None?
  {
  }

  lemma PlainSuffix(s: string, nodes: nat)
    requires ReadPlain(s, nodes).Some?
    ensures var r := ReadPlain(s, nodes).value; r.nodes == nodes && |r.rest| < |s| && r.rest == s[|s| - |r.rest|..]
  {
    hide NaturalAt, Value;
    if s[0] == '-' {
      var t, n := s[1..], NaturalAt(s[1..]);
      assert t[n..] == s[n + 1..];
    }
  }

  lemma CloseHere(source: string, at: nat)
    requires at < |source| && source[at] == '\"'
    ensures CloseAt(source[at..]) == Some(0)
  {
  }

  lemma CloseNowhere(source: string, at: nat)
    ensures at == |source| ==> CloseAt(source[at..]).None?
  {
  }

  lemma CloseStep(source: string, at: nat)
    requires at < |source| && source[at] != '\"'
    ensures var step := if source[at] == '\\' then 2 else 1;
      CloseAt(source[at..]) ==
        if at + step <= |source| then Shift(CloseAt(source[at + step..]), step) else None
  {
    if source[at] == '\\' && at + 2 <= |source| {
      assert source[at..][2..] == source[at + 2..];
    } else {
      assert source[at..][1..] == source[at + 1..];
    }
  }

  function Shift(n: Option<nat>, k: nat): Option<nat>
  {
    if n.Some? then Some(n.value + k) else None
  }
}
