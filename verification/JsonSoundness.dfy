/**
 Whatever the bounded parser returns, from any text, is a well-formed value within
 its limits, and its canonical text parses to the same value.
 */
module JsonSoundness {
  import opened Common
  import opened Json
  import opened JsonParser
  import opened CanonicalJson

  predicate Sound(v: Json, depth: int, nodes: nat, after: nat, l: Limits)
  {
    WellFormed(v) && after == nodes + Nodes(v) <= l.nodes && depth + Depth(v) <= l.depth
  }

  /** The same of the members of a container at this depth. */
  predicate SoundMembers(v: Json, depth: int, nodes: nat, after: nat, l: Limits)
  {
    && Width(v) > 0 && WellFormed(v)
    && after == nodes + NodesFrom(v, 0) <= l.nodes && depth + 1 + DepthFrom(v, 0) <= l.depth
  }

  lemma {:induction false} ItemsShift(x: Json, more: seq<Json>, i: nat)
    requires i <= |more|
    ensures NodesFrom(Arr([x] + more), i + 1) == NodesFrom(Arr(more), i)
    ensures DepthFrom(Arr([x] + more), i + 1) == DepthFrom(Arr(more), i)
    decreases |more| - i
  {
    if i < |more| {
      ItemsShift(x, more, i + 1);
    }
  }

  lemma OneItem(x: Json, depth: int, nodes: nat, after: nat, l: Limits)
    requires Sound(x, depth + 1, nodes, after, l)
    ensures SoundMembers(Arr([x]), depth, nodes, after, l)
  {
    var v := Arr([x]);
    assert Child(v, 0) == x;
    assert NodesFrom(v, 1) == 0 && DepthFrom(v, 1) == 0;
  }

  lemma MoreItems(x: Json, more: seq<Json>, depth: int, nodes: nat, middle: nat, after: nat, l: Limits)
    requires Sound(x, depth + 1, nodes, middle, l) && SoundMembers(Arr(more), depth, middle, after, l)
    ensures SoundMembers(Arr([x] + more), depth, nodes, after, l)
  {
    var v, w := Arr([x] + more), Arr(more);
    ItemsShift(x, more, 0);
    assert Child(v, 0) == x;
    forall i | 0 <= i < Width(v) ensures WellFormed(Child(v, i)) {
      assert i > 0 ==> Child(v, i) == Child(w, i - 1);
    }
  }

  lemma OneField(f: Field, depth: int, nodes: nat, after: nat, l: Limits)
    requires Sound(f.value, depth + 1, nodes, after, l)
    ensures SoundMembers(Obj([f]), depth, nodes, after, l)
  {
    var v := Obj([f]);
    assert Child(v, 0) == f.value;
    assert NodesFrom(v, 1) == 0 && DepthFrom(v, 1) == 0;
  }

  lemma MoreFields(f: Field, more: seq<Field>, depth: int, nodes: nat, middle: nat, after: nat, l: Limits)
    requires Sound(f.value, depth + 1, nodes, middle, l) && SoundMembers(Obj(more), depth, middle, after, l)
    requires f.key !in Keys(more)
    ensures SoundMembers(Obj([f] + more), depth, nodes, after, l)
  {
    var v, w := Obj([f] + more), Obj(more);
    FieldSums([f] + more, 0);
    FieldSums(more, 0);
    assert ([f] + more)[0..] == [f] + more && ([f] + more)[1..] == more && more[0..] == more;
    forall i | 0 <= i < Width(v) ensures WellFormed(Child(v, i)) {
      assert i > 0 ==> Child(v, i) == Child(w, i - 1);
    }
    forall i, j | 0 <= i < j < Width(v) ensures v.fields[i].key != v.fields[j].key {
      assert v.fields[j] == more[j - 1] && more[j - 1].key in Keys(more);
      assert i > 0 ==> v.fields[i] == more[i - 1];
    }
  }

  lemma ContainerSound(v: Json, depth: int, nodes: nat, after: nat, l: Limits)
    requires SoundMembers(v, depth, nodes + 1, after, l)
    ensures Sound(v, depth, nodes, after, l)
  {
  }

  lemma {:induction false} ItemsSound(s: string, depth: int, nodes: nat, l: Limits)
    requires ReadItems(s, depth, nodes, l).Some?
    ensures var r := ReadItems(s, depth, nodes, l).value; SoundMembers(Arr(r.value), depth, nodes, r.nodes, l)
    decreases |s|, 2
  {
    hide Sound, SoundMembers, Skip, ReadValue;
    var item := ReadValue(s, depth + 1, nodes, l).value;
    ValueSound(s, depth + 1, nodes, l);
    var t := Skip(item.rest);
    if t[0] == ']' {
      OneItem(item.value, depth, nodes, item.nodes, l);
    } else {
      SkipShorter(item.rest);
      ValueShorter(s, depth + 1, nodes, l);
      ItemsSound(t[1..], depth, item.nodes, l);
      var more := ReadItems(t[1..], depth, item.nodes, l).value;
      MoreItems(item.value, more.value, depth, nodes, item.nodes, more.nodes, l);
    }
  }

  lemma SkipShorter(s: string)
    ensures |Skip(s)| <= |s|
  {
  }

  lemma ValueShorter(s: string, depth: int, nodes: nat, l: Limits)
    ensures ReadValue(s, depth, nodes, l).Some? ==> |ReadValue(s, depth, nodes, l).value.rest| < |s|
  {
  }

  lemma KeyShorter(s: string, nodes: nat, keys: set<string>)
    requires ReadKey(s, nodes, keys).Some?
    ensures |ReadKey(s, nodes, keys).value.rest| < |s| && ReadKey(s, nodes, keys).value.value !in keys
  {
  }

  lemma {:induction false} FieldsSound(s: string, depth: int, nodes: nat, keys: set<string>, l: Limits)
    requires ReadFields(s, depth, nodes, keys, l).Some?
    ensures var r := ReadFields(s, depth, nodes, keys, l).value;
      SoundMembers(Obj(r.value), depth, nodes, r.nodes, l) && Keys(r.value) !! keys
    decreases |s|, 2
  {
    hide Sound, SoundMembers, Skip, ReadValue, ReadKey;
    var key := ReadKey(s, nodes, keys).value;
    KeyShorter(s, nodes, keys);
    var item := ReadValue(key.rest, depth + 1, nodes, l).value;
    ValueSound(key.rest, depth + 1, nodes, l);
    var field := Field(key.value, item.value);
    var t := Skip(item.rest);
    if t[0] == '}' {
      OneField(field, depth, nodes, item.nodes, l);
    } else {
      SkipShorter(item.rest);
      ValueShorter(key.rest, depth + 1, nodes, l);
      FieldsSound(t[1..], depth, item.nodes, keys + {key.value}, l);
      var more := ReadFields(t[1..], depth, item.nodes, keys + {key.value}, l).value;
      MoreFields(field, more.value, depth, nodes, item.nodes, more.nodes, l);
      KeysOfMore(field, more.value);
    }
  }

  lemma KeysOfMore(f: Field, more: seq<Field>)
    ensures Keys([f] + more) == {f.key} + Keys(more)
  {
    var all := [f] + more;
    forall key | key in {f.key} + Keys(more) ensures key in Keys(all) {
      if key == f.key {
        assert all[0].key == key;
      } else {
        var i :| 0 <= i < |more| && more[i].key == key;
        assert all[i + 1].key == key;
      }
    }
    forall i | 0 <= i < |all| ensures all[i].key in {f.key} + Keys(more) {
      assert i > 0 ==> all[i] == more[i - 1];
    }
  }

  lemma PlainSound(s: string, nodes: nat)
    requires ReadPlain(s, nodes).Some?
    ensures var r := ReadPlain(s, nodes).value;
      r.nodes == nodes && WellFormed(r.value) && Depth(r.value) == 0 && Nodes(r.value) == 1
  {
  }

  lemma EmptySound(v: Json)
    requires v == Arr([]) || v == Obj([]) || v.Str?
    ensures WellFormed(v) && Depth(v) == 0 && Nodes(v) == 1
  {
  }

  lemma {:induction false} ObjectSound(s: string, depth: int, nodes: nat, l: Limits)
    requires s != "" && ReadObject(s, depth, nodes + 1, l).Some? && depth <= l.depth && nodes + 1 <= l.nodes
    ensures var r := ReadObject(s, depth, nodes + 1, l).value; Sound(r.value, depth, nodes, r.nodes, l)
    decreases |s|, 0
  {
    hide ReadFields, WellFormed, Depth, Nodes, SoundMembers, Skip;
    var r := ReadObject(s, depth, nodes + 1, l).value;
    var u := Skip(s[1..]);
    SkipShorter(s[1..]);
    if u != "" && u[0] == '}' {
      EmptySound(r.value);
    } else {
      FieldsSound(u, depth, nodes + 1, {}, l);
      ContainerSound(r.value, depth, nodes, r.nodes, l);
    }
  }

  lemma {:induction false} ArraySound(s: string, depth: int, nodes: nat, l: Limits)
    requires s != "" && ReadArray(s, depth, nodes + 1, l).Some? && depth <= l.depth && nodes + 1 <= l.nodes
    ensures var r := ReadArray(s, depth, nodes + 1, l).value; Sound(r.value, depth, nodes, r.nodes, l)
    decreases |s|, 0
  {
    hide ReadItems, WellFormed, Depth, Nodes, SoundMembers, Skip;
    var r := ReadArray(s, depth, nodes + 1, l).value;
    var u := Skip(s[1..]);
    SkipShorter(s[1..]);
    if u != "" && u[0] == ']' {
      EmptySound(r.value);
    } else {
      ItemsSound(u, depth, nodes + 1, l);
      ContainerSound(r.value, depth, nodes, r.nodes, l);
    }
  }

  lemma {:induction false} ValueSound(s: string, depth: int, nodes: nat, l: Limits)
    requires ReadValue(s, depth, nodes, l).Some?
    ensures var r := ReadValue(s, depth, nodes, l).value; Sound(r.value, depth, nodes, r.nodes, l)
    decreases |s|, 1
  {
    hide ReadPlain, ReadString, ReadArray, ReadObject, WellFormed, Depth, Nodes, Skip;
    var t := Skip(s);
    var r := ReadValue(s, depth, nodes, l).value;
    SkipShorter(s);
    if t[0] == '\"' {
      EmptySound(r.value);
      StringNodes(t, nodes + 1);
    } else if t[0] == '{' {
      ObjectSound(t, depth, nodes, l);
    } else if t[0] == '[' {
      ArraySound(t, depth, nodes, l);
    } else {
      PlainSound(t, nodes + 1);
    }
  }

  lemma StringNodes(s: string, nodes: nat)
    requires s != "" && s[0] == '\"'
    ensures ReadString(s, nodes).Some? ==> ReadString(s, nodes).value.nodes == nodes
  {
  }

  /** From any text: well formed, within the limits, and stable under printing and parsing again. */
  lemma ParsedIsSound(s: string)
    requires Parse(s, LIMITS).Some?
    ensures var v := Parse(s, LIMITS).value;
      && WellFormed(v) && Depth(v) <= 64 && Nodes(v) <= 20000
      && Stringify(v).Some? && Parse(Stringify(v).value, LIMITS) == Some(Ordered(v)) && Same(v, Ordered(v))
  {
    ValueSound(s, 0, 0, LIMITS);
    RoundTrip(Parse(s, LIMITS).value);
  }
}
