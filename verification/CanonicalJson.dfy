/**
 The canonical printer: object fields in code-point order of their keys.
 */
module CanonicalJson {
  import opened Common
  import opened Json
  import opened JsonParser
  import opened JsonRoundTrip
  import opened Sorting

  // Code-point order

  /** `a` comes before `b` in the order of code points. */
  predicate Less(a: string, b: string)
  {
    b != "" && (a == "" || if a[0] != b[0] then a[0] < b[0] else Less(a[1..], b[1..]))
  }

  /** `compareCodePoints`. */
  method CompareCodePoints(left: string, right: string) returns (c: int)
    ensures c < 0 <==> Less(left, right)
    ensures c > 0 <==> Less(right, left)
    ensures c == 0 <==> left == right
  {
    var n := if |left| < |right| then |left| else |right|;
    for i := 0 to n
      invariant left[..i] == right[..i]
      invariant Less(left, right) == Less(left[i..], right[i..]) && Less(right, left) == Less(right[i..], left[i..])
    {
      if left[i] != right[i] {
        return if left[i] < right[i] then -1 else 1;
      }
      assert left[i..][1..] == left[i + 1..] && right[i..][1..] == right[i + 1..];
    }
    return |left| - |right|;
  }

  lemma {:induction false} LessTotal(a: string, b: string)
    ensures Less(a, b) ==> !Less(b, a)
    ensures a != b ==> Less(a, b) || Less(b, a)
  {
    if a != "" && b != "" && a[0] == b[0] {
      LessTotal(a[1..], b[1..]);
      assert a == [a[0]] + a[1..] && b == [b[0]] + b[1..];
    }
  }

  lemma {:induction false} LessTransitive(a: string, b: string, c: string)
    requires Less(a, b) && Less(b, c)
    ensures Less(a, c)
  {
    if a != "" && a[0] == b[0] == c[0] {
      LessTransitive(a[1..], b[1..], c[1..]);
    }
  }

  predicate FieldBefore(f: Field, g: Field)
  {
    Less(f.key, g.key)
  }

  lemma FieldOrder()
    ensures StrictOrder(FieldBefore)
  {
    forall f, g | FieldBefore(f, g) ensures !FieldBefore(g, f) {
      LessTotal(f.key, g.key);
    }
    forall f, g, h | FieldBefore(f, g) && FieldBefore(g, h) ensures FieldBefore(f, h) {
      LessTransitive(f.key, g.key, h.key);
    }
  }

  // The canonical form

  /** The same value with the fields of every object in order. */
  function Ordered(v: Json): Json
  {
    match v
    case Arr(items) => Arr(seq(|items|, i requires 0 <= i < |items| => Ordered(items[i])))
    case Obj(fields) =>
      Obj(Sort(seq(|fields|, i requires 0 <= i < |fields| => Field(fields[i].key, Ordered(fields[i].value))),
               FieldBefore))
    case _ => v
  }

  /** The fields of an object, each value in canonical form, not yet sorted. */
  function OrderedFields(fields: seq<Field>): (r: seq<Field>)
    ensures |r| == |fields|
    ensures forall i :: 0 <= i < |fields| ==> r[i] == Field(fields[i].key, Ordered(fields[i].value))
  {
    seq(|fields|, i requires 0 <= i < |fields| => Field(fields[i].key, Ordered(fields[i].value)))
  }

  /** Every number is a safe integer. */
  predicate AllSafe(v: Json)
  {
    (v.Num? ==> Safe(v.number)) && forall i :: 0 <= i < Width(v) ==> AllSafe(Child(v, i))
  }

  /** `canonicalStringify`; `None` is the exception. */
  function Stringify(v: Json): Option<string>
  {
    if AllSafe(v) then Some(Text(Ordered(v))) else None
  }

  lemma {:induction false} WellFormedIsSafe(v: Json)
    requires WellFormed(v)
    ensures AllSafe(v)
    decreases v
  {
    forall i | 0 <= i < Width(v) ensures AllSafe(Child(v, i)) {
      WellFormedIsSafe(Child(v, i));
    }
  }

  lemma OrderedObj(fields: seq<Field>)
    ensures Ordered(Obj(fields)) == Obj(Sort(OrderedFields(fields), FieldBefore))
  {
  }

  lemma SeparatedFields(fields: seq<Field>)
    requires DistinctKeys(fields)
    ensures NoDuplicates(fields) && Separates(FieldBefore, Elements(fields))
  {
    forall f, g | f in Elements(fields) && g in Elements(fields) && f != g
      ensures FieldBefore(f, g) || FieldBefore(g, f)
    {
      LessTotal(f.key, g.key);
    }
  }

  lemma SortedKeys(fields: seq<Field>)
    requires DistinctKeys(fields)
    ensures StrictlySorted(Sort(fields, FieldBefore), FieldBefore) && DistinctKeys(Sort(fields, FieldBefore))
  {
    var sorted := Sort(fields, FieldBefore);
    FieldOrder();
    SeparatedFields(fields);
    SortSorts(fields, FieldBefore);
    forall i, j | 0 <= i < j < |sorted| ensures sorted[i].key != sorted[j].key {
      assert FieldBefore(sorted[i], sorted[j]);
      LessTotal(sorted[i].key, sorted[j].key);
    }
  }

  lemma {:induction false} OrderedWellFormed(v: Json)
    requires WellFormed(v)
    ensures WellFormed(Ordered(v))
    decreases v
  {
    match v
    case Arr(items) =>
      forall i | 0 <= i < |items| ensures WellFormed(Child(Ordered(v), i)) {
        assert WellFormed(Child(v, i));
        OrderedWellFormed(items[i]);
      }
    case Obj(fields) =>
      var plain := OrderedFields(fields);
      OrderedObj(fields);
      SortKeeps(plain, FieldBefore);
      SortedKeys(plain);
      var sorted := Ordered(v).fields;
      forall i | 0 <= i < |sorted| ensures WellFormed(Child(Ordered(v), i)) {
        assert sorted[i] in plain;
        var j :| 0 <= j < |fields| && plain[j] == sorted[i];
        assert WellFormed(Child(v, j));
        OrderedWellFormed(fields[j].value);
      }
    case _ =>
  }

  // The order of insertion does not matter

  /** The same value, whatever the order of its fields. */
  predicate Same(v: Json, w: Json)
    decreases v
  {
    match v
    case Arr(items) =>
      w.Arr? && |items| == |w.items| && forall i :: 0 <= i < |items| ==> Same(items[i], w.items[i])
    case Obj(fields) =>
      && w.Obj? && Keys(fields) == Keys(w.fields)
      && forall i, j :: 0 <= i < |fields| && 0 <= j < |w.fields| && fields[i].key == w.fields[j].key ==>
           Same(fields[i].value, w.fields[j].value)
    case _ => v == w
  }

  function Keys(fields: seq<Field>): set<string>
  {
    set i | 0 <= i < |fields| :: fields[i].key
  }

  lemma OrderedArrays(v: Json, w: Json)
    requires v.Arr? && w.Arr?
    ensures Ordered(v) == Ordered(w) <==>
              |v.items| == |w.items| && forall i :: 0 <= i < |v.items| ==> Ordered(v.items[i]) == Ordered(w.items[i])
  {
    var a, b := Ordered(v).items, Ordered(w).items;
    assert |a| == |v.items| && forall i :: 0 <= i < |a| ==> a[i] == Ordered(v.items[i]);
    assert |b| == |w.items| && forall i :: 0 <= i < |b| ==> b[i] == Ordered(w.items[i]);
  }

  lemma OrderedObjects(v: Json, w: Json)
    requires v.Obj? && w.Obj? && DistinctKeys(v.fields) && DistinctKeys(w.fields)
    ensures Ordered(v) == Ordered(w) <==> Elements(OrderedFields(v.fields)) == Elements(OrderedFields(w.fields))
  {
    var f, g := OrderedFields(v.fields), OrderedFields(w.fields);
    OrderedObj(v.fields);
    OrderedObj(w.fields);
    SortKeeps(f, FieldBefore);
    SortKeeps(g, FieldBefore);
    var s, t := Sort(f, FieldBefore), Sort(g, FieldBefore);
    assert Elements(s) == Elements(f) && Elements(t) == Elements(g);
    if Elements(f) == Elements(g) {
      FieldOrder();
      SortedKeys(f);
      SortedKeys(g);
      SortedUnique(s, t, FieldBefore);
    }
  }

  /** Two objects have the same canonical fields exactly when they agree key by key. */
  lemma SameFields(f: seq<Field>, g: seq<Field>)
    requires DistinctKeys(f) && DistinctKeys(g)
    ensures Elements(f) == Elements(g) <==>
              && Keys(f) == Keys(g)
              && forall i, j :: 0 <= i < |f| && 0 <= j < |g| && f[i].key == g[j].key ==> f[i].value == g[j].value
  {
    if Elements(f) == Elements(g) {
      SubsetFields(f, g);
      SubsetFields(g, f);
    }
    if Keys(f) == Keys(g)
       && forall i, j :: 0 <= i < |f| && 0 <= j < |g| && f[i].key == g[j].key ==> f[i].value == g[j].value
    {
      AgreeingFields(f, g);
      AgreeingFields(g, f);
    }
  }

  lemma SubsetFields(f: seq<Field>, g: seq<Field>)
    requires DistinctKeys(g) && Elements(f) <= Elements(g)
    ensures Keys(f) <= Keys(g)
    ensures forall i, j :: 0 <= i < |f| && 0 <= j < |g| && f[i].key == g[j].key ==> f[i].value == g[j].value
  {
    forall i | 0 <= i < |f| ensures f[i] in g {
      assert f[i] in Elements(f);
    }
    forall key | key in Keys(f) ensures key in Keys(g) {
      var i :| 0 <= i < |f| && f[i].key == key;
      var j :| 0 <= j < |g| && g[j] == f[i];
    }
    forall i, j | 0 <= i < |f| && 0 <= j < |g| && f[i].key == g[j].key ensures f[i].value == g[j].value {
      var k :| 0 <= k < |g| && g[k] == f[i];
      assert k == j;
    }
  }

  lemma AgreeingFields(f: seq<Field>, g: seq<Field>)
    requires Keys(f) <= Keys(g)
    requires forall i, j :: 0 <= i < |f| && 0 <= j < |g| && f[i].key == g[j].key ==> f[i].value == g[j].value
    ensures Elements(f) <= Elements(g)
  {
    forall x | x in Elements(f) ensures x in Elements(g) {
      var i :| 0 <= i < |f| && f[i] == x;
      assert f[i].key in Keys(f);
      var j :| 0 <= j < |g| && g[j].key == f[i].key;
      assert g[j] == x;
    }
  }

  /** Two values have one canonical form exactly when they are the same but for the order of fields. */
  lemma {:induction false} OrderedIffSame(v: Json, w: Json)
    requires WellFormed(v) && WellFormed(w)
    ensures Ordered(v) == Ordered(w) <==> Same(v, w)
    decreases v
  {
    if v.Arr? && w.Arr? {
      OrderedArrays(v, w);
      forall i | 0 <= i < |v.items| && i < |w.items|
        ensures Ordered(v.items[i]) == Ordered(w.items[i]) <==> Same(v.items[i], w.items[i])
      {
        assert WellFormed(Child(v, i)) && WellFormed(Child(w, i));
        OrderedIffSame(v.items[i], w.items[i]);
      }
    } else if v.Obj? && w.Obj? {
      OrderedObjects(v, w);
      SameFields(OrderedFields(v.fields), OrderedFields(w.fields));
      ObjectsAgree(v, w);
    }
  }

  lemma {:induction false} ObjectsAgree(v: Json, w: Json)
    requires WellFormed(v) && WellFormed(w) && v.Obj? && w.Obj?
    ensures var f, g := OrderedFields(v.fields), OrderedFields(w.fields);
      && Keys(f) == Keys(v.fields) && Keys(g) == Keys(w.fields)
      && ((forall i, j :: 0 <= i < |f| && 0 <= j < |g| && f[i].key == g[j].key ==> f[i].value == g[j].value) <==>
          (forall i, j :: 0 <= i < |f| && 0 <= j < |g| && v.fields[i].key == w.fields[j].key ==>
             Same(v.fields[i].value, w.fields[j].value)))
    decreases v, 0
  {
    forall i, j | 0 <= i < |v.fields| && 0 <= j < |w.fields|
      ensures Ordered(v.fields[i].value) == Ordered(w.fields[j].value)
              <==> Same(v.fields[i].value, w.fields[j].value)
    {
      assert WellFormed(Child(v, i)) && WellFormed(Child(w, j));
      OrderedIffSame(v.fields[i].value, w.fields[j].value);
    }
  }

  // Sorting keeps the size

  function SumNodes(fields: seq<Field>): nat
  {
    if fields == [] then 0 else Nodes(fields[0].value) + SumNodes(fields[1..])
  }

  function TopDepth(fields: seq<Field>): nat
  {
    if fields == [] then 0 else Max(Depth(fields[0].value), TopDepth(fields[1..]))
  }

  lemma {:induction false} FieldSums(fields: seq<Field>, i: nat)
    requires i <= |fields|
    ensures NodesFrom(Obj(fields), i) == SumNodes(fields[i..]) && DepthFrom(Obj(fields), i) == TopDepth(fields[i..])
    decreases |fields| - i
  {
    if i < |fields| {
      FieldSums(fields, i + 1);
      assert fields[i..][1..] == fields[i + 1..];
    }
  }

  lemma {:induction false} InsertSums(x: Field, s: seq<Field>)
    ensures SumNodes(Insert(x, s, FieldBefore)) == Nodes(x.value) + SumNodes(s)
    ensures TopDepth(Insert(x, s, FieldBefore)) == Max(Depth(x.value), TopDepth(s))
  {
    hide Nodes, Depth;
    var r := Insert(x, s, FieldBefore);
    if s != [] && FieldBefore(s[0], x) {
      InsertSums(x, s[1..]);
      assert r[1..] == Insert(x, s[1..], FieldBefore);
    } else {
      assert r[1..] == s;
    }
  }

  lemma {:induction false} SortSums(s: seq<Field>)
    ensures SumNodes(Sort(s, FieldBefore)) == SumNodes(s) && TopDepth(Sort(s, FieldBefore)) == TopDepth(s)
  {
    if s != [] {
      SortSums(s[1..]);
      InsertSums(s[0], Sort(s[1..], FieldBefore));
    }
  }

  /** Fields of equal sizes, one by one, have equal sums. */
  lemma {:induction false} EqualSums(f: seq<Field>, g: seq<Field>)
    requires |f| == |g|
    requires forall i :: 0 <= i < |f| ==>
               Nodes(f[i].value) == Nodes(g[i].value) && Depth(f[i].value) == Depth(g[i].value)
    ensures SumNodes(f) == SumNodes(g) && TopDepth(f) == TopDepth(g)
  {
    hide Nodes, Depth;
    if f != [] {
      EqualSums(f[1..], g[1..]);
    }
  }

  lemma {:induction false} EqualItems(v: Json, w: Json, i: nat)
    requires v.Arr? && w.Arr? && |v.items| == |w.items| && i <= |v.items|
    requires forall k :: 0 <= k < |v.items| ==>
               Nodes(v.items[k]) == Nodes(w.items[k]) && Depth(v.items[k]) == Depth(w.items[k])
    ensures NodesFrom(v, i) == NodesFrom(w, i) && DepthFrom(v, i) == DepthFrom(w, i)
    decreases |v.items| - i
  {
    if i < |v.items| {
      EqualItems(v, w, i + 1);
    }
  }

  lemma {:induction false} OrderedSize(v: Json)
    ensures Nodes(Ordered(v)) == Nodes(v) && Depth(Ordered(v)) == Depth(v)
    decreases v
  {
    match v
    case Arr(items) =>
      var w := Ordered(v);
      forall k | 0 <= k < |items| ensures Nodes(items[k]) == Nodes(w.items[k]) && Depth(items[k]) == Depth(w.items[k]) {
        OrderedSize(items[k]);
      }
      EqualItems(v, w, 0);
    case Obj(fields) =>
      forall k | 0 <= k < |fields|
        ensures Nodes(fields[k].value) == Nodes(Ordered(fields[k].value))
                && Depth(fields[k].value) == Depth(Ordered(fields[k].value))
      {
        OrderedSize(fields[k].value);
      }
      ObjectSize(fields);
    case _ =>
  }

  lemma ObjectSize(fields: seq<Field>)
    requires forall k :: 0 <= k < |fields| ==>
               && Nodes(fields[k].value) == Nodes(Ordered(fields[k].value))
               && Depth(fields[k].value) == Depth(Ordered(fields[k].value))
    ensures Nodes(Ordered(Obj(fields))) == Nodes(Obj(fields)) && Depth(Ordered(Obj(fields))) == Depth(Obj(fields))
  {
    hide SumNodes, TopDepth, Ordered;
    var plain := OrderedFields(fields);
    var sorted := Sort(plain, FieldBefore);
    OrderedObj(fields);
    SortKeeps(plain, FieldBefore);
    FieldSums(fields, 0);
    FieldSums(sorted, 0);
    assert fields[0..] == fields && sorted[0..] == sorted;
    EqualSums(fields, plain);
    SortSums(plain);
  }

  // Theorems

  /**
   The parser reads back what the printer writes, exactly within its limits: the
   value itself, its fields in order.
   */
  lemma RoundTrip(v: Json)
    requires WellFormed(v)
    ensures Stringify(v).Some?
    ensures Parse(Stringify(v).value, LIMITS) == if Depth(v) <= 64 && Nodes(v) <= 20000 then Some(Ordered(v)) else None
    ensures Same(v, Ordered(v))
  {
    WellFormedIsSafe(v);
    OrderedWellFormed(v);
    OrderedSize(v);
    ParseOfText(Ordered(v), LIMITS);
    OrderedTwice(v);
    OrderedIffSame(v, Ordered(v));
  }

  /** One text for one value: equal texts mean the same value, and field order never shows. */
  lemma StringifyIffSame(v: Json, w: Json)
    requires WellFormed(v) && WellFormed(w)
    ensures Stringify(v) == Stringify(w) <==> Same(v, w)
  {
    WellFormedIsSafe(v);
    WellFormedIsSafe(w);
    OrderedWellFormed(v);
    OrderedWellFormed(w);
    OrderedIffSame(v, w);
    if Stringify(v) == Stringify(w) {
      TextInjective(Ordered(v), Ordered(w));
    }
  }

  /** Canonical form is reached at once. */
  lemma {:induction false} OrderedTwice(v: Json)
    requires WellFormed(v)
    ensures Ordered(Ordered(v)) == Ordered(v)
    decreases v
  {
    match v
    case Arr(items) =>
      forall i | 0 <= i < |items| ensures Ordered(Ordered(items[i])) == Ordered(items[i]) {
        assert WellFormed(Child(v, i));
        OrderedTwice(items[i]);
      }
      OrderedArrays(Ordered(v), v);
    case Obj(fields) =>
      var plain := OrderedFields(fields);
      OrderedObj(fields);
      SortKeeps(plain, FieldBefore);
      SortedKeys(plain);
      var sorted := Sort(plain, FieldBefore);
      forall i | 0 <= i < |sorted| ensures Ordered(sorted[i].value) == sorted[i].value {
        assert sorted[i] in plain;
        var j :| 0 <= j < |fields| && plain[j] == sorted[i];
        assert WellFormed(Child(v, j));
        OrderedTwice(fields[j].value);
      }
      assert OrderedFields(sorted) == sorted;
      OrderedObjects(Ordered(v), v);
    case _ =>
  }

  // The printer as written

  function Join(parts: seq<string>): string
  {
    if parts == [] then "" else if |parts| == 1 then parts[0] else parts[0] + ("," + Join(parts[1..]))
  }

  lemma {:induction false} JoinIsMembers(w: Json, parts: seq<string>, i: nat)
    requires |parts| == Width(w) && i <= Width(w)
    requires forall j :: 0 <= j < |parts| ==> parts[j] == Member(w, j, Text(Child(w, j)))
    ensures Join(parts[i..]) == Members(w, i)
    decreases Width(w) - i
  {
    hide Member, Text;
    if i < Width(w) {
      JoinIsMembers(w, parts, i + 1);
      assert parts[i..][1..] == parts[i + 1..];
    }
  }

  lemma {:induction false} InsertMaps(x: Field, s: seq<Field>)
    ensures OrderedFields(Insert(x, s, FieldBefore)) ==
              Insert(Field(x.key, Ordered(x.value)), OrderedFields(s), FieldBefore)
  {
    hide Ordered;
    if s != [] && FieldBefore(s[0], x) {
      InsertMaps(x, s[1..]);
      assert OrderedFields(s)[1..] == OrderedFields(s[1..]);
      assert OrderedFields([s[0]] + Insert(x, s[1..], FieldBefore)) ==
             [Field(s[0].key, Ordered(s[0].value))] + OrderedFields(Insert(x, s[1..], FieldBefore));
    } else {
      assert OrderedFields([x] + s) == [Field(x.key, Ordered(x.value))] + OrderedFields(s);
    }
  }

  lemma {:induction false} SortMaps(s: seq<Field>)
    ensures OrderedFields(Sort(s, FieldBefore)) == Sort(OrderedFields(s), FieldBefore)
  {
    if s != [] {
      SortMaps(s[1..]);
      InsertMaps(s[0], Sort(s[1..], FieldBefore));
      assert OrderedFields(s)[1..] == OrderedFields(s[1..]);
    }
  }

  /** `serialize`. */
  method Serialize(v: Json) returns (r: Option<string>)
    ensures r == Stringify(v)
    decreases v, 1
  {
    match v
    case Null => return Some("null");
    case Bool(truth) => return Some(if truth then "true" else "false");
    case Str(text) => return Some(Quote(text));
    case Num(number) => return if Safe(number) then Some(NumberText(number)) else None;
    case Arr(_) => r := SerializeArray(v);
    case Obj(_) => r := SerializeObject(v);
  }

  method SerializeArray(v: Json) returns (r: Option<string>)
    requires v.Arr?
    ensures r == Stringify(v)
    decreases v, 0
  {
    hide Text, Ordered;
    var items, parts: seq<string> := v.items, [];
    for i := 0 to |items|
      invariant |parts| == i
      invariant forall j :: 0 <= j < i ==> AllSafe(items[j]) && parts[j] == Text(Ordered(items[j]))
    {
      var part := Serialize(items[i]);
      if part.None? {
        assert !AllSafe(Child(v, i));
        return None;
      }
      parts := parts + [part.value];
    }
    SerializedArray(v, parts);
    return Some("[" + (Join(parts) + "]"));
  }

  /** Sorts the properties first, then serializes them in that order. */
  method SerializeObject(v: Json) returns (r: Option<string>)
    requires v.Obj?
    ensures r == Stringify(v)
    decreases v, 0
  {
    hide Text, Ordered, Quote, Sort;
    var sorted, parts: seq<string> := Sort(v.fields, FieldBefore), [];
    for i := 0 to |sorted|
      invariant |parts| == i
      invariant forall j :: 0 <= j < i ==> AllSafe(sorted[j].value)
      invariant forall j :: 0 <= j < i ==> parts[j] == PropertyText(sorted[j])
    {
      ghost var k := SortedFrom(v.fields, i);
      assert sorted[i].value == Child(v, k);
      var part := Serialize(sorted[i].value);
      if part.None? {
        return None;
      }
      parts := parts + [Quote(sorted[i].key) + (":" + part.value)];
    }
    SerializedObject(v, sorted, parts);
    return Some("{" + (Join(parts) + "}"));
  }

  function PropertyText(f: Field): string
  {
    Quote(f.key) + (":" + Text(Ordered(f.value)))
  }

  lemma SortedFrom(fields: seq<Field>, i: nat) returns (k: nat)
    requires i < |Sort(fields, FieldBefore)|
    ensures k < |fields| && fields[k] == Sort(fields, FieldBefore)[i]
  {
    SortKeeps(fields, FieldBefore);
    assert Sort(fields, FieldBefore)[i] in fields;
    k :| 0 <= k < |fields| && fields[k] == Sort(fields, FieldBefore)[i];
  }

  lemma SerializedArray(v: Json, parts: seq<string>)
    requires v.Arr? && |parts| == |v.items|
    requires forall j :: 0 <= j < |parts| ==> AllSafe(v.items[j]) && parts[j] == Text(Ordered(v.items[j]))
    ensures Stringify(v) == Some("[" + (Join(parts) + "]"))
  {
    hide Join;
    var w := Ordered(v);
    JoinIsMembers(w, parts, 0);
    assert parts[0..] == parts;
  }

  lemma SerializedObject(v: Json, sorted: seq<Field>, parts: seq<string>)
    requires v.Obj? && sorted == Sort(v.fields, FieldBefore) && |parts| == |sorted|
    requires forall j :: 0 <= j < |sorted| ==> AllSafe(sorted[j].value) && parts[j] == PropertyText(sorted[j])
    ensures Stringify(v) == Some("{" + (Join(parts) + "}"))
  {
    hide Join, Quote, Sort, Ordered;
    SortKeeps(v.fields, FieldBefore);
    forall i | 0 <= i < Width(v) ensures AllSafe(Child(v, i)) {
      assert v.fields[i] in sorted;
    }
    SortMaps(v.fields);
    OrderedObj(v.fields);
    JoinIsMembers(Ordered(v), parts, 0);
    assert parts[0..] == parts;
  }

  // What the order and the text mean

  /** The strings agree before place `n`, where the first ends or has the lesser code point. */
  predicate Diverge(a: string, b: string, n: int)
  {
    0 <= n < |b| && n <= |a| && a[..n] == b[..n] && (n == |a| || a[n] < b[n])
  }

  predicate Precedes(a: string, b: string)
  {
    exists n :: 0 <= n <= |a| && Diverge(a, b, n)
  }

  /** The field of some key, its value in canonical form. */
  ghost predicate FieldOrdered(fields: seq<Field>, f: Field)
  {
    exists i :: 0 <= i < |fields| && f == Field(fields[i].key, Ordered(fields[i].value))
  }

  lemma {:induction false} LessMeans(a: string, b: string)
    ensures Less(a, b) <==> Precedes(a, b)
  {
    forall n | Diverge(a, b, n) && n > 0 ensures a != "" && b != "" && a[0] == b[0] {
      FirstAgrees(a, b, n);
    }
    if a != "" && b != "" && a[0] == b[0] {
      LessMeans(a[1..], b[1..]);
      if n :| Diverge(a[1..], b[1..], n) {
        assert a[..n + 1] == [a[0]] + a[1..][..n] && b[..n + 1] == [b[0]] + b[1..][..n];
        assert Diverge(a, b, n + 1);
      }
      if n :| Diverge(a, b, n) {
        assert n > 0;
        assert a[1..][..n - 1] == a[..n][1..] && b[1..][..n - 1] == b[..n][1..];
        assert Diverge(a[1..], b[1..], n - 1);
      }
    } else if Less(a, b) {
      assert Diverge(a, b, 0);
    }
  }

  lemma FirstAgrees(a: string, b: string, n: int)
    requires 0 < n <= |a| && n <= |b| && a[..n] == b[..n]
    ensures a[0] == b[0]
  {
    assert a[0] == a[..n][0] && b[0] == b[..n][0];
  }

  /** The canonical form of an object has the same fields, each value in its canonical form, by ascending key. */
  lemma OrderedAscends(v: Json)
    requires v.Obj? && DistinctKeys(v.fields)
    ensures var fields := Ordered(v).fields;
      && |fields| == |v.fields|
      && (forall i, j :: 0 <= i < j < |fields| ==> Precedes(fields[i].key, fields[j].key))
      && (forall f :: f in fields <==> FieldOrdered(v.fields, f))
  {
    hide Less, Diverge, Ordered;
    var fs := OrderedFields(v.fields);
    OrderedObj(v.fields);
    assert DistinctKeys(fs);
    SeparatedFields(fs);
    FieldOrder();
    SortSorts(fs, FieldBefore);
    SortKeeps(fs, FieldBefore);
    var fields := Sort(fs, FieldBefore);
    forall i, j | 0 <= i < j < |fields| ensures Precedes(fields[i].key, fields[j].key) {
      assert FieldBefore(fields[i], fields[j]);
      LessMeans(fields[i].key, fields[j].key);
    }
    forall f ensures f in fields <==> FieldOrdered(v.fields, f) {
      if f in fs {
        var i :| 0 <= i < |fs| && fs[i] == f;
      }
    }
  }
}
