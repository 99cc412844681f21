/**
 The parser undoes the printer.
 */
module JsonRoundTrip {
  import opened Common
  import opened Decimal
  import opened Json
  import opened JsonParser

  // Strings

  lemma CloseAfterPlain(c: char, t: string)
    requires c != '\"' && c != '\\'
    ensures CloseAt([c] + t) == if CloseAt(t).Some? then Some(CloseAt(t).value + 1) else None
  {
    hide CloseAt;
    ClosePlain([c] + t);
    assert ([c] + t)[1..] == t;
  }

  lemma ClosePlain(s: string)
    requires s != "" && s[0] != '\"' && s[0] != '\\'
    ensures CloseAt(s) == if CloseAt(s[1..]).Some? then Some(CloseAt(s[1..]).value + 1) else None
  {
  }

  lemma CloseAfterEscape(c: char, t: string)
    ensures CloseAt(['\\', c] + t) == if CloseAt(t).Some? then Some(CloseAt(t).value + 2) else None
  {
    assert (['\\', c] + t)[2..] == t;
  }

  lemma CloseAfterHex(a: char, b: char, c: char, d: char, t: string)
    requires a !in {'\"', '\\'} && b !in {'\"', '\\'} && c !in {'\"', '\\'} && d !in {'\"', '\\'}
    requires CloseAt(t).Some?
    ensures CloseAt(['\\', 'u', a, b, c, d] + t) == Some(CloseAt(t).value + 6)
  {
    hide CloseAt;
    var t3 := [d] + t;
    var t2 := [c] + t3;
    var t1 := [b] + t2;
    var t0 := [a] + t1;
    CloseAfterPlain(d, t);
    CloseAfterPlain(c, t3);
    CloseAfterPlain(b, t2);
    CloseAfterPlain(a, t1);
    CloseAfterEscape('u', t0);
    assert ['\\', 'u', a, b, c, d] + t == ['\\', 'u'] + t0;
  }

  lemma CloseAfterChar(c: char, t: string)
    requires CloseAt(t).Some?
    ensures CloseAt(EscapeChar(c) + t) == Some(CloseAt(t).value + |EscapeChar(c)|)
  {
    hide CloseAt, EscapeChar;
    var e := EscapeChar(c);
    EscapeShape(c);
    if |e| == 1 {
      CloseAfterPlain(c, t);
    } else if |e| == 2 {
      CloseAfterEscape(e[1], t);
    } else {
      CloseAfterHex('0', '0', e[4], e[5], t);
    }
  }

  /** A character is written as itself, as a two-character escape, or as a four-digit escape. */
  lemma EscapeShape(c: char)
    ensures var e := EscapeChar(c);
      || (e == [c] && c != '\"' && c != '\\')
      || (|e| == 2 && e == ['\\', e[1]])
      || (|e| == 6 && e == ['\\', 'u', '0', '0', e[4], e[5]]
          && e[4] != '\"' && e[4] != '\\' && e[5] != '\"' && e[5] != '\\')
  {
    if c as int < 32 {
      HexOfDigit(c as int / 16);
      HexOfDigit(c as int % 16);
    }
  }

  lemma EscapeStep(s: string)
    ensures Escape(s) == if s == "" then "" else EscapeChar(s[0]) + Escape(s[1..])
  {
  }

  lemma CloseAtOnce(s: string)
    requires s != "" && s[0] == '\"'
    ensures CloseAt(s) == Some(0)
  {
  }

  lemma {:induction false} CloseAfterEscaped(s: string, rest: string)
    ensures CloseAt(Escape(s) + ("\"" + rest)) == Some(|Escape(s)|)
  {
    hide EscapeChar, Escape, CloseAt;
    var tail := "\"" + rest;
    EscapeStep(s);
    if s == "" {
      assert Escape(s) + tail == tail;
      CloseAtOnce(tail);
    } else {
      CloseAfterEscaped(s[1..], rest);
      CloseAfterChar(s[0], Escape(s[1..]) + tail);
      assert Escape(s) + tail == EscapeChar(s[0]) + (Escape(s[1..]) + tail);
    }
  }

  lemma HexOfDigit(n: nat)
    requires n < 16
    ensures HexValue(HexDigit(n)) == Some(n) && HexDigit(n) != '\"' && HexDigit(n) != '\\'
  {
  }

  lemma UnescapeChar(c: char, t: string)
    ensures Unescape(EscapeChar(c) + t) == Prepend(Some(c), Unescape(t))
  {
    var e := EscapeChar(c);
    var s := e + t;
    if |e| == 6 {
      HexOfDigit(c as int / 16);
      HexOfDigit(c as int % 16);
      assert s[6..] == t;
      assert UnitEscape(s) == Some(c as int);
    } else if |e| == 2 {
      assert s[2..] == t && s[1] != 'u';
      assert SimpleEscape(s[1]) == Some(c);
    } else {
      assert s[1..] == t;
    }
  }

  lemma {:induction false} UnescapeEscaped(s: string)
    ensures Unescape(Escape(s)) == Some(s)
  {
    hide EscapeChar, Escape;
    EscapeStep(s);
    if s != "" {
      UnescapeEscaped(s[1..]);
      UnescapeChar(s[0], Escape(s[1..]));
      assert s == [s[0]] + s[1..];
    }
  }

  lemma QuoteReads(s: string, rest: string, nodes: nat)
    ensures Quote(s) + rest != "" && (Quote(s) + rest)[0] == '\"'
    ensures ReadString(Quote(s) + rest, nodes) == Some(Read(s, rest, nodes))
  {
    hide Escape, Unescape, CloseAt;
    var t := Quote(s) + rest;
    CloseAfterEscaped(s, rest);
    UnescapeEscaped(s);
    var n := |Escape(s)|;
    assert t[1..] == Escape(s) + ("\"" + rest);
    assert t[1..1 + n] == Escape(s);
    assert t[n + 2..] == rest;
  }

  // Numbers

  /** What follows does not continue a number. */
  predicate Ends(rest: string)
  {
    rest == "" || !IsDigit(rest[0])
  }

  lemma {:induction false} DigitsRead(w: string, rest: string)
    requires AllDigits(w) && Ends(rest)
    ensures DigitsAt(w + rest) == |w|
  {
    if w == "" {
      assert w + rest == rest;
    } else {
      assert (w + rest)[1..] == w[1..] + rest;
      DigitsRead(w[1..], rest);
    }
  }

  lemma NaturalReads(w: string, rest: string)
    requires Canonical(w) && Ends(rest)
    ensures NaturalAt(w + rest) == |w|
  {
    assert (w + rest)[0] == w[0];
    DigitsRead(w, rest);
  }

  lemma NumberReads(n: int, rest: string, nodes: nat)
    requires Safe(n) && Ends(rest)
    ensures ReadNumber(NumberText(n) + rest, nodes) == Some(Read(Num(n), rest, nodes))
    ensures NumberText(n) != "" && (NumberText(n)[0] == '-' || IsDigit(NumberText(n)[0]))
  {
    hide Digits, NaturalAt, DigitsAt, Value;
    var m: nat := Abs(n);
    var w := Digits(m);
    DigitsCanonical(m);
    NaturalReads(w, rest);
    var t := w + rest;
    assert t[..|w|] == w && t[|w|..] == rest;
    if n < 0 {
      SignedNumber(w, rest);
    } else {
      assert t[0] == w[0];
    }
  }

  lemma SignedNumber(w: string, rest: string)
    ensures ("-" + w) + rest == "-" + (w + rest) && ("-" + (w + rest))[1..] == w + rest
  {
  }

  // Values

  /** Texts begin with neither space nor a closing bracket. */
  predicate Begins(s: string)
  {
    s != "" && !IsSpace(s[0]) && s[0] != ']' && s[0] != '}'
  }

  lemma TextBegins(v: Json)
    ensures Begins(Text(v))
    ensures v.Arr? || v.Obj? || v.Str? ==> !IsDigit(Text(v)[0])
  {
    if v.Num? {
      DigitsCanonical(Abs(v.number));
    }
  }

  lemma SkipNothing(s: string)
    requires s == "" || !IsSpace(s[0])
    ensures Skip(s) == s
  {
  }

  predicate Fits(v: Json, depth: int, nodes: int, l: Limits)
  {
    depth + Depth(v) <= l.depth && nodes + Nodes(v) <= l.nodes
  }

  /** The members from the `i`-th on fit. */
  predicate MembersFit(v: Json, i: nat, depth: int, nodes: int, l: Limits)
    requires i <= Width(v)
  {
    depth + 1 + DepthFrom(v, i) <= l.depth && nodes + NodesFrom(v, i) <= l.nodes
  }

  lemma PlainReads(v: Json, rest: string, nodes: nat)
    requires WellFormed(v) && (v.Null? || v.Bool? || v.Num?) && Ends(rest)
    ensures ReadPlain(Scalar(v) + rest, nodes) == Some(Read(v, rest, nodes))
    ensures Begins(Scalar(v) + rest) && (Scalar(v) + rest)[0] !in {'\"', '[', '{'}
  {
    hide Digits, ReadNumber, NumberText;
    var s := Scalar(v) + rest;
    match v
    case Null =>
      assert s[..4] == "null" && s[4..] == rest && s[0] == 'n';
    case Bool(truth) =>
      var n := |Scalar(v)|;
      assert s[..n] == Scalar(v) && s[n..] == rest && s[0] == Scalar(v)[0];
    case Num(number) =>
      NumberReads(number, rest, nodes);
      assert s[0] == NumberText(number)[0];
  }

  lemma ScalarReads(v: Json, rest: string, depth: int, nodes: nat, l: Limits)
    requires WellFormed(v) && !v.Arr? && !v.Obj? && Ends(rest)
    ensures ReadValue(Scalar(v) + rest, depth, nodes, l) ==
              if depth <= l.depth && nodes + 1 <= l.nodes then Some(Read(v, rest, nodes + 1)) else None
  {
    hide ReadPlain, ReadString, ReadItems, ReadFields, Quote, NumberText, WellFormed;
    var s := Scalar(v) + rest;
    if v.Str? {
      QuoteReads(v.text, rest, nodes + 1);
    } else {
      PlainReads(v, rest, nodes + 1);
    }
    SkipNothing(s);
  }

  /** A value fits together with its later siblings exactly when it fits first and they fit after it. */
  lemma FitStep(v: Json, i: nat, depth: int, nodes: int, l: Limits)
    requires i < Width(v)
    ensures MembersFit(v, i, depth, nodes, l) <==>
              && Fits(Child(v, i), depth + 1, nodes, l)
              && MembersFit(v, i + 1, depth, nodes + Nodes(Child(v, i)), l)
    ensures NodesFrom(v, i) == Nodes(Child(v, i)) + NodesFrom(v, i + 1)
  {
  }

  lemma FitWhole(v: Json, depth: int, nodes: int, l: Limits)
    requires Width(v) > 0
    ensures Fits(v, depth, nodes, l) <==> MembersFit(v, 0, depth, nodes + 1, l)
    ensures Fits(v, depth, nodes, l) ==> depth <= l.depth && nodes + 1 <= l.nodes
  {
  }

  // One step of each reader

  lemma ItemsStep(s: string, depth: int, nodes: nat, l: Limits)
    ensures ReadValue(s, depth + 1, nodes, l).None? ==> ReadItems(s, depth, nodes, l).None?
    ensures ReadValue(s, depth + 1, nodes, l).Some? ==>
              var item := ReadValue(s, depth + 1, nodes, l).value;
              (item.rest != "" && item.rest[0] == ']' ==>
                 ReadItems(s, depth, nodes, l) == Some(Read([item.value], item.rest[1..], item.nodes)))
              && (item.rest != "" && item.rest[0] == ',' ==>
                    var more := ReadItems(item.rest[1..], depth, item.nodes, l);
                    ReadItems(s, depth, nodes, l) ==
                      if more.None? then None
                      else Some(Read([item.value] + more.value.value, more.value.rest, more.value.nodes)))
  {
  }

  lemma FieldsStep(s: string, depth: int, nodes: nat, keys: set<string>, l: Limits)
    requires ReadKey(s, nodes, keys).Some?
    ensures var key := ReadKey(s, nodes, keys).value;
      && (ReadValue(key.rest, depth + 1, nodes, l).None? ==> ReadFields(s, depth, nodes, keys, l).None?)
      && (ReadValue(key.rest, depth + 1, nodes, l).Some? ==>
            var item := ReadValue(key.rest, depth + 1, nodes, l).value;
            var field := Field(key.value, item.value);
            (item.rest != "" && item.rest[0] == '}' ==>
               ReadFields(s, depth, nodes, keys, l) == Some(Read([field], item.rest[1..], item.nodes)))
            && (item.rest != "" && item.rest[0] == ',' ==>
                  var more := ReadFields(item.rest[1..], depth, item.nodes, keys + {key.value}, l);
                  ReadFields(s, depth, nodes, keys, l) ==
                    if more.None? then None
                    else Some(Read([field] + more.value.value, more.value.rest, more.value.nodes))))
  {
    hide ReadKey;
  }

  lemma KeyReads(key: string, u: string, nodes: nat, keys: set<string>)
    requires key !in keys
    ensures ReadKey(Quote(key) + (":" + u), nodes, keys) == Some(Read(key, u, nodes))
  {
    hide Quote, ReadString;
    var tail := ":" + u;
    QuoteReads(key, tail, nodes);
    SkipNothing(Quote(key) + tail);
    SkipNothing(tail);
    assert tail[1..] == u;
  }

  // Containers

  /** What follows the `i`-th member inside its container. */
  function After(v: Json, i: nat, rest: string): string
    requires i < Width(v)
  {
    if i + 1 < Width(v) then "," + (Members(v, i + 1) + (Close(v) + rest)) else Close(v) + rest
  }

  function Close(v: Json): string
  {
    if v.Obj? then "}" else "]"
  }

  lemma AfterShape(v: Json, i: nat, rest: string)
    requires i < Width(v)
    ensures After(v, i, rest) != "" && Ends(After(v, i, rest))
    ensures After(v, i, rest)[0] == if i + 1 < Width(v) then ',' else Close(v)[0]
    ensures After(v, i, rest)[1..] == if i + 1 < Width(v) then Members(v, i + 1) + (Close(v) + rest) else rest
  {
    hide Members;
  }

  lemma Reassociate(q: string, text: string, sep: string, tail: string)
    ensures ((q + (":" + text)) + sep) + tail == q + (":" + (text + (sep + tail)))
    ensures (text + sep) + tail == text + (sep + tail)
    ensures ("," + sep) + tail == "," + (sep + tail)
  {
  }

  lemma MembersStep(v: Json, i: nat)
    requires i < Width(v)
    ensures Members(v, i) == Member(v, i, Text(Child(v, i))) + Separated(v, i + 1, Members(v, i + 1))
  {
  }

  lemma SeparatedAfter(v: Json, i: nat, rest: string)
    requires i < Width(v)
    ensures Separated(v, i + 1, Members(v, i + 1)) + (Close(v) + rest) == After(v, i, rest)
  {
    hide Members;
    LastMembers(v, i + 1);
    if i + 1 < Width(v) {
      Reassociate("", "", Members(v, i + 1), Close(v) + rest);
    } else {
      assert "" + (Close(v) + rest) == Close(v) + rest;
    }
  }

  lemma MembersSplit(v: Json, i: nat, rest: string)
    requires i < Width(v)
    ensures Members(v, i) + (Close(v) + rest) == Member(v, i, Text(Child(v, i)) + After(v, i, rest))
  {
    hide Quote, Text, Members, Separated, After, Close;
    var text, tail := Text(Child(v, i)), Close(v) + rest;
    var sep := Separated(v, i + 1, Members(v, i + 1));
    MembersStep(v, i);
    SeparatedAfter(v, i, rest);
    Reassociate(if v.Obj? then Quote(v.fields[i].key) else "", text, sep, tail);
  }

  lemma LastMembers(v: Json, i: nat)
    requires i <= Width(v)
    ensures i == Width(v) ==> Members(v, i) == ""
  {
  }

  lemma ChildWellFormed(v: Json, i: nat)
    requires WellFormed(v) && i < Width(v)
    ensures WellFormed(Child(v, i))
    ensures v.Obj? ==> DistinctKeys(v.fields)
  {
  }

  lemma {:induction false} ItemsRead(v: Json, i: nat, rest: string, depth: int, nodes: nat, l: Limits)
    requires v.Arr? && WellFormed(v) && i < Width(v)
    ensures ReadItems(Members(v, i) + ("]" + rest), depth, nodes, l) ==
              if MembersFit(v, i, depth, nodes, l)
              then Some(Read(v.items[i..], rest, nodes + NodesFrom(v, i))) else None
    decreases v, 0, Width(v) - i
  {
    hide ReadItems, ReadValue, Members, Text, MembersFit, Fits, After, Nodes, NodesFrom, WellFormed;
    var s, c, tail := Members(v, i) + ("]" + rest), Child(v, i), After(v, i, rest);
    MembersSplit(v, i, rest);
    AfterShape(v, i, rest);
    ChildWellFormed(v, i);
    ValueReads(c, tail, depth + 1, nodes, l);
    ItemsStep(s, depth, nodes, l);
    FitStep(v, i, depth, nodes, l);
    if i + 1 < Width(v) {
      ItemsRead(v, i + 1, rest, depth, nodes + Nodes(c), l);
      assert v.items[i..] == [c] + v.items[i + 1..];
    } else {
      LastFits(v, i, depth, nodes, l);
      assert v.items[i..] == [c];
    }
  }

  lemma LastFits(v: Json, i: nat, depth: int, nodes: int, l: Limits)
    requires i + 1 == Width(v)
    ensures Fits(Child(v, i), depth + 1, nodes, l) ==> MembersFit(v, i + 1, depth, nodes + Nodes(Child(v, i)), l)
    ensures NodesFrom(v, i) == Nodes(Child(v, i))
  {
  }

  function KeysBefore(fields: seq<Field>, i: nat): set<string>
    requires i <= |fields|
  {
    set j | 0 <= j < i :: fields[j].key
  }

  lemma {:induction false} FieldsRead(v: Json, i: nat, rest: string, depth: int, nodes: nat, l: Limits)
    requires v.Obj? && WellFormed(v) && i < Width(v)
    ensures ReadFields(Members(v, i) + ("}" + rest), depth, nodes, KeysBefore(v.fields, i), l) ==
              if MembersFit(v, i, depth, nodes, l)
              then Some(Read(v.fields[i..], rest, nodes + NodesFrom(v, i))) else None
    decreases v, 0, Width(v) - i
  {
    hide ReadFields, ReadValue, ReadKey, Members, Text, Quote, MembersFit, Fits, After, Nodes, NodesFrom, WellFormed;
    var s, c, tail := Members(v, i) + ("}" + rest), Child(v, i), After(v, i, rest);
    var keys, key := KeysBefore(v.fields, i), v.fields[i].key;
    MembersSplit(v, i, rest);
    AfterShape(v, i, rest);
    ChildWellFormed(v, i);
    KeyReads(key, Text(c) + tail, nodes, keys);
    ValueReads(c, tail, depth + 1, nodes, l);
    FieldsStep(s, depth, nodes, keys, l);
    FitStep(v, i, depth, nodes, l);
    assert v.fields[i] == Field(key, c);
    if i + 1 < Width(v) {
      FieldsRead(v, i + 1, rest, depth, nodes + Nodes(c), l);
      assert KeysBefore(v.fields, i + 1) == keys + {key};
      assert v.fields[i..] == [Field(key, c)] + v.fields[i + 1..];
    } else {
      LastFits(v, i, depth, nodes, l);
      assert v.fields[i..] == [Field(key, c)];
    }
  }

  lemma BracketText(v: Json, rest: string)
    requires v.Arr? || v.Obj?
    ensures var s := Text(v) + rest;
      s != "" && s[0] == (if v.Obj? then '{' else '[') && s[1..] == Members(v, 0) + (Close(v) + rest)
  {
    hide Members;
  }

  lemma MembersBegin(v: Json, rest: string)
    requires Width(v) > 0
    ensures Begins(Members(v, 0) + (Close(v) + rest))
  {
    hide Members, Text, Quote, After;
    var tail := Text(Child(v, 0)) + After(v, 0, rest);
    MembersSplit(v, 0, rest);
    if v.Obj? {
      QuoteReads(v.fields[0].key, ":" + tail, 0);
    } else {
      TextBegins(Child(v, 0));
      assert tail[0] == Text(Child(v, 0))[0];
    }
  }

  lemma ContainerText(v: Json, rest: string)
    requires v.Arr? || v.Obj?
    ensures var s := Text(v) + rest;
      && s != "" && s[0] == (if v.Obj? then '{' else '[') && s[1..] == Members(v, 0) + (Close(v) + rest)
      && (Width(v) == 0 ==> s[1..] == Close(v) + rest)
      && (Width(v) > 0 ==> Begins(s[1..]))
      && |s| >= 2 && s[1] == s[1..][0] && !IsSpace(s[1])
  {
    hide Members, Text;
    BracketText(v, rest);
    if Width(v) > 0 {
      MembersBegin(v, rest);
    } else {
      EmptyMembers(v);
      assert "" + (Close(v) + rest) == Close(v) + rest;
    }
  }

  lemma EmptyMembers(v: Json)
    requires Width(v) == 0
    ensures Members(v, 0) == "" && Depth(v) == 0 && Nodes(v) == 1
  {
  }

  /** Reading a container once its opening bracket is seen. */
  lemma ContainerStep(s: string, depth: int, nodes: nat, l: Limits)
    requires s != "" && (s[0] == '{' || s[0] == '[') && s[1..] != "" && !IsSpace(s[1])
    ensures depth > l.depth || nodes + 1 > l.nodes ==> ReadValue(s, depth, nodes, l).None?
    ensures depth <= l.depth && nodes + 1 <= l.nodes && s[0] == '{' ==>
              ReadValue(s, depth, nodes, l) ==
                if s[1] == '}' then Some(Read(Obj([]), s[2..], nodes + 1))
                else
                  var r := ReadFields(s[1..], depth, nodes + 1, {}, l);
                  if r.None? then None else Some(Read(Obj(r.value.value), r.value.rest, r.value.nodes))
    ensures depth <= l.depth && nodes + 1 <= l.nodes && s[0] == '[' ==>
              ReadValue(s, depth, nodes, l) ==
                if s[1] == ']' then Some(Read(Arr([]), s[2..], nodes + 1))
                else
                  var r := ReadItems(s[1..], depth, nodes + 1, l);
                  if r.None? then None else Some(Read(Arr(r.value.value), r.value.rest, r.value.nodes))
  {
    hide ReadPlain, ReadString, ReadItems, ReadFields;
    SkipNothing(s);
    SkipNothing(s[1..]);
    assert s[1..][1..] == s[2..];
  }

  lemma {:induction false} ContainerReads(v: Json, rest: string, depth: int, nodes: nat, l: Limits)
    requires WellFormed(v) && (v.Arr? || v.Obj?)
    ensures ReadValue(Text(v) + rest, depth, nodes, l) ==
              if Fits(v, depth, nodes, l) then Some(Read(v, rest, nodes + Nodes(v))) else None
    decreases v, 1, 0
  {
    hide ReadValue, ReadItems, ReadFields, Text, Members, Quote, MembersFit;
    var s := Text(v) + rest;
    ContainerText(v, rest);
    ContainerStep(s, depth, nodes, l);
    if Width(v) == 0 {
      EmptyMembers(v);
      assert s[2..] == s[1..][1..] == rest;
    } else {
      FitWhole(v, depth, nodes, l);
      if v.Arr? {
        ItemsRead(v, 0, rest, depth, nodes + 1, l);
        assert v.items[0..] == v.items;
      } else {
        FieldsRead(v, 0, rest, depth, nodes + 1, l);
        assert v.fields[0..] == v.fields && KeysBefore(v.fields, 0) == {};
      }
    }
  }

  /** A printed value is read back, and what follows it is left, exactly when it fits the limits. */
  lemma {:induction false} ValueReads(v: Json, rest: string, depth: int, nodes: nat, l: Limits)
    requires WellFormed(v) && Ends(rest)
    ensures ReadValue(Text(v) + rest, depth, nodes, l) ==
              if Fits(v, depth, nodes, l) then Some(Read(v, rest, nodes + Nodes(v))) else None
    decreases v, 2, 0
  {
    if v.Arr? || v.Obj? {
      ContainerReads(v, rest, depth, nodes, l);
    } else {
      hide ReadValue, Scalar;
      ScalarReads(v, rest, depth, nodes, l);
      EmptyMembers(v);
    }
  }

  /** Parsing undoes printing, exactly within the limits. */
  lemma ParseOfText(v: Json, l: Limits)
    requires WellFormed(v)
    ensures Parse(Text(v), l) == if Depth(v) <= l.depth && Nodes(v) <= l.nodes then Some(v) else None
  {
    hide ReadValue, Text;
    ValueReads(v, "", 0, 0, l);
    assert Text(v) + "" == Text(v);
  }

  /** Different values print differently. */
  lemma TextInjective(v: Json, w: Json)
    requires WellFormed(v) && WellFormed(w) && Text(v) == Text(w)
    ensures v == w
  {
    var l := Limits(Max(Depth(v), Depth(w)), Max(Nodes(v), Nodes(w)));
    ParseOfText(v, l);
    ParseOfText(w, l);
  }
}
