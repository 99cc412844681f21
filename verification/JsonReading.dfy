/**
 The bounded parser reads exactly the texts of the JSON grammar, within its limits.
 */
module JsonReading {
  import opened Common
  import opened Decimal
  import opened Json
  import opened JsonParser
  import opened JsonGrammar
  import opened JsonRoundTrip
  import opened JsonSoundness

  // White space

  lemma {:induction false} SkipWhite(w: string, s: string)
    requires White(w)
    ensures Skip(w + s) == Skip(s)
  {
    if w == "" {
      assert w + s == s;
    } else {
      SkipWhite(w[1..], s);
      assert (w + s)[1..] == w[1..] + s;
    }
  }

  lemma {:induction false} SkippedIsWhite(s: string) returns (w: string)
    ensures White(w) && s == w + Skip(s)
  {
    if s != "" && IsSpace(s[0]) {
      var v := SkippedIsWhite(s[1..]);
      w := [s[0]] + v;
    } else {
      w := "";
    }
  }

  // Hexadecimal digits

  lemma NibbleExactly(c: char, n: nat)
    ensures HexValue(c) == Some(n) <==> SpellsNibble(c, n)
  {
  }

  lemma Nibbles(h: nat, i: nat, j: nat, k: nat)
    requires h < 16 && i < 16 && j < 16 && k < 16
    ensures var unit := ((h * 16 + i) * 16 + j) * 16 + k;
      unit < 0x10000 && unit / 0x1000 == h && unit / 0x100 % 16 == i && unit / 0x10 % 16 == j && unit % 16 == k
  {
  }

  lemma UnitRead(a: char, b: char, c: char, d: char)
    requires HexUnit(a, b, c, d).Some?
    ensures SpellsUnit([a, b, c, d], HexUnit(a, b, c, d).value)
  {
    hide HexValue, SpellsNibble;
    var h, i, j, k := HexValue(a).value, HexValue(b).value, HexValue(c).value, HexValue(d).value;
    NibbleExactly(a, h);
    NibbleExactly(b, i);
    NibbleExactly(c, j);
    NibbleExactly(d, k);
    NibbleSmall(a, h);
    NibbleSmall(b, i);
    NibbleSmall(c, j);
    NibbleSmall(d, k);
    Nibbles(h, i, j, k);
  }

  lemma UnitSpelled(digits: string, unit: nat)
    requires SpellsUnit(digits, unit)
    ensures HexUnit(digits[0], digits[1], digits[2], digits[3]) == Some(unit)
  {
    hide HexValue, SpellsNibble;
    var h, i, j, k := unit / 0x1000, unit / 0x100 % 16, unit / 0x10 % 16, unit % 16;
    NibbleExactly(digits[0], h);
    NibbleExactly(digits[1], i);
    NibbleExactly(digits[2], j);
    NibbleExactly(digits[3], k);
    Regroup(unit);
  }

  lemma Regroup(unit: nat)
    ensures ((unit / 0x1000 * 16 + unit / 0x100 % 16) * 16 + unit / 0x10 % 16) * 16 + unit % 16 == unit
  {
    SixteenthTwice(unit);
    SixteenthOfSixteenths(unit);
    Sixteenth(unit);
    Sixteenth(unit / 0x10);
    Sixteenth(unit / 0x100);
  }

  lemma Sixteenth(n: nat)
    ensures n / 16 * 16 + n % 16 == n
  {
  }

  lemma SixteenthTwice(n: nat)
    ensures n / 16 / 16 == n / 0x100
  {
  }

  lemma SixteenthOfSixteenths(n: nat)
    ensures n / 0x100 / 16 == n / 0x1000
  {
  }

  lemma UnitExactly(digits: string, unit: nat)
    requires |digits| == 4
    ensures HexUnit(digits[0], digits[1], digits[2], digits[3]) == Some(unit) <==> SpellsUnit(digits, unit)
  {
    hide HexUnit, SpellsUnit;
    if HexUnit(digits[0], digits[1], digits[2], digits[3]) == Some(unit) {
      UnitRead(digits[0], digits[1], digits[2], digits[3]);
      assert digits == [digits[0], digits[1], digits[2], digits[3]];
    }
    if SpellsUnit(digits, unit) {
      UnitSpelled(digits, unit);
    }
  }

  lemma NibbleSmall(c: char, n: nat)
    requires SpellsNibble(c, n)
    ensures n < 16 && c != '\"' && c != '\\'
  {
  }

  // One character

  lemma ShortExactly(letter: char, c: char)
    ensures SimpleEscape(letter) == Some(c) <==> letter in SHORT_ESCAPES && c as int == SHORT_ESCAPES[letter]
  {
  }

  lemma UnitEscapeOf(digits: string, t: string, unit: nat)
    requires SpellsUnit(digits, unit)
    ensures UnitEscape("\\u" + digits + t) == Some(unit) && ("\\u" + digits + t)[6..] == t
  {
    hide HexUnit;
    UnitExactly(digits, unit);
  }

  lemma UnescapeUnit(p: Piece, t: string)
    requires p.Unit? && LawfulPiece(p)
    ensures Unescape(PieceText(p) + t) == Prepend(Some(p.said), Unescape(t))
  {
    hide SpellsUnit, UnitEscape, Unescape;
    var s, code := PieceText(p) + t, p.said as int;
    UnitEscapeOf(p.digits, t, code);
    assert s == "\\u" + p.digits + t && s[0] == '\\' && s[1] == 'u';
    assert UnicodeEscape(s) == Some((p.said, 6)) by {
      assert !IsHigh(code) && !IsLow(code) && code < 0x10000 by {
        NotSurrogate(p.digits, p.said);
      }
    }
    UnescapeUnicode(s);
  }

  /** A character is never half of a pair. */
  lemma NotSurrogate(digits: string, c: char)
    requires SpellsUnit(digits, c as int)
    ensures !IsHigh(c as int) && !IsLow(c as int) && c as int < 0x10000
  {
  }

  lemma SurrogateParts(code: int)
    requires 0x10000 <= code < 0x110000
    ensures var high, low := 0xD800 + (code - 0x10000) / 0x400, 0xDC00 + (code - 0x10000) % 0x400;
      IsHigh(high) && IsLow(low) && 0x10000 + (high - 0xD800) * 0x400 + (low - 0xDC00) == code
  {
  }

  lemma UnescapePair(p: Piece, t: string)
    requires p.Pair? && LawfulPiece(p)
    ensures Unescape(PieceText(p) + t) == Prepend(Some(p.said), Unescape(t))
  {
    hide SpellsUnit, UnitEscape, Unescape;
    var code := p.said as int;
    SurrogateParts(code);
    var s := PieceText(p) + t;
    UnitEscapeOf(p.low, t, 0xDC00 + (code - 0x10000) % 0x400);
    UnitLength(p.low, 0xDC00 + (code - 0x10000) % 0x400);
    UnitLength(p.high, 0xD800 + (code - 0x10000) / 0x400);
    UnitEscapeOf(p.high, "\\u" + p.low + t, 0xD800 + (code - 0x10000) / 0x400);
    PairText(p.high, p.low, t);
    assert UnicodeEscape(s) == Some((p.said, 12));
    UnescapeUnicode(s);
  }

  lemma PairText(high: string, low: string, t: string)
    requires |high| == 4 && |low| == 4
    ensures var s := ("\\u" + high) + ("\\u" + low) + t;
      s == "\\u" + high + ("\\u" + low + t) && s[12..] == t && s[0] == '\\' && s[1] == 'u'
  {
  }

  lemma UnescapeUnicode(s: string)
    requires |s| >= 2 && s[0] == '\\' && s[1] == 'u' && UnicodeEscape(s).Some?
    ensures var c := UnicodeEscape(s).value; Unescape(s) == Prepend(Some(c.0), Unescape(s[c.1..]))
  {
  }

  lemma UnescapePiece(p: Piece, t: string)
    requires LawfulPiece(p)
    ensures Unescape(PieceText(p) + t) == Prepend(Some(p.said), Unescape(t))
  {
    if p.Unit? {
      UnescapeUnit(p, t);
    } else if p.Pair? {
      UnescapePair(p, t);
    } else if p.Short? {
      ShortExactly(p.letter, p.said);
      assert (PieceText(p) + t)[2..] == t;
    } else {
      assert (PieceText(p) + t)[1..] == t;
    }
  }

  // Strings

  lemma {:induction false} UnescapePieces(ps: seq<Piece>)
    requires LawfulPieces(ps)
    ensures Unescape(PiecesText(ps)) == Some(Said(ps))
  {
    hide LawfulPiece, PieceText, Unescape;
    if ps == [] {
      UnescapeNothing();
    } else {
      UnescapePieces(ps[1..]);
      UnescapePiece(ps[0], PiecesText(ps[1..]));
      assert Said(ps) == [ps[0].said] + Said(ps[1..]);
    }
  }

  lemma UnescapeNothing()
    ensures Unescape("") == Some("")
  {
  }

  lemma UnitDigits(digits: string, unit: int)
    requires SpellsUnit(digits, unit)
    ensures |digits| == 4 && forall i :: 0 <= i < 4 ==> digits[i] != '\"' && digits[i] != '\\'
  {
    hide SpellsNibble;
    NibbleSmall(digits[0], unit / 0x1000);
    NibbleSmall(digits[1], unit / 0x100 % 16);
    NibbleSmall(digits[2], unit / 0x10 % 16);
    NibbleSmall(digits[3], unit % 16);
  }

  lemma CloseAfterUnit(digits: string, t: string, unit: int)
    requires SpellsUnit(digits, unit) && CloseAt(t).Some?
    ensures CloseAt(("\\u" + digits) + t) == Some(CloseAt(t).value + 6)
  {
    hide CloseAt, SpellsUnit;
    UnitDigits(digits, unit);
    CloseAfterHex(digits[0], digits[1], digits[2], digits[3], t);
    assert "\\u" + digits == ['\\', 'u', digits[0], digits[1], digits[2], digits[3]];
  }

  lemma CloseAfterPiece(p: Piece, t: string)
    requires LawfulPiece(p) && CloseAt(t).Some?
    ensures CloseAt(PieceText(p) + t) == Some(CloseAt(t).value + |PieceText(p)|)
  {
    hide CloseAt, SpellsUnit;
    match p
    case Plain(c) => CloseAfterPlain(c, t);
    case Short(letter, _) => CloseAfterEscape(letter, t);
    case Unit(digits, c) =>
      UnitLength(digits, c as int);
      CloseAfterUnit(digits, t, c as int);
    case Pair(high, low, c) => CloseAfterPair(p, t);
  }

  lemma CloseAfterPair(p: Piece, t: string)
    requires p.Pair? && LawfulPiece(p) && CloseAt(t).Some?
    ensures CloseAt(PieceText(p) + t) == Some(CloseAt(t).value + |PieceText(p)|)
  {
    hide CloseAt, SpellsUnit;
    var code := p.said as int;
    CloseAfterUnits(p.high, p.low, 0xD800 + (code - 0x10000) / 0x400, 0xDC00 + (code - 0x10000) % 0x400, t);
  }

  lemma CloseAfterUnits(high: string, low: string, h: int, l: int, t: string)
    requires SpellsUnit(high, h) && SpellsUnit(low, l) && CloseAt(t).Some?
    ensures |high| == 4 && |low| == 4
    ensures CloseAt((("\\u" + high) + ("\\u" + low)) + t) == Some(CloseAt(t).value + 12)
  {
    hide CloseAt, SpellsUnit;
    UnitLength(high, h);
    UnitLength(low, l);
    CloseAfterUnit(low, t, l);
    CloseAfterUnit(high, ("\\u" + low) + t, h);
    assert (("\\u" + high) + ("\\u" + low)) + t == ("\\u" + high) + (("\\u" + low) + t);
  }

  lemma UnitLength(digits: string, unit: int)
    requires SpellsUnit(digits, unit)
    ensures |digits| == 4
  {
  }

  lemma {:induction false} CloseAfterPieces(ps: seq<Piece>, rest: string)
    requires LawfulPieces(ps)
    ensures CloseAt(PiecesText(ps) + ("\"" + rest)) == Some(|PiecesText(ps)|)
  {
    hide LawfulPiece, PieceText, CloseAt;
    var tail := "\"" + rest;
    if ps == [] {
      assert PiecesText(ps) + tail == tail;
      CloseAtOnce(tail);
    } else {
      CloseAfterPieces(ps[1..], rest);
      CloseAfterPiece(ps[0], PiecesText(ps[1..]) + tail);
      assert PiecesText(ps) + tail == PieceText(ps[0]) + (PiecesText(ps[1..]) + tail);
    }
  }

  /** A quoted string is read as what it says. */
  lemma QuotedReads(ps: seq<Piece>, rest: string, nodes: nat)
    requires LawfulPieces(ps)
    ensures Quoted(ps) + rest != "" && (Quoted(ps) + rest)[0] == '\"'
    ensures ReadString(Quoted(ps) + rest, nodes) == Some(Read(Said(ps), rest, nodes))
  {
    hide PiecesText, Unescape, CloseAt, LawfulPieces;
    var t, b := Quoted(ps) + rest, PiecesText(ps);
    CloseAfterPieces(ps, rest);
    UnescapePieces(ps);
    assert t[1..] == b + ("\"" + rest);
    assert t[1..1 + |b|] == b;
    assert t[|b| + 2..] == rest;
  }

  /** The first character of a readable body, as it is written. */
  lemma FirstPiece(b: string) returns (p: Piece)
    requires b != "" && Unescape(b).Some?
    ensures LawfulPiece(p) && 0 < |PieceText(p)| <= |b| && b == PieceText(p) + b[|PieceText(p)|..]
  {
    hide HexUnit, SpellsUnit;
    if b[0] != '\\' {
      p := Plain(b[0]);
    } else if b[1] != 'u' {
      var c := SimpleEscape(b[1]).value;
      ShortExactly(b[1], c);
      p := Short(b[1], c);
      assert b == PieceText(p) + b[2..];
    } else {
      var r := UnicodeEscape(b).value;
      var unit := UnitEscape(b).value;
      UnitExactly(b[2..6], unit);
      if r.1 == 6 {
        p := Unit(b[2..6], r.0);
        assert b == PieceText(p) + b[6..];
      } else {
        p := FirstPair(b);
      }
    }
  }

  lemma FirstPair(b: string) returns (p: Piece)
    requires UnicodeEscape(b).Some? && UnicodeEscape(b).value.1 == 12
    ensures LawfulPiece(p) && |PieceText(p)| == 12 && b == PieceText(p) + b[12..]
  {
    hide HexUnit, SpellsUnit;
    var c := UnicodeEscape(b).value.0;
    var high, low := UnitEscape(b).value, UnitEscape(b[6..]).value;
    UnitExactly(b[2..6], high);
    UnitExactly(b[6..][2..6], low);
    PairParts(high, low);
    p := Pair(b[2..6], b[6..][2..6], c);
    assert b == PieceText(p) + b[12..];
  }

  lemma PairParts(high: nat, low: nat)
    requires IsHigh(high) && IsLow(low)
    ensures var code := 0x10000 + (high - 0xD800) * 0x400 + (low - 0xDC00);
      && 0x10000 <= code < 0x110000
      && high == 0xD800 + (code - 0x10000) / 0x400 && low == 0xDC00 + (code - 0x10000) % 0x400
  {
  }

  /** A readable body is written in pieces that say what is read. */
  lemma {:induction false} BodyInPieces(b: string) returns (ps: seq<Piece>)
    requires Unescape(b).Some?
    ensures LawfulPieces(ps) && PiecesText(ps) == b && Unescape(b) == Some(Said(ps))
    decreases |b|
  {
    hide Unescape, LawfulPiece, PieceText;
    if b == "" {
      UnescapeNothing();
      ps := [];
      assert Said(ps) == "";
    } else {
      var p := FirstPiece(b);
      var t := b[|PieceText(p)|..];
      UnescapePiece(p, t);
      var more := BodyInPieces(t);
      ps := [p] + more;
      assert ps[1..] == more;
      UnescapePieces(ps);
    }
  }

  lemma StringInPieces(s: string, nodes: nat) returns (ps: seq<Piece>)
    requires s != "" && s[0] == '\"' && ReadString(s, nodes).Some?
    ensures var r := ReadString(s, nodes).value;
      LawfulPieces(ps) && r.value == Said(ps) && s == Quoted(ps) + r.rest && r.nodes == nodes
  {
    hide Unescape, LawfulPieces, PiecesText, Said;
    var n := CloseAt(s[1..]).value;
    ps := BodyInPieces(s[1..1 + n]);
    assert s == Quoted(ps) + s[n + 2..];
  }

  // Reading a tree

  lemma LeadingWhite(w: string, s: string, depth: int, nodes: nat, l: Limits)
    requires White(w)
    ensures ReadValue(w + s, depth, nodes, l) == ReadValue(s, depth, nodes, l)
  {
    hide ReadString, ReadArray, ReadObject, ReadPlain;
    SkipWhite(w, s);
  }

  lemma SkipTwice(s: string)
    ensures Skip(Skip(s)) == Skip(s)
  {
    SkipNothing(Skip(s));
  }

  lemma ItemsFromSkipped(s: string, depth: int, nodes: nat, l: Limits)
    ensures ReadItems(Skip(s), depth, nodes, l) == ReadItems(s, depth, nodes, l)
  {
    hide ReadValue;
    var w := SkippedIsWhite(s);
    LeadingWhite(w, Skip(s), depth + 1, nodes, l);
  }

  lemma FieldsFromSkipped(s: string, depth: int, nodes: nat, keys: set<string>, l: Limits)
    ensures ReadFields(Skip(s), depth, nodes, keys, l) == ReadFields(s, depth, nodes, keys, l)
  {
    hide ReadValue, ReadString;
    SkipTwice(s);
  }

  lemma ItemsReadStep(s: string, item: Read<Json>, depth: int, nodes: nat, l: Limits)
    requires ReadValue(s, depth + 1, nodes, l) == Some(item)
    ensures ReadItems(s, depth, nodes, l) ==
              var t := Skip(item.rest);
              if t == "" then None
              else if t[0] == ']' then Some(Read([item.value], t[1..], item.nodes))
              else if t[0] != ',' then None
              else
                var more := ReadItems(t[1..], depth, item.nodes, l);
                if more.None? then None
                else Some(Read([item.value] + more.value.value, more.value.rest, more.value.nodes))
  {
    hide ReadValue, Skip;
  }

  lemma FieldsReadStep(
    s: string, key: Read<string>, item: Read<Json>, depth: int, nodes: nat, keys: set<string>, l: Limits)
    requires ReadKey(s, nodes, keys) == Some(key) && ReadValue(key.rest, depth + 1, nodes, l) == Some(item)
    ensures ReadFields(s, depth, nodes, keys, l) ==
              var t, field := Skip(item.rest), Field(key.value, item.value);
              if t == "" then None
              else if t[0] == '}' then Some(Read([field], t[1..], item.nodes))
              else if t[0] != ',' then None
              else
                var more := ReadFields(t[1..], depth, item.nodes, keys + {field.key}, l);
                if more.None? then None
                else Some(Read([field] + more.value.value, more.value.rest, more.value.nodes))
  {
    hide ReadValue, ReadKey, Skip;
  }

  lemma NumberTreeText(t: Tree)
    requires t.Number? && Lawful(t)
    ensures TreeText(t) == NumberText(Denoted(t).number)
  {
    hide Digits;
    CanonicalUnique(t.digits);
    ZeroAlone(t.digits);
    if t.minus {
      CanonicalPositive(t.digits);
    }
  }

  lemma ZeroAlone(digits: string)
    requires Canonical(digits)
    ensures digits[0] == '0' <==> digits == "0"
  {
  }

  lemma PlainTreeText(t: Tree)
    requires (t.Word? || t.Number?) && Lawful(t)
    ensures var v := Denoted(t); (v.Null? || v.Bool? || v.Num?) && TreeText(t) == Scalar(v)
  {
    hide NumberText, Value;
    if t.Number? {
      NumberTreeText(t);
    }
  }

  lemma TreeBegins(t: Tree, rest: string)
    requires Lawful(t)
    ensures Begins(TreeText(t) + rest)
  {
    hide ItemsText, EntriesText, PiecesText, NumberText;
    if t.Word? || t.Number? {
      PlainTreeText(t);
      PlainBegins(Denoted(t), rest);
    }
  }

  lemma PlainBegins(v: Json, rest: string)
    requires v.Null? || v.Bool? || v.Num?
    ensures Begins(Scalar(v) + rest)
  {
    hide Digits;
    if v.Num? {
      DigitsCanonical(Abs(v.number));
    }
  }

  lemma QuotationReads(ps: seq<Piece>, rest: string, depth: int, nodes: nat, l: Limits)
    requires LawfulPieces(ps) && depth <= l.depth && nodes + 1 <= l.nodes
    ensures ReadValue(Quoted(ps) + rest, depth, nodes, l) == Some(Read(Str(Said(ps)), rest, nodes + 1))
  {
    hide ReadString, Quoted, Said;
    QuotedReads(ps, rest, nodes + 1);
    SkipNothing(Quoted(ps) + rest);
  }

  lemma Push(a: string, b: string, c: string, x: string, tail: string)
    ensures (a + (b + (c + x))) + tail == a + (b + (c + (x + tail)))
  {
  }

  /** What follows a member: its white space, then a comma and more, or the bracket. */
  function Following(after: string, last: bool, more: string, tail: string): string
  {
    after + if last then tail else "," + (more + tail)
  }

  lemma FollowingSkips(after: string, last: bool, more: string, tail: string)
    requires White(after) && tail != "" && !IsSpace(tail[0]) && !IsDigit(tail[0])
    ensures Skip(Following(after, last, more, tail)) == if last then tail else "," + (more + tail)
    ensures Ends(Following(after, last, more, tail))
  {
    var x := if last then tail else "," + (more + tail);
    SkipWhite(after, x);
    SkipNothing(x);
  }

  lemma ItemsTextSplit(s: Items, tail: string)
    requires s.Item?
    ensures ItemsText(s) + tail ==
              s.before + (TreeText(s.tree) + Following(s.after, s.rest.NoItems?, ItemsText(s.rest), tail))
  {
    hide TreeText;
    var more := ItemsText(s.rest);
    var x := if s.rest.NoItems? then "" else "," + more;
    Push(s.before, TreeText(s.tree), s.after, x, tail);
    assert x + tail == if s.rest.NoItems? then tail else "," + (more + tail);
  }

  lemma {:induction false} ItemsTreeRead(
    s: Items, v: Json, i: nat, rest: string, depth: int, nodes: nat, l: Limits)
    requires s.Item? && LawfulItems(s) && v.Arr? && WellFormed(v) && i < Width(v)
    requires v.items[i..] == DenotedItems(s) && MembersFit(v, i, depth, nodes, l)
    ensures ReadItems(ItemsText(s) + ("]" + rest), depth, nodes, l) ==
              Some(Read(v.items[i..], rest, nodes + NodesFrom(v, i)))
    decreases s
  {
    hide ReadItems, ReadValue, TreeText, ItemsText, MembersFit, Fits, Nodes, NodesFrom, WellFormed, Following;
    hide Denoted, Lawful, Skip;
    var tail, c := "]" + rest, Child(v, i);
    var after := Following(s.after, s.rest.NoItems?, ItemsText(s.rest), tail);
    assert c == Denoted(s.tree) && v.items[i + 1..] == DenotedItems(s.rest) by {
      ItemsShifted(v.items, i, s);
    }
    ItemsTextSplit(s, tail);
    FollowingSkips(s.after, s.rest.NoItems?, ItemsText(s.rest), tail);
    ChildWellFormed(v, i);
    FitStep(v, i, depth, nodes, l);
    TreeReads(s.tree, after, depth + 1, nodes, l);
    LeadingWhite(s.before, TreeText(s.tree) + after, depth + 1, nodes, l);
    var item := Read(c, after, nodes + Nodes(c));
    ItemsReadStep(ItemsText(s) + tail, item, depth, nodes, l);
    if s.rest.NoItems? {
      LastFits(v, i, depth, nodes, l);
      assert tail[1..] == rest && v.items[i..] == [c];
    } else {
      assert ("," + (ItemsText(s.rest) + tail))[1..] == ItemsText(s.rest) + tail;
      ItemsTreeRead(s.rest, v, i + 1, rest, depth, nodes + Nodes(c), l);
      assert v.items[i..] == [c] + v.items[i + 1..];
    }
  }

  lemma ItemsShifted(items: seq<Json>, i: nat, s: Items)
    requires s.Item? && LawfulItems(s) && i < |items| && items[i..] == DenotedItems(s)
    ensures items[i] == Denoted(s.tree) && items[i + 1..] == DenotedItems(s.rest)
    ensures s.rest.NoItems? <==> i + 1 == |items|
  {
    hide Denoted, Lawful;
    assert items[i] == items[i..][0] && items[i + 1..] == items[i..][1..];
    assert s.rest.Item? ==> |DenotedItems(s.rest)| > 0;
  }

  lemma EntriesShifted(fields: seq<Field>, i: nat, s: Entries)
    requires s.Entry? && LawfulEntries(s) && i < |fields| && fields[i..] == DenotedEntries(s)
    ensures fields[i] == Field(Said(s.key), Denoted(s.tree)) && fields[i + 1..] == DenotedEntries(s.rest)
    ensures s.rest.NoEntries? <==> i + 1 == |fields|
  {
    hide Denoted, Lawful, Said;
    assert fields[i] == fields[i..][0] && fields[i + 1..] == fields[i..][1..];
    assert s.rest.Entry? ==> |DenotedEntries(s.rest)| > 0;
  }

  lemma EntriesTextSplit(s: Entries, tail: string)
    requires s.Entry?
    ensures EntriesText(s) + tail ==
              s.before + (Quoted(s.key) + (s.between + (":" + (s.lead + (TreeText(s.tree) +
                Following(s.after, s.rest.NoEntries?, EntriesText(s.rest), tail))))))
  {
    hide TreeText, Quoted;
    var more := EntriesText(s.rest);
    var x := if s.rest.NoEntries? then "" else "," + more;
    var inner := s.lead + (TreeText(s.tree) + (s.after + x));
    Push(s.before, Quoted(s.key), s.between, ":" + inner, tail);
    Push(":", "", "", inner, tail);
    assert (":" + inner) + tail == ":" + (inner + tail);
    Push(s.lead, TreeText(s.tree), s.after, x, tail);
    assert x + tail == if s.rest.NoEntries? then tail else "," + (more + tail);
  }

  lemma KeyTreeReads(s: Entries, u: string, nodes: nat, keys: set<string>)
    requires s.Entry? && LawfulEntries(s) && Said(s.key) !in keys
    ensures ReadKey(s.before + (Quoted(s.key) + (s.between + (":" + u))), nodes, keys)
            == Some(Read(Said(s.key), u, nodes))
  {
    hide ReadString, Quoted, Said, LawfulPieces;
    var colon := ":" + u;
    var text := Quoted(s.key) + (s.between + colon);
    QuotedReads(s.key, s.between + colon, nodes);
    SkipWhite(s.before, text);
    SkipNothing(text);
    SkipWhite(s.between, colon);
    SkipNothing(colon);
    assert colon[1..] == u;
  }

  lemma {:induction false} EntriesTreeRead(
    s: Entries, v: Json, i: nat, rest: string, depth: int, nodes: nat, l: Limits)
    requires s.Entry? && LawfulEntries(s) && v.Obj? && WellFormed(v) && i < Width(v)
    requires v.fields[i..] == DenotedEntries(s) && MembersFit(v, i, depth, nodes, l)
    ensures ReadFields(EntriesText(s) + ("}" + rest), depth, nodes, KeysBefore(v.fields, i), l) ==
              Some(Read(v.fields[i..], rest, nodes + NodesFrom(v, i)))
    decreases s
  {
    hide ReadFields, ReadValue, ReadKey, TreeText, EntriesText, MembersFit, Fits, Nodes, NodesFrom, WellFormed;
    hide Denoted, Lawful, Skip, Said, Quoted, LawfulPieces, Following;
    var tail, c, key := "}" + rest, Child(v, i), Said(s.key);
    var keys := KeysBefore(v.fields, i);
    var after := Following(s.after, s.rest.NoEntries?, EntriesText(s.rest), tail);
    EntriesShifted(v.fields, i, s);
    EntriesTextSplit(s, tail);
    FollowingSkips(s.after, s.rest.NoEntries?, EntriesText(s.rest), tail);
    ChildWellFormed(v, i);
    FitStep(v, i, depth, nodes, l);
    var u := s.lead + (TreeText(s.tree) + after);
    KeyTreeReads(s, u, nodes, keys);
    TreeReads(s.tree, after, depth + 1, nodes, l);
    LeadingWhite(s.lead, TreeText(s.tree) + after, depth + 1, nodes, l);
    var item := Read(c, after, nodes + Nodes(c));
    FieldsReadStep(EntriesText(s) + tail, Read(key, u, nodes), item, depth, nodes, keys, l);
    if s.rest.NoEntries? {
      LastFits(v, i, depth, nodes, l);
      assert tail[1..] == rest && v.fields[i..] == [Field(key, c)];
    } else {
      assert ("," + (EntriesText(s.rest) + tail))[1..] == EntriesText(s.rest) + tail;
      EntriesTreeRead(s.rest, v, i + 1, rest, depth, nodes + Nodes(c), l);
      assert KeysBefore(v.fields, i + 1) == keys + {key};
      assert v.fields[i..] == [Field(key, c)] + v.fields[i + 1..];
    }
  }

  lemma OpensArray(s: string, depth: int, nodes: nat, l: Limits)
    requires s != "" && s[0] == '[' && depth <= l.depth && nodes + 1 <= l.nodes
    ensures ReadValue(s, depth, nodes, l) == ReadArray(s, depth, nodes + 1, l)
  {
    hide ReadItems, ReadArray;
    SkipNothing(s);
  }

  lemma ArrayText(t: Tree, rest: string)
    requires t.Array?
    ensures var s := TreeText(t) + rest;
      && s != "" && s[0] == '['
      && s[1..] == (if t.items.NoItems? then t.inner else ItemsText(t.items)) + ("]" + rest)
  {
    hide ItemsText;
  }

  lemma {:induction false} ArrayReads(t: Tree, rest: string, depth: int, nodes: nat, l: Limits)
    requires t.Array? && Lawful(t) && WellFormed(Denoted(t)) && Fits(Denoted(t), depth, nodes, l)
    ensures ReadValue(TreeText(t) + rest, depth, nodes, l) ==
              Some(Read(Denoted(t), rest, nodes + Nodes(Denoted(t))))
    decreases t, 0
  {
    hide ReadItems, WellFormed, MembersFit, Nodes, Depth, TreeText, ItemsText, Skip, ReadValue;
    var v, s := Denoted(t), TreeText(t) + rest;
    ArrayText(t, rest);
    SingleFits(v, depth, nodes, l);
    OpensArray(s, depth, nodes, l);
    if t.items.NoItems? {
      SkipWhite(t.inner, "]" + rest);
      SkipNothing("]" + rest);
      EmptyMembers(v);
    } else {
      FitWhole(v, depth, nodes, l);
      assert v.items[0..] == v.items;
      ItemsTreeRead(t.items, v, 0, rest, depth, nodes + 1, l);
      ItemsFromSkipped(s[1..], depth, nodes + 1, l);
      ItemsBegin(t.items, "]" + rest);
      NodesOfWhole(v);
    }
  }

  lemma NodesOfWhole(v: Json)
    ensures Nodes(v) == 1 + NodesFrom(v, 0)
  {
  }

  lemma SingleFits(v: Json, depth: int, nodes: int, l: Limits)
    requires Fits(v, depth, nodes, l)
    ensures depth <= l.depth && nodes + 1 <= l.nodes
  {
  }

  lemma ItemsBegin(s: Items, tail: string)
    requires s.Item? && LawfulItems(s)
    ensures Begins(Skip(ItemsText(s) + tail))
  {
    hide TreeText, ItemsText, Lawful, Following;
    ItemsTextSplit(s, tail);
    var after := Following(s.after, s.rest.NoItems?, ItemsText(s.rest), tail);
    SkipWhite(s.before, TreeText(s.tree) + after);
    TreeBegins(s.tree, after);
    SkipNothing(TreeText(s.tree) + after);
  }

  lemma EntriesBegin(s: Entries, tail: string)
    requires s.Entry? && LawfulEntries(s)
    ensures Begins(Skip(EntriesText(s) + tail))
  {
    hide TreeText, EntriesText, Lawful, LawfulPieces, PiecesText;
    EntriesTextSplit(s, tail);
    var after := s.between + (":" + (s.lead + (TreeText(s.tree) +
                   Following(s.after, s.rest.NoEntries?, EntriesText(s.rest), tail))));
    SkipWhite(s.before, Quoted(s.key) + after);
    SkipNothing(Quoted(s.key) + after);
  }

  lemma OpensObject(s: string, depth: int, nodes: nat, l: Limits)
    requires s != "" && s[0] == '{' && depth <= l.depth && nodes + 1 <= l.nodes
    ensures ReadValue(s, depth, nodes, l) == ReadObject(s, depth, nodes + 1, l)
  {
    hide ReadFields, ReadObject;
    SkipNothing(s);
  }

  lemma ObjectText(t: Tree, rest: string)
    requires t.Object?
    ensures var s := TreeText(t) + rest;
      && s != "" && s[0] == '{'
      && s[1..] == (if t.entries.NoEntries? then t.inner else EntriesText(t.entries)) + ("}" + rest)
  {
    hide EntriesText;
  }

  lemma {:induction false} ObjectReads(t: Tree, rest: string, depth: int, nodes: nat, l: Limits)
    requires t.Object? && Lawful(t) && WellFormed(Denoted(t)) && Fits(Denoted(t), depth, nodes, l)
    ensures ReadValue(TreeText(t) + rest, depth, nodes, l) ==
              Some(Read(Denoted(t), rest, nodes + Nodes(Denoted(t))))
    decreases t, 0
  {
    hide ReadFields, WellFormed, MembersFit, Nodes, Depth, TreeText, EntriesText, Skip, ReadValue;
    var v, s := Denoted(t), TreeText(t) + rest;
    ObjectText(t, rest);
    SingleFits(v, depth, nodes, l);
    OpensObject(s, depth, nodes, l);
    if t.entries.NoEntries? {
      SkipWhite(t.inner, "}" + rest);
      SkipNothing("}" + rest);
      EmptyMembers(v);
    } else {
      FitWhole(v, depth, nodes, l);
      assert v.fields[0..] == v.fields && KeysBefore(v.fields, 0) == {};
      EntriesTreeRead(t.entries, v, 0, rest, depth, nodes + 1, l);
      FieldsFromSkipped(s[1..], depth, nodes + 1, {}, l);
      EntriesBegin(t.entries, "}" + rest);
      NodesOfWhole(v);
    }
  }

  lemma LeafReads(t: Tree, rest: string, depth: int, nodes: nat, l: Limits)
    requires !t.Array? && !t.Object? && Lawful(t) && WellFormed(Denoted(t)) && Ends(rest)
    requires Fits(Denoted(t), depth, nodes, l)
    ensures ReadValue(TreeText(t) + rest, depth, nodes, l) ==
              Some(Read(Denoted(t), rest, nodes + Nodes(Denoted(t))))
  {
    hide ReadValue, WellFormed, Quoted, Said, LawfulPieces, NumberText, Canonical, Value, Depth, Nodes;
    var v := Denoted(t);
    SingleFits(v, depth, nodes, l);
    EmptyMembers(v);
    if t.Quotation? {
      QuotationReads(t.pieces, rest, depth, nodes, l);
    } else {
      PlainTreeText(t);
      ScalarReads(v, rest, depth, nodes, l);
    }
  }

  /** A text with a lawful tree is read as the value that the tree denotes. */
  lemma {:induction false} TreeReads(t: Tree, rest: string, depth: int, nodes: nat, l: Limits)
    requires Lawful(t) && WellFormed(Denoted(t)) && Fits(Denoted(t), depth, nodes, l) && Ends(rest)
    ensures ReadValue(TreeText(t) + rest, depth, nodes, l) ==
              Some(Read(Denoted(t), rest, nodes + Nodes(Denoted(t))))
    decreases t, 1
  {
    hide *;
    if t.Array? {
      ArrayReads(t, rest, depth, nodes, l);
    } else if t.Object? {
      ObjectReads(t, rest, depth, nodes, l);
    } else {
      LeafReads(t, rest, depth, nodes, l);
    }
  }

  // The tree of a text

  lemma PlainHasTree(s: string, nodes: nat) returns (t: Tree)
    requires ReadPlain(s, nodes).Some?
    ensures var r := ReadPlain(s, nodes).value; Lawful(t) && Denoted(t) == r.value && s == TreeText(t) + r.rest
  {
    hide ReadNumber;
    if StartsWith(s, "true") {
      t := Word(Bool(true));
      assert s == "true" + s[4..];
    } else if StartsWith(s, "false") {
      t := Word(Bool(false));
      assert s == "false" + s[5..];
    } else if StartsWith(s, "null") {
      t := Word(Null);
      assert s == "null" + s[4..];
    } else {
      t := NumberHasTree(s, nodes);
    }
  }

  lemma NumberHasTree(s: string, nodes: nat) returns (t: Tree)
    requires ReadNumber(s, nodes).Some?
    ensures var r := ReadNumber(s, nodes).value; Lawful(t) && Denoted(t) == r.value && s == TreeText(t) + r.rest
  {
    hide Value, NaturalAt;
    var minus := s[0] == '-';
    var u := if minus then s[1..] else s;
    var n := NaturalAt(u);
    NaturalIsCanonical(u);
    ZeroIsNothing();
    t := Number(minus, u[..n]);
    assert u == u[..n] + u[n..];
    assert s == TreeText(t) + u[n..];
  }

  lemma ZeroIsNothing()
    ensures Value("0") == 0
  {
    assert "0"[..0] == "";
  }

  lemma NaturalIsCanonical(u: string)
    requires NaturalAt(u) > 0
    ensures Canonical(u[..NaturalAt(u)])
  {
  }

  lemma ItemsHaveTree(s: string, depth: int, nodes: nat, l: Limits) returns (items: Items)
    requires ReadItems(s, depth, nodes, l).Some?
    ensures var r := ReadItems(s, depth, nodes, l).value;
      && items.Item? && LawfulItems(items) && DenotedItems(items) == r.value
      && s == ItemsText(items) + ("]" + r.rest)
    decreases |s|, 2
  {
    hide ReadValue, ReadItems, TreeText, Denoted, Lawful, Skip, ItemsText, Following;
    ItemsNeedItem(s, depth, nodes, l);
    var item := ReadValue(s, depth + 1, nodes, l).value;
    ItemsReadStep(s, item, depth, nodes, l);
    ValueShorter(s, depth + 1, nodes, l);
    SkipShorter(item.rest);
    var before, tree := ValueHasTree(s, depth + 1, nodes, l);
    var after := SkippedIsWhite(item.rest);
    var t := Skip(item.rest);
    var r := ReadItems(s, depth, nodes, l).value;
    if t[0] == ']' {
      items := Item(before, tree, after, NoItems);
      assert t == "]" + r.rest;
      OneItemTree(items);
    } else {
      var more := ItemsHaveTree(t[1..], depth, item.nodes, l);
      items := Item(before, tree, after, more);
      assert t == "," + (ItemsText(more) + ("]" + r.rest));
    }
    ItemsTextSplit(items, "]" + r.rest);
    FollowingIs(after, items.rest.NoItems?, ItemsText(items.rest), "]" + r.rest);
  }

  lemma ItemsNeedItem(s: string, depth: int, nodes: nat, l: Limits)
    requires ReadItems(s, depth, nodes, l).Some?
    ensures ReadValue(s, depth + 1, nodes, l).Some?
  {
    hide ReadValue;
  }

  lemma FollowingIs(after: string, last: bool, more: string, tail: string)
    ensures Following(after, last, more, tail) == after + if last then tail else "," + (more + tail)
  {
  }

  lemma OneItemTree(items: Items)
    requires items.Item? && items.rest.NoItems? && LawfulItems(items)
    ensures DenotedItems(items) == [Denoted(items.tree)]
  {
    hide Denoted, Lawful;
  }

  lemma KeyParts(s: string, nodes: nat, keys: set<string>)
    requires ReadKey(s, nodes, keys).Some?
    ensures var r, t := ReadKey(s, nodes, keys).value, Skip(s);
      && t != "" && t[0] == '\"' && ReadString(t, nodes).Some?
      && var u := Skip(ReadString(t, nodes).value.rest);
         && u == ":" + r.rest && r.value == ReadString(t, nodes).value.value && r.nodes == nodes
  {
    hide ReadString, Skip;
    var u := Skip(ReadString(Skip(s), nodes).value.rest);
    assert u == [u[0]] + u[1..];
  }

  lemma KeyHasTree(s: string, nodes: nat, keys: set<string>) returns (before: string, key: seq<Piece>, between: string)
    requires ReadKey(s, nodes, keys).Some?
    ensures var r := ReadKey(s, nodes, keys).value;
      && White(before) && LawfulPieces(key) && White(between) && Said(key) == r.value && r.nodes == nodes
      && s == before + (Quoted(key) + (between + (":" + r.rest)))
  {
    hide *;
    KeyParts(s, nodes, keys);
    before := SkippedIsWhite(s);
    key := StringInPieces(Skip(s), nodes);
    between := SkippedIsWhite(ReadString(Skip(s), nodes).value.rest);
  }

  lemma FieldsNeedField(s: string, depth: int, nodes: nat, keys: set<string>, l: Limits)
    requires ReadFields(s, depth, nodes, keys, l).Some?
    ensures ReadKey(s, nodes, keys).Some?
    ensures ReadValue(ReadKey(s, nodes, keys).value.rest, depth + 1, nodes, l).Some?
  {
    hide ReadValue, ReadKey;
  }

  lemma EntriesHaveTree(s: string, depth: int, nodes: nat, keys: set<string>, l: Limits) returns (entries: Entries)
    requires ReadFields(s, depth, nodes, keys, l).Some?
    ensures var r := ReadFields(s, depth, nodes, keys, l).value;
      && entries.Entry? && LawfulEntries(entries) && DenotedEntries(entries) == r.value
      && s == EntriesText(entries) + ("}" + r.rest)
    decreases |s|, 2
  {
    hide ReadValue, ReadFields, ReadKey, TreeText, Denoted, Lawful, Skip, EntriesText, Following, Quoted, Said;
    hide LawfulPieces;
    FieldsNeedField(s, depth, nodes, keys, l);
    var name := ReadKey(s, nodes, keys).value;
    var item := ReadValue(name.rest, depth + 1, nodes, l).value;
    FieldsReadStep(s, name, item, depth, nodes, keys, l);
    KeyShorter(s, nodes, keys);
    ValueShorter(name.rest, depth + 1, nodes, l);
    SkipShorter(item.rest);
    var before, key, between := KeyHasTree(s, nodes, keys);
    var lead, tree := ValueHasTree(name.rest, depth + 1, nodes, l);
    var after := SkippedIsWhite(item.rest);
    var t := Skip(item.rest);
    var r := ReadFields(s, depth, nodes, keys, l).value;
    if t[0] == '}' {
      entries := Entry(before, key, between, lead, tree, after, NoEntries);
      assert t == "}" + r.rest;
    } else {
      var more := EntriesHaveTree(t[1..], depth, item.nodes, keys + {name.value}, l);
      entries := Entry(before, key, between, lead, tree, after, more);
      assert t == "," + (EntriesText(more) + ("}" + r.rest));
    }
    EntriesTextSplit(entries, "}" + r.rest);
    FollowingIs(after, entries.rest.NoEntries?, EntriesText(entries.rest), "}" + r.rest);
  }

  lemma ArrayHasTree(s: string, depth: int, nodes: nat, l: Limits) returns (t: Tree)
    requires s != "" && s[0] == '[' && ReadArray(s, depth, nodes, l).Some?
    ensures var r := ReadArray(s, depth, nodes, l).value;
      Lawful(t) && Denoted(t) == r.value && s == TreeText(t) + r.rest
    decreases |s|, 0
  {
    hide ReadItems, ItemsText, Skip, DenotedItems, LawfulItems;
    var u := Skip(s[1..]);
    var r := ReadArray(s, depth, nodes, l).value;
    SkipShorter(s[1..]);
    var w := SkippedIsWhite(s[1..]);
    assert s == "[" + (w + u);
    if u != "" && u[0] == ']' {
      t := Array(w, NoItems);
      NoItemsTree();
      assert u == "]" + r.rest;
      assert s == TreeText(t) + r.rest;
    } else {
      var items := ItemsHaveTree(u, depth, nodes, l);
      var more := LeadItems(w, items);
      t := Array("", more);
      LeadItemsText(w, items, more, "]" + r.rest);
      assert s == "[" + (ItemsText(more) + ("]" + r.rest));
      assert s == TreeText(t) + r.rest;
    }
  }

  lemma NoItemsTree()
    ensures LawfulItems(NoItems) && DenotedItems(NoItems) == []
    ensures LawfulEntries(NoEntries) && DenotedEntries(NoEntries) == []
  {
  }

  function LeadItems(w: string, s: Items): Items
    requires s.Item?
  {
    s.(before := w + s.before)
  }

  lemma LeadItemsText(w: string, s: Items, t: Items, tail: string)
    requires White(w) && s.Item? && LawfulItems(s) && t == LeadItems(w, s)
    ensures t.Item? && LawfulItems(t) && DenotedItems(t) == DenotedItems(s)
    ensures w + (ItemsText(s) + tail) == ItemsText(t) + tail
  {
    hide TreeText, Lawful, Denoted;
    ItemsTextSplit(s, tail);
    ItemsTextSplit(t, tail);
    assert ItemsText(s.rest) == ItemsText(t.rest);
    hide ItemsText, Following;
  }

  function LeadEntries(w: string, s: Entries): Entries
    requires s.Entry?
  {
    s.(before := w + s.before)
  }

  lemma LeadEntriesText(w: string, s: Entries, t: Entries, tail: string)
    requires White(w) && s.Entry? && LawfulEntries(s) && t == LeadEntries(w, s)
    ensures t.Entry? && LawfulEntries(t) && DenotedEntries(t) == DenotedEntries(s)
    ensures w + (EntriesText(s) + tail) == EntriesText(t) + tail
  {
    hide TreeText, Lawful, Denoted, Quoted, Said, LawfulPieces, EntriesText, Following;
    EntriesTextSplit(s, tail);
    EntriesTextSplit(t, tail);
    var after := Following(s.after, s.rest.NoEntries?, EntriesText(s.rest), tail);
    var x := Quoted(s.key) + (s.between + (":" + (s.lead + (TreeText(s.tree) + after))));
    assert w + (s.before + x) == (w + s.before) + x;
  }

  lemma ObjectHasTree(s: string, depth: int, nodes: nat, l: Limits) returns (t: Tree)
    requires s != "" && s[0] == '{' && ReadObject(s, depth, nodes, l).Some?
    ensures var r := ReadObject(s, depth, nodes, l).value;
      Lawful(t) && Denoted(t) == r.value && s == TreeText(t) + r.rest
    decreases |s|, 0
  {
    hide ReadFields, EntriesText, Skip, DenotedEntries, LawfulEntries;
    var u := Skip(s[1..]);
    var r := ReadObject(s, depth, nodes, l).value;
    SkipShorter(s[1..]);
    var w := SkippedIsWhite(s[1..]);
    assert s == "{" + (w + u);
    if u != "" && u[0] == '}' {
      t := Object(w, NoEntries);
      NoItemsTree();
      assert u == "}" + r.rest;
      assert s == TreeText(t) + r.rest;
    } else {
      var entries := EntriesHaveTree(u, depth, nodes, {}, l);
      var more := LeadEntries(w, entries);
      t := Object("", more);
      LeadEntriesText(w, entries, more, "}" + r.rest);
      assert s == "{" + (EntriesText(more) + ("}" + r.rest));
      assert s == TreeText(t) + r.rest;
    }
  }

  /** A text that is read begins with white space and a lawful tree of the value. */
  lemma ValueHasTree(s: string, depth: int, nodes: nat, l: Limits) returns (w: string, t: Tree)
    requires ReadValue(s, depth, nodes, l).Some?
    ensures var r := ReadValue(s, depth, nodes, l).value;
      White(w) && Lawful(t) && Denoted(t) == r.value && s == w + (TreeText(t) + r.rest)
    decreases |s|, 1
  {
    hide ReadPlain, ReadString, ReadArray, ReadObject, Skip, Quoted, Said, LawfulPieces;
    w := SkippedIsWhite(s);
    var u := Skip(s);
    SkipShorter(s);
    if u[0] == '\"' {
      var ps := StringInPieces(u, nodes + 1);
      t := Quotation(ps);
    } else if u[0] == '{' {
      t := ObjectHasTree(u, depth, nodes + 1, l);
    } else if u[0] == '[' {
      t := ArrayHasTree(u, depth, nodes + 1, l);
    } else {
      t := PlainHasTree(u, nodes + 1);
    }
  }

  // Whole texts

  lemma {:induction false} AllWhite(s: string)
    ensures Skip(s) == "" <==> White(s)
  {
    if s != "" {
      if IsSpace(s[0]) {
        AllWhite(s[1..]);
        assert White(s) <==> White(s[1..]) by {
          assert s == [s[0]] + s[1..];
        }
      }
    }
  }

  /** The parser returns a value exactly for its spellings, well formed and within the limits. */
  lemma ParsesExactly(s: string, v: Json)
    ensures Parse(s, LIMITS) == Some(v) <==> Spells(s, v) && WellFormed(v) && Depth(v) <= 64 && Nodes(v) <= 20000
  {
    hide ReadValue, Skip, WellFormed, TreeText, Denoted, Lawful;
    if Parse(s, LIMITS) == Some(v) {
      ValueSound(s, 0, 0, LIMITS);
      var r := ReadValue(s, 0, 0, LIMITS).value;
      var before, t := ValueHasTree(s, 0, 0, LIMITS);
      AllWhite(r.rest);
      assert SpellsBy(s, v, before, t, r.rest);
    }
    if Spells(s, v) && WellFormed(v) && Depth(v) <= 64 && Nodes(v) <= 20000 {
      var before, t, after :| SpellsBy(s, v, before, t, after);
      TreeReads(t, after, 0, 0, LIMITS);
      LeadingWhite(before, TreeText(t) + after, 0, 0, LIMITS);
      AllWhite(after);
    }
  }

  /** A text spells at most one value that the parser may return. */
  lemma SpellingUnique(s: string, v: Json, w: Json)
    requires Spells(s, v) && Spells(s, w) && WellFormed(v) && WellFormed(w)
    ensures v == w
  {
    hide ReadValue, Skip, WellFormed, TreeText, Denoted, Lawful, White;
    var l := Limits(Max(Depth(v), Depth(w)), Max(Nodes(v), Nodes(w)));
    SpellingReads(s, v, l);
    SpellingReads(s, w, l);
  }

  lemma SpellingReads(s: string, v: Json, l: Limits)
    requires Spells(s, v) && WellFormed(v) && Depth(v) <= l.depth && Nodes(v) <= l.nodes
    ensures ReadValue(s, 0, 0, l).Some? && ReadValue(s, 0, 0, l).value.value == v
  {
    hide ReadValue, WellFormed, TreeText, Denoted, Lawful;
    var before, t, after :| SpellsBy(s, v, before, t, after);
    TreeReads(t, after, 0, 0, l);
    LeadingWhite(before, TreeText(t) + after, 0, 0, l);
  }

  /** Where the model departs from `JSON.parse`: the escape of a lone surrogate is refused. */
  lemma LoneSurrogateRefused(digits: string, unit: nat)
    requires SpellsUnit(digits, unit) && (IsHigh(unit) || IsLow(unit))
    ensures Parse("\"\\u" + digits + "\"", LIMITS) == None
  {
    hide SpellsUnit, SpellsNibble, HexUnit;
    var b := "\\u" + digits;
    var s := "\"" + (b + "\"");
    UnitLength(digits, unit);
    assert "\"\\u" + digits + "\"" == s;
    CloseAfterUnit(digits, "\"", unit) by {
      CloseAtOnce("\"");
    }
    CloseAtOnce("\"");
    assert s[1..] == b + "\"" && s[1..1 + 6] == b;
    UnitEscapeOf(digits, "", unit);
    assert b + "" == b && b[6..] == "";
    assert Unescape(b) == None;
    SkipNothing(s);
  }

  // The printed text is the shortest

  /** A character is printed by a lawful spelling, with lower-case digits where it needs some. */
  lemma PrintedPiece(c: char) returns (p: Piece)
    ensures LawfulPiece(p) && p.said == c && PieceText(p) == EscapeChar(c)
    ensures p.Unit? ==> forall i :: 0 <= i < |p.digits| ==> !('A' <= p.digits[i] <= 'F')
    ensures !p.Pair?
  {
    hide SpellsUnit, HexDigit;
    var e := EscapeChar(c);
    if |e| == 1 {
      p := Plain(c);
    } else if |e| == 2 {
      p := Short(e[1], c);
    } else {
      p := Unit(e[2..], c);
      PrintedUnit(c as int);
      assert e[2..] == ['0', '0', HexDigit(c as int / 16), HexDigit(c as int % 16)];
    }
  }

  lemma PrintedUnit(code: int)
    requires 0 <= code < 32
    ensures var digits := ['0', '0', HexDigit(code / 16), HexDigit(code % 16)];
      SpellsUnit(digits, code) && forall i :: 0 <= i < 4 ==> !('A' <= digits[i] <= 'F')
  {
    LowerCase(code / 16);
    LowerCase(code % 16);
  }

  lemma LowerCase(n: nat)
    requires n < 16
    ensures !('A' <= HexDigit(n) <= 'F')
  {
  }

  /** No spelling of a character is shorter than the printed one. */
  lemma ShortestPiece(p: Piece)
    requires LawfulPiece(p)
    ensures |EscapeChar(p.said)| <= |PieceText(p)|
  {
    hide SpellsNibble;
    if p.Short? {
      var code := p.said as int;
      assert code in {0x22, 0x5C, 0x2F, 0x08, 0x0C, 0x0A, 0x0D, 0x09};
    }
  }

  lemma {:induction false} ShortestPieces(ps: seq<Piece>)
    requires LawfulPieces(ps)
    ensures |Escape(Said(ps))| <= |PiecesText(ps)|
  {
    hide LawfulPiece, PieceText, EscapeChar, Escape;
    EscapeStep(Said(ps));
    if ps != [] {
      ShortestPiece(ps[0]);
      ShortestPieces(ps[1..]);
      assert Said(ps)[1..] == Said(ps[1..]) && Said(ps)[0] == ps[0].said;
    }
  }

  lemma ShortestQuoted(ps: seq<Piece>)
    requires LawfulPieces(ps)
    ensures |Quote(Said(ps))| <= |Quoted(ps)|
  {
    hide LawfulPieces, PiecesText, Escape, Said;
    ShortestPieces(ps);
  }

  lemma {:induction false} ShortestItems(s: Items, v: Json, i: nat)
    requires LawfulItems(s) && v.Arr? && i <= Width(v) && v.items[i..] == DenotedItems(s)
    ensures |Members(v, i)| <= |ItemsText(s)|
    decreases s
  {
    hide Text, TreeText, Lawful, Denoted;
    if s.Item? {
      ItemsShifted(v.items, i, s);
      ShortestTree(s.tree);
      ShortestItems(s.rest, v, i + 1);
      MembersStep(v, i);
    }
  }

  lemma {:induction false} ShortestEntries(s: Entries, v: Json, i: nat)
    requires LawfulEntries(s) && v.Obj? && i <= Width(v) && v.fields[i..] == DenotedEntries(s)
    ensures |Members(v, i)| <= |EntriesText(s)|
    decreases s
  {
    hide Text, TreeText, Lawful, Denoted, Quote, Quoted, Said, LawfulPieces;
    if s.Entry? {
      EntriesShifted(v.fields, i, s);
      ShortestTree(s.tree);
      ShortestQuoted(s.key);
      ShortestEntries(s.rest, v, i + 1);
      MembersStep(v, i);
    }
  }

  lemma {:induction false} ShortestTree(t: Tree)
    requires Lawful(t)
    ensures |Text(Denoted(t))| <= |TreeText(t)|
    decreases t
  {
    hide Members, ItemsText, EntriesText, Quote, Quoted, NumberText, DenotedItems, DenotedEntries, Said;
    match t
    case Array(_, items) =>
      assert Denoted(t).items[0..] == Denoted(t).items;
      ShortestItems(items, Denoted(t), 0);
      NothingShorter(t);
    case Object(_, entries) =>
      assert Denoted(t).fields[0..] == Denoted(t).fields;
      ShortestEntries(entries, Denoted(t), 0);
      NothingShorter(t);
    case Quotation(pieces) => ShortestQuoted(pieces);
    case _ => PlainTreeText(t);
  }

  lemma NothingShorter(t: Tree)
    requires Lawful(t) && (t.Array? || t.Object?)
    ensures t.Array? && t.items.NoItems? ==> ItemsText(t.items) == ""
    ensures t.Object? && t.entries.NoEntries? ==> EntriesText(t.entries) == ""
  {
  }

  /** No text that spells a value is shorter than the printed one. */
  lemma ShortestText(s: string, v: Json)
    requires Spells(s, v)
    ensures |Text(v)| <= |s|
  {
    hide Text, TreeText, Lawful, Denoted;
    var before, t, after :| SpellsBy(s, v, before, t, after);
    ShortestTree(t);
  }
}
