/**
 The bounded JSON parser: integers only, no key twice, limits on nesting and on
 the number of values.

 The functions read from the front of a text and return what is left; the class
 `Parser` walks an offset through the source.
 */
module JsonParser {
  import opened Common
  import opened Decimal
  import opened Json

  datatype Limits = Limits(depth: int, nodes: int)

  const LIMITS := Limits(64, 20000)

  /** A value read, the text after it, and the number of values counted so far. */
  datatype Read<T> = Read(value: T, rest: string, nodes: nat)

  type Outcome<T> = Option<Read<T>>

  predicate IsSpace(c: char)
  {
    c == '\t' || c == '\n' || c == '\r' || c == ' '
  }

  function Skip(s: string): (r: string)
    ensures |r| <= |s| && (r != "" ==> !IsSpace(r[0]))
  {
    if s != "" && IsSpace(s[0]) then Skip(s[1..]) else s
  }

  // Strings

  /** Where the closing quote is; `None` when there is none. */
  function CloseAt(s: string): (n: Option<nat>)
    ensures n.Some? ==> n.value < |s| && s[n.value] == '\"'
  {
    if s == "" then None
    else if s[0] == '\"' then Some(0)
    else
      var skip := if s[0] == '\\' then 2 else 1;
      if skip > |s| then None
      else
        var n := CloseAt(s[skip..]);
        if n.Some? then Some(n.value + skip) else None
  }

  function HexValue(c: char): Option<nat>
  {
    if '0' <= c <= '9' then Some(c as int - '0' as int)
    else if 'a' <= c <= 'f' then Some(c as int - 'a' as int + 10)
    else if 'A' <= c <= 'F' then Some(c as int - 'A' as int + 10)
    else None
  }

  /** The code unit that four hexadecimal digits name. */
  function HexUnit(a: char, b: char, c: char, d: char): Option<nat>
  {
    var h, i, j, k := HexValue(a), HexValue(b), HexValue(c), HexValue(d);
    if h.None? || i.None? || j.None? || k.None? then None
    else Some(((h.value * 16 + i.value) * 16 + j.value) * 16 + k.value)
  }

  predicate IsHigh(unit: nat)
  {
    0xD800 <= unit < 0xDC00
  }

  predicate IsLow(unit: nat)
  {
    0xDC00 <= unit < 0xE000
  }

  /** The code unit of a four-digit escape at the front. */
  function UnitEscape(s: string): Option<nat>
  {
    if |s| >= 6 && s[0] == '\\' && s[1] == 'u' then HexUnit(s[2], s[3], s[4], s[5]) else None
  }

  /** A four-digit escape, or two that form a surrogate pair; a lone surrogate is no character. */
  function UnicodeEscape(s: string): (r: Option<(char, nat)>)
    ensures r.Some? ==> 6 <= r.value.1 <= |s|
  {
    var unit := UnitEscape(s);
    if unit.None? || IsLow(unit.value) || unit.value >= 0x10000 then None
    else if IsHigh(unit.value) then
      var low := UnitEscape(s[6..]);
      if low.None? || !IsLow(low.value) then None
      else Some(((0x10000 + (unit.value - 0xD800) * 0x400 + (low.value - 0xDC00)) as char, 12))
    else Some((unit.value as char, 6))
  }

  function SimpleEscape(c: char): Option<char>
  {
    if c == '\"' || c == '\\' || c == '/' then Some(c)
    else if c == 'b' then Some(8 as char)
    else if c == 'f' then Some(12 as char)
    else if c == 'n' then Some('\n')
    else if c == 'r' then Some('\r')
    else if c == 't' then Some('\t')
    else None
  }

  /** `JSON.parse` of what stands between the quotes. */
  function Unescape(s: string): Option<string>
  {
    if s == "" then Some("")
    else if s[0] == '\\' then
      if |s| >= 2 && s[1] == 'u' then
        var c := UnicodeEscape(s);
        if c.None? then None else Prepend(Some(c.value.0), Unescape(s[c.value.1..]))
      else if |s| >= 2 then Prepend(SimpleEscape(s[1]), Unescape(s[2..]))
      else None
    else if s[0] as int < 32 || s[0] == '\"' then None
    else Prepend(Some(s[0]), Unescape(s[1..]))
  }

  function Prepend(c: Option<char>, s: Option<string>): Option<string>
  {
    if c.None? || s.None? then None else Some([c.value] + s.value)
  }

  /** Reads a string whose opening quote is at the front. */
  function ReadString(s: string, nodes: nat): (r: Outcome<string>)
    requires s != "" && s[0] == '\"'
    ensures r.Some? ==> |r.value.rest| < |s|
  {
    var close := CloseAt(s[1..]);
    if close.None? then None
    else
      var text := Unescape(s[1..1 + close.value]);
      if text.None? then None else Some(Read(text.value, s[close.value + 2..], nodes))
  }

  // Numbers and literals

  function DigitsAt(s: string): (n: nat)
    ensures n <= |s| && AllDigits(s[..n]) && (n < |s| ==> !IsDigit(s[n]))
  {
    if s == "" || !IsDigit(s[0]) then 0
    else
      var n := DigitsAt(s[1..]);
      assert s[..n + 1] == [s[0]] + s[1..][..n];
      n + 1
  }

  /** The length of the unsigned number at the front: a zero, or digits without a leading zero. */
  function NaturalAt(s: string): (n: nat)
    ensures n <= |s| && AllDigits(s[..n])
  {
    if s != "" && s[0] == '0' then 1 else DigitsAt(s)
  }

  function ReadNumber(s: string, nodes: nat): (r: Outcome<Json>)
    ensures r.Some? ==> |r.value.rest| < |s|
  {
    var minus := s != "" && s[0] == '-';
    var t := if minus then s[1..] else s;
    var n := NaturalAt(t);
    if n == 0 then None
    else
      var magnitude: int := Value(t[..n]);
      if minus && magnitude == 0 then None
      else
        var number := if minus then -magnitude else magnitude;
        if Safe(number) then Some(Read(Num(number), t[n..], nodes)) else None
  }

  predicate StartsWith(s: string, token: string)
  {
    |token| <= |s| && s[..|token|] == token
  }

  function ReadPlain(s: string, nodes: nat): (r: Outcome<Json>)
    ensures r.Some? ==> |r.value.rest| < |s|
  {
    if StartsWith(s, "true") then Some(Read(Bool(true), s[4..], nodes))
    else if StartsWith(s, "false") then Some(Read(Bool(false), s[5..], nodes))
    else if StartsWith(s, "null") then Some(Read(Null, s[4..], nodes))
    else ReadNumber(s, nodes)
  }

  // Values

  function ReadValue(s: string, depth: int, nodes: nat, l: Limits): (r: Outcome<Json>)
    ensures r.Some? ==> |r.value.rest| < |s|
    decreases |s|, 1
  {
    var t := Skip(s);
    if depth > l.depth || nodes + 1 > l.nodes || t == "" then None
    else if t[0] == '\"' then
      var text := ReadString(t, nodes + 1);
      if text.None? then None else Some(Read(Str(text.value.value), text.value.rest, text.value.nodes))
    else if t[0] == '{' then ReadObject(t, depth, nodes + 1, l)
    else if t[0] == '[' then ReadArray(t, depth, nodes + 1, l)
    else ReadPlain(t, nodes + 1)
  }

  /** Reads an object whose opening brace is at the front. */
  function ReadObject(s: string, depth: int, nodes: nat, l: Limits): (r: Outcome<Json>)
    requires s != ""
    ensures r.Some? ==> |r.value.rest| < |s|
    decreases |s|, 0
  {
    var u := Skip(s[1..]);
    if u != "" && u[0] == '}' then Some(Read(Obj([]), u[1..], nodes))
    else
      var fields := ReadFields(u, depth, nodes, {}, l);
      if fields.None? then None else Some(Read(Obj(fields.value.value), fields.value.rest, fields.value.nodes))
  }

  /** Reads an array whose opening bracket is at the front. */
  function ReadArray(s: string, depth: int, nodes: nat, l: Limits): (r: Outcome<Json>)
    requires s != ""
    ensures r.Some? ==> |r.value.rest| < |s|
    decreases |s|, 0
  {
    var u := Skip(s[1..]);
    if u != "" && u[0] == ']' then Some(Read(Arr([]), u[1..], nodes))
    else
      var items := ReadItems(u, depth, nodes, l);
      if items.None? then None else Some(Read(Arr(items.value.value), items.value.rest, items.value.nodes))
  }

  /** Reads the items of an array up to its bracket. */
  function ReadItems(s: string, depth: int, nodes: nat, l: Limits): (r: Outcome<seq<Json>>)
    ensures r.Some? ==> |r.value.rest| < |s|
    decreases |s|, 2
  {
    var item := ReadValue(s, depth + 1, nodes, l);
    if item.None? then None
    else
      var t := Skip(item.value.rest);
      if t == "" then None
      else if t[0] == ']' then Some(Read([item.value.value], t[1..], item.value.nodes))
      else if t[0] != ',' then None
      else
        var more := ReadItems(t[1..], depth, item.value.nodes, l);
        if more.None? then None
        else Some(Read([item.value.value] + more.value.value, more.value.rest, more.value.nodes))
  }

  /** Reads a key and its colon. */
  function ReadKey(s: string, nodes: nat, keys: set<string>): (r: Outcome<string>)
    ensures r.Some? ==> |r.value.rest| < |s|
  {
    var t := Skip(s);
    if t == "" || t[0] != '\"' then None
    else
      var key := ReadString(t, nodes);
      if key.None? || key.value.value in keys then None
      else
        var u := Skip(key.value.rest);
        if u == "" || u[0] != ':' then None else Some(Read(key.value.value, u[1..], nodes))
  }

  /** Reads the fields of an object up to its brace; `keys` are taken. */
  function ReadFields(s: string, depth: int, nodes: nat, keys: set<string>, l: Limits): (r: Outcome<seq<Field>>)
    ensures r.Some? ==> |r.value.rest| < |s|
    decreases |s|, 2
  {
    var key := ReadKey(s, nodes, keys);
    if key.None? then None
    else
      var value := ReadValue(key.value.rest, depth + 1, nodes, l);
      if value.None? then None
      else
        var field := Field(key.value.value, value.value.value);
        var t := Skip(value.value.rest);
        if t == "" then None
        else if t[0] == '}' then Some(Read([field], t[1..], value.value.nodes))
        else if t[0] != ',' then None
        else
          var more := ReadFields(t[1..], depth, value.value.nodes, keys + {field.key}, l);
          if more.None? then None
          else Some(Read([field] + more.value.value, more.value.rest, more.value.nodes))
  }

  /** The whole text is one value, with space around it. */
  function Parse(s: string, l: Limits): Option<Json>
  {
    var r := ReadValue(s, 0, 0, l);
    if r.None? || Skip(r.value.rest) != "" then None else Some(r.value.value)
  }
}
