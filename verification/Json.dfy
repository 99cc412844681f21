/**
 JSON values with integer numbers, their text, and their size.

 An object is the sequence of its fields; two objects that differ only in the
 order of fields are the same value to the canonical printer.
 */
module Json {
  import opened Common
  import opened Decimal

  datatype Json =
    | Null
    | Bool(truth: bool)
    | Num(number: int)
    | Str(text: string)
    | Arr(items: seq<Json>)
    | Obj(fields: seq<Field>)

  datatype Field = Field(key: string, value: Json)

  /** How many values a value directly contains. */
  function Width(v: Json): nat
  {
    match v
    case Arr(items) => |items|
    case Obj(fields) => |fields|
    case _ => 0
  }

  function Child(v: Json, i: nat): (c: Json)
    requires i < Width(v)
    ensures c < v
  {
    match v
    case Arr(items) => items[i]
    case Obj(fields) => fields[i].value
  }

  predicate DistinctKeys(fields: seq<Field>)
  {
    forall i, j :: 0 <= i < j < |fields| ==> fields[i].key != fields[j].key
  }

  /** Safe integers only, and no key twice in one object. */
  predicate WellFormed(v: Json)
  {
    && (v.Num? ==> Safe(v.number))
    && (v.Obj? ==> DistinctKeys(v.fields))
    && forall i :: 0 <= i < Width(v) ==> WellFormed(Child(v, i))
  }

  /** Nesting below the value. */
  function Depth(v: Json): nat
    decreases v, 1, 0
  {
    if Width(v) == 0 then 0 else 1 + DepthFrom(v, 0)
  }

  function DepthFrom(v: Json, i: nat): nat
    requires i <= Width(v)
    decreases v, 0, Width(v) - i
  {
    if i == Width(v) then 0 else Max(Depth(Child(v, i)), DepthFrom(v, i + 1))
  }

  /** Values in it, itself included. */
  function Nodes(v: Json): nat
    decreases v, 1, 0
  {
    1 + NodesFrom(v, 0)
  }

  function NodesFrom(v: Json, i: nat): nat
    requires i <= Width(v)
    decreases v, 0, Width(v) - i
  {
    if i == Width(v) then 0 else Nodes(Child(v, i)) + NodesFrom(v, i + 1)
  }

  // Text

  function HexDigit(n: nat): char
    requires n < 16
  {
    "0123456789abcdef"[n]
  }

  /** One character inside quotes, as `JSON.stringify` writes it. */
  function EscapeChar(c: char): string
  {
    if c == '\"' then "\\\""
    else if c == '\\' then "\\\\"
    else if c == '\n' then "\\n"
    else if c == '\r' then "\\r"
    else if c == '\t' then "\\t"
    else if c as int == 8 then "\\b"
    else if c as int == 12 then "\\f"
    else if c as int < 32 then "\\u00" + [HexDigit(c as int / 16), HexDigit(c as int % 16)]
    else [c]
  }

  function Escape(s: string): string
  {
    if s == "" then "" else EscapeChar(s[0]) + Escape(s[1..])
  }

  function Quote(s: string): string
  {
    "\"" + (Escape(s) + "\"")
  }

  function NumberText(n: int): string
  {
    if n < 0 then "-" + Digits(-n) else Digits(n)
  }

  function Scalar(v: Json): string
    requires !v.Arr? && !v.Obj?
  {
    match v
    case Null => "null"
    case Bool(truth) => if truth then "true" else "false"
    case Num(number) => NumberText(number)
    case Str(text) => Quote(text)
  }

  /** The text of a value, its fields in the order given. */
  function Text(v: Json): string
    decreases v, 1, 0
  {
    match v
    case Arr(_) => "[" + (Members(v, 0) + "]")
    case Obj(_) => "{" + (Members(v, 0) + "}")
    case _ => Scalar(v)
  }

  /** The members from the `i`-th on, separated by commas. */
  function Members(v: Json, i: nat): string
    requires i <= Width(v)
    decreases v, 0, Width(v) - i
  {
    if i == Width(v) then ""
    else Member(v, i, Text(Child(v, i))) + Separated(v, i + 1, Members(v, i + 1))
  }

  function Member(v: Json, i: nat, text: string): string
    requires i < Width(v)
  {
    if v.Obj? then Quote(v.fields[i].key) + (":" + text) else text
  }

  function Separated(v: Json, i: nat, members: string): string
  {
    if i < Width(v) then "," + members else members
  }
}
