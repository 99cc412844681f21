/**
 The JSON grammar of RFC 8259, sections 2 to 7, as syntax trees: a tree holds the white
 space and the escapes that its text uses, and says which value the text denotes.

 Characters are Unicode scalar values. `JSON.parse` also accepts the escape of a lone
 surrogate, and its string then holds half a pair; here no tree has such a text.
 */
module JsonGrammar {
  import opened Common
  import opened Decimal
  import opened Json

  // Section 2: white space

  predicate White(s: string)
  {
    forall i :: 0 <= i < |s| ==> s[i] in {' ', '\t', '\n', '\r'}
  }

  // Section 7: strings

  /** One character as it is written inside quotes. */
  datatype Piece =
    | Plain(said: char)
    | Short(letter: char, said: char)
    | Unit(digits: string, said: char)
    | Pair(high: string, low: string, said: char)

  const SHORT_ESCAPES: map<char, int> :=
    map['\"' := 0x22, '\\' := 0x5C, '/' := 0x2F, 'b' := 0x08, 'f' := 0x0C, 'n' := 0x0A, 'r' := 0x0D, 't' := 0x09]

  predicate SpellsNibble(c: char, n: int)
  {
    0 <= n < 16 && (c == "0123456789abcdef"[n] || c == "0123456789ABCDEF"[n])
  }

  /** Four hexadecimal digits, in either case. */
  predicate SpellsUnit(digits: string, unit: int)
  {
    && |digits| == 4 && 0 <= unit < 0x10000
    && SpellsNibble(digits[0], unit / 0x1000) && SpellsNibble(digits[1], unit / 0x100 % 16)
    && SpellsNibble(digits[2], unit / 0x10 % 16) && SpellsNibble(digits[3], unit % 16)
  }

  predicate LawfulPiece(p: Piece)
  {
    var code := p.said as int;
    match p
    case Plain(c) => code >= 0x20 && c != '\"' && c != '\\'
    case Short(letter, _) => letter in SHORT_ESCAPES && code == SHORT_ESCAPES[letter]
    case Unit(digits, _) => SpellsUnit(digits, code)
    case Pair(high, low, _) =>
      && code >= 0x10000
      && SpellsUnit(high, 0xD800 + (code - 0x10000) / 0x400) && SpellsUnit(low, 0xDC00 + (code - 0x10000) % 0x400)
  }

  function PieceText(p: Piece): string
  {
    match p
    case Plain(c) => [c]
    case Short(letter, _) => ['\\', letter]
    case Unit(digits, _) => "\\u" + digits
    case Pair(high, low, _) => ("\\u" + high) + ("\\u" + low)
  }

  predicate LawfulPieces(ps: seq<Piece>)
  {
    forall i :: 0 <= i < |ps| ==> LawfulPiece(ps[i])
  }

  function PiecesText(ps: seq<Piece>): string
  {
    if ps == [] then "" else PieceText(ps[0]) + PiecesText(ps[1..])
  }

  function Said(ps: seq<Piece>): string
  {
    seq(|ps|, i requires 0 <= i < |ps| => ps[i].said)
  }

  function Quoted(ps: seq<Piece>): string
  {
    "\"" + (PiecesText(ps) + "\"")
  }

  // Sections 3 to 6: values

  /** Numbers are integers without fraction or exponent. */
  datatype Tree =
    | Word(value: Json)
    | Number(minus: bool, digits: string)
    | Quotation(pieces: seq<Piece>)
    | Array(inner: string, items: Items)
    | Object(inner: string, entries: Entries)

  datatype Items = NoItems | Item(before: string, tree: Tree, after: string, rest: Items)

  datatype Entries =
    | NoEntries
    | Entry(before: string, key: seq<Piece>, between: string, lead: string, tree: Tree, after: string, rest: Entries)

  predicate Lawful(t: Tree)
  {
    match t
    case Word(value) => value.Null? || value.Bool?
    case Number(minus, digits) => Canonical(digits) && !(minus && digits == "0")
    case Quotation(pieces) => LawfulPieces(pieces)
    case Array(inner, items) => White(inner) && LawfulItems(items)
    case Object(inner, entries) => White(inner) && LawfulEntries(entries)
  }

  predicate LawfulItems(s: Items)
  {
    s.Item? ==> White(s.before) && Lawful(s.tree) && White(s.after) && LawfulItems(s.rest)
  }

  predicate LawfulEntries(s: Entries)
  {
    s.Entry? ==>
      && White(s.before) && LawfulPieces(s.key) && White(s.between) && White(s.lead) && Lawful(s.tree)
      && White(s.after) && LawfulEntries(s.rest)
  }

  function WordText(v: Json): string
  {
    if v == Null then "null" else if v == Bool(true) then "true" else "false"
  }

  function TreeText(t: Tree): string
  {
    match t
    case Word(value) => WordText(value)
    case Number(minus, digits) => if minus then "-" + digits else digits
    case Quotation(pieces) => Quoted(pieces)
    case Array(inner, items) => "[" + ((if items.NoItems? then inner else ItemsText(items)) + "]")
    case Object(inner, entries) => "{" + ((if entries.NoEntries? then inner else EntriesText(entries)) + "}")
  }

  function ItemsText(s: Items): string
  {
    if s.NoItems? then ""
    else s.before + (TreeText(s.tree) + (s.after + if s.rest.NoItems? then "" else "," + ItemsText(s.rest)))
  }

  function EntriesText(s: Entries): string
  {
    if s.NoEntries? then ""
    else
      s.before + (Quoted(s.key) + (s.between + (":" + (s.lead + (TreeText(s.tree) +
        (s.after + if s.rest.NoEntries? then "" else "," + EntriesText(s.rest)))))))
  }

  /** The value that a text with this tree denotes. */
  function Denoted(t: Tree): Json
    requires Lawful(t)
  {
    match t
    case Word(value) => value
    case Number(minus, digits) => Num(if minus then -(Value(digits) as int) else Value(digits))
    case Quotation(pieces) => Str(Said(pieces))
    case Array(_, items) => Arr(DenotedItems(items))
    case Object(_, entries) => Obj(DenotedEntries(entries))
  }

  function DenotedItems(s: Items): seq<Json>
    requires LawfulItems(s)
  {
    if s.NoItems? then [] else [Denoted(s.tree)] + DenotedItems(s.rest)
  }

  function DenotedEntries(s: Entries): seq<Field>
    requires LawfulEntries(s)
  {
    if s.NoEntries? then [] else [Field(Said(s.key), Denoted(s.tree))] + DenotedEntries(s.rest)
  }

  ghost predicate SpellsBy(text: string, v: Json, before: string, t: Tree, after: string)
  {
    White(before) && White(after) && Lawful(t) && Denoted(t) == v && text == before + (TreeText(t) + after)
  }

  /** The text is a JSON text for the value: a tree of it with white space around. */
  ghost predicate Spells(text: string, v: Json)
  {
    exists before, t, after :: SpellsBy(text, v, before, t, after)
  }
}
