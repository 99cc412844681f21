/**
 Fixed-scale decimal strings of the telemetry messages: parser, unit value, adder
 and printer.
 */
module FixedDecimal {
  import opened Common
  import opened Decimal

  const MAX_SCALE: int := 16
  const MAX_WHOLE_DIGITS: nat := 18
  const MAX_LENGTH: nat := 36

  datatype Fixed = Fixed(value: string, scale: int)

  /** The groups of the decimal pattern. */
  datatype Parts = Parts(minus: bool, whole: string, fraction: string)

  predicate ValidScale(scale: int)
  {
    0 <= scale <= MAX_SCALE
  }

  /** Where the first point is, or the length. */
  function PointAt(s: string): (n: nat)
    ensures n <= |s| && (n < |s| ==> s[n] == '.')
  {
    if s == "" || s[0] == '.' then 0 else 1 + PointAt(s[1..])
  }

  /** The pattern: an optional minus, a canonical whole part of at most 18 digits, an optional fraction. */
  function Match(v: string): Option<Parts>
  {
    if v != "" && v[0] == '-' then MatchBody(true, v[1..]) else MatchBody(false, v)
  }

  function MatchBody(minus: bool, body: string): Option<Parts>
  {
    var point := PointAt(body);
    if !Canonical(body[..point]) || point > MAX_WHOLE_DIGITS then None
    else if point == |body| then Some(Parts(minus, body, ""))
    else if point + 1 == |body| || !AllDigits(body[point + 1..]) then None
    else Some(Parts(minus, body[..point], body[point + 1..]))
  }

  function Sign(minus: bool): string
  {
    if minus then "-" else ""
  }

  function Body(whole: string, fraction: string): string
  {
    whole + if fraction == "" then "" else "." + fraction
  }

  function Spell(p: Parts): string
  {
    Sign(p.minus) + Body(p.whole, p.fraction)
  }

  function Signed(minus: bool, n: int): int
  {
    if minus then -n else n
  }

  predicate Accepted(p: Parts, scale: int)
  {
    && ValidScale(scale) && Canonical(p.whole) && |p.whole| <= MAX_WHOLE_DIGITS && AllDigits(p.fraction)
    && |p.fraction| == scale && (p.minus ==> Value(p.whole + p.fraction) != 0)
  }

  /** `parseFixedV2`; `None` is the exception. */
  function ParseFixed(v: string, scale: int): Option<Fixed>
  {
    var m := Match(v);
    if !ValidScale(scale) || |v| > MAX_LENGTH || v == "" || m.None? then None
    else if Accepted(m.value, scale) then
      Some(Fixed(Sign(m.value.minus) + if scale == 0 then m.value.whole else m.value.whole + ("." + m.value.fraction),
                 scale))
    else None
  }

  /** `replace(c, '')`: without the first occurrence. */
  function Without(s: string, c: char): string
  {
    if s == "" then "" else if s[0] == c then s[1..] else [s[0]] + Without(s[1..], c)
  }

  /** `parseFixedObject`: the number of units of the last place. */
  function UnitsIn(x: Fixed, scale: int): Option<int>
  {
    var parsed := ParseFixed(x.value, x.scale);
    if x.scale != scale || parsed.None? then None
    else
      var v := parsed.value.value;
      var unsigned := Without(Without(v, '-'), '.');
      if !AllDigits(unsigned) then None
      else Some(Signed(v != "" && v[0] == '-', Value(unsigned)))
  }

  /** The text that `sumFixedV2` makes of a unit total. */
  function Print(units: int, scale: nat): string
  {
    var absolute := PadStart(Digits(Abs(units)), scale + 1);
    PadValueOf(Abs(units), scale);
    Sign(units < 0)
    + if scale == 0 then absolute
      else absolute[..|absolute| - scale] + ("." + absolute[|absolute| - scale..])
  }

  lemma PadValueOf(n: nat, scale: nat)
    ensures var a := PadStart(Digits(n), scale + 1);
      AllDigits(a) && Value(a) == n && |a| >= scale + 1 && |a| >= |Digits(n)|
  {
    DigitsCanonical(n);
    PadValue(Digits(n), scale + 1);
  }

  // The pattern

  lemma {:induction false} PointAfterDigits(w: string, rest: string)
    requires AllDigits(w) && (rest == "" || rest[0] == '.')
    ensures PointAt(w + rest) == |w|
  {
    if w == "" {
      assert w + rest == rest;
    } else {
      assert (w + rest)[1..] == w[1..] + rest;
      PointAfterDigits(w[1..], rest);
    }
  }

  lemma BodyOfDigits(minus: bool, whole: string, fraction: string)
    requires AllDigits(whole) && AllDigits(fraction)
    ensures MatchBody(minus, Body(whole, fraction)) ==
              if Canonical(whole) && |whole| <= MAX_WHOLE_DIGITS then Some(Parts(minus, whole, fraction)) else None
  {
    var rest := if fraction == "" then "" else "." + fraction;
    var body := whole + rest;
    PointAfterDigits(whole, rest);
    assert body[..|whole|] == whole;
    if fraction == "" {
      assert body == whole;
    } else {
      assert body[|whole| + 1..] == fraction;
    }
  }

  lemma DigitsOfBody(minus: bool, body: string)
    requires MatchBody(minus, body).Some?
    ensures var p := MatchBody(minus, body).value;
      Body(p.whole, p.fraction) == body && p.minus == minus && AllDigits(p.fraction) && Canonical(p.whole)
  {
    var point := PointAt(body);
    if point < |body| {
      assert body == body[..point] + ("." + body[point + 1..]);
    } else {
      assert body[..point] == body && body + "" == body;
    }
  }

  lemma SignOfSpell(p: Parts)
    requires AllDigits(p.whole) && p.whole != ""
    ensures Spell(p) != "" && (Spell(p)[0] == '-' <==> p.minus)
    ensures p.minus ==> Spell(p)[1..] == Body(p.whole, p.fraction)
    ensures !p.minus ==> Spell(p) == Body(p.whole, p.fraction)
  {
    var body := Body(p.whole, p.fraction);
    assert body[0] == p.whole[0];
    if p.minus {
      assert ("-" + body)[1..] == body;
    } else {
      assert "" + body == body;
    }
  }

  /** Any digits spelled out match exactly when the whole part is canonical and short. */
  lemma MatchOfSpell(p: Parts)
    requires AllDigits(p.whole) && p.whole != "" && AllDigits(p.fraction)
    ensures Match(Spell(p)) ==
              if Canonical(p.whole) && |p.whole| <= MAX_WHOLE_DIGITS then Some(p) else None
  {
    SignOfSpell(p);
    BodyOfDigits(p.minus, p.whole, p.fraction);
  }

  lemma SpellOfMatch(v: string)
    requires Match(v).Some?
    ensures var p := Match(v).value; Spell(p) == v && AllDigits(p.fraction) && Canonical(p.whole)
  {
    if v != "" && v[0] == '-' {
      DigitsOfBody(true, v[1..]);
      assert v == "-" + v[1..];
    } else {
      DigitsOfBody(false, v);
      assert v == "" + v;
    }
  }

  lemma LengthOfSpell(p: Parts)
    ensures |Spell(p)| <= 1 + |p.whole| + 1 + |p.fraction|
  {
  }

  /** The parser accepts exactly the accepted parts, and returns its input. */
  lemma ParseOfSpell(p: Parts, scale: int)
    requires AllDigits(p.whole) && p.whole != "" && AllDigits(p.fraction)
    ensures ParseFixed(Spell(p), scale) == if Accepted(p, scale) then Some(Fixed(Spell(p), scale)) else None
  {
    MatchOfSpell(p);
    SignOfSpell(p);
    LengthOfSpell(p);
    if p.fraction == "" {
      assert p.whole + "" == p.whole;
    }
  }

  lemma {:induction false} WithoutAfter(w: string, c: char, rest: string)
    requires c !in w
    ensures Without(w + rest, c) == w + Without(rest, c)
  {
    if w == "" {
      assert w + rest == rest;
    } else {
      assert (w + rest)[1..] == w[1..] + rest;
      WithoutAfter(w[1..], c, rest);
    }
  }

  lemma StripOfSpell(p: Parts)
    requires AllDigits(p.whole) && p.whole != "" && AllDigits(p.fraction)
    ensures Without(Without(Spell(p), '-'), '.') == p.whole + p.fraction
  {
    var body := Body(p.whole, p.fraction);
    SignOfSpell(p);
    StripBody(p.whole, p.fraction);
    if !p.minus {
      WithoutAfter(body, '-', "");
      assert body + "" == body && Without("", '-') == "";
    }
  }

  lemma StripBody(whole: string, fraction: string)
    requires AllDigits(whole) && AllDigits(fraction)
    ensures '-' !in Body(whole, fraction)
    ensures Without(Body(whole, fraction), '.') == whole + fraction
  {
    var rest := if fraction == "" then "" else "." + fraction;
    WithoutAfter(whole, '.', rest);
    if fraction != "" {
      assert rest[1..] == fraction;
    }
  }

  /** The units of an accepted spelling. */
  lemma UnitsOfSpell(p: Parts, scale: int)
    requires Accepted(p, scale)
    ensures AllDigits(p.whole + p.fraction)
    ensures UnitsIn(Fixed(Spell(p), scale), scale) == Some(Signed(p.minus, Value(p.whole + p.fraction)))
  {
    hide ParseFixed, Without, Value, Spell;
    ParseOfSpell(p, scale);
    StripOfSpell(p);
    SignOfSpell(p);
  }

  // Printing

  function PartsOf(units: int, scale: nat): Parts
  {
    PadValueOf(Abs(units), scale);
    var a := PadStart(Digits(Abs(units)), scale + 1);
    Parts(units < 0, a[..|a| - scale], a[|a| - scale..])
  }

  lemma PrintSpells(units: int, scale: nat)
    ensures var p := PartsOf(units, scale);
      && AllDigits(p.whole) && p.whole != "" && AllDigits(p.fraction) && |p.fraction| == scale
      && Print(units, scale) == Spell(p) && AllDigits(p.whole + p.fraction)
      && units == Signed(p.minus, Value(p.whole + p.fraction))
  {
    hide Digits, PadStart, Value;
    PadValueOf(Abs(units), scale);
    SplitDigits(PadStart(Digits(Abs(units)), scale + 1), scale);
  }

  lemma SplitDigits(a: string, scale: nat)
    requires AllDigits(a) && |a| >= scale + 1
    ensures var whole, fraction := a[..|a| - scale], a[|a| - scale..];
      && AllDigits(whole) && AllDigits(fraction) && whole + fraction == a
      && Body(whole, fraction) == if scale == 0 then a else whole + ("." + fraction)
  {
    if scale == 0 {
      assert a[..|a|] == a && a[|a|..] == "" && a + "" == a;
    }
  }

  /** The whole part is canonical, and short exactly below the bound. */
  lemma PrintWhole(units: int, scale: nat)
    ensures var p := PartsOf(units, scale);
      Canonical(p.whole) && (|p.whole| <= MAX_WHOLE_DIGITS <==> Abs(units) < Pow10(MAX_WHOLE_DIGITS + scale))
  {
    hide Digits, PadStart, Value, Pow10;
    var n := Abs(units);
    PadValueOf(n, scale);
    PrintSpells(units, scale);
    DigitsCanonical(n);
    LengthBound(n, MAX_WHOLE_DIGITS + scale);
    PadHead(Digits(n), scale + 1);
  }

  lemma PadHead(s: string, width: nat)
    requires s != ""
    ensures var a := PadStart(s, width); if |s| < width then |a| == width && a[0] == '0' else a == s
  {
  }

  lemma PrintAccepted(units: int, scale: nat)
    requires ValidScale(scale)
    ensures Accepted(PartsOf(units, scale), scale) <==> Abs(units) < Pow10(MAX_WHOLE_DIGITS + scale)
  {
    PrintSpells(units, scale);
    PrintWhole(units, scale);
  }

  /** A printed total parses exactly below the bound, and then as itself. */
  lemma PrintParses(units: int, scale: nat)
    requires ValidScale(scale)
    ensures ParseFixed(Print(units, scale), scale) ==
              if Abs(units) < Pow10(MAX_WHOLE_DIGITS + scale) then Some(Fixed(Print(units, scale), scale)) else None
    ensures Abs(units) < Pow10(MAX_WHOLE_DIGITS + scale) ==>
              UnitsIn(Fixed(Print(units, scale), scale), scale) == Some(units)
  {
    PrintSpells(units, scale);
    PrintAccepted(units, scale);
    SpellingParses(PartsOf(units, scale), scale, Print(units, scale), units);
  }

  lemma SpellingParses(p: Parts, scale: nat, v: string, units: int)
    requires AllDigits(p.whole) && p.whole != "" && AllDigits(p.fraction) && AllDigits(p.whole + p.fraction)
    requires v == Spell(p) && units == Signed(p.minus, Value(p.whole + p.fraction))
    ensures ParseFixed(v, scale) == if Accepted(p, scale) then Some(Fixed(v, scale)) else None
    ensures Accepted(p, scale) ==> UnitsIn(Fixed(v, scale), scale) == Some(units)
  {
    ParseOfSpell(p, scale);
    if Accepted(p, scale) {
      UnitsOfSpell(p, scale);
    }
  }

  /** What parses is the printed form of its units: each value has one spelling per scale. */
  lemma ParsedIsPrinted(v: string, scale: int)
    requires ParseFixed(v, scale).Some?
    ensures ParseFixed(v, scale) == Some(Fixed(v, scale)) && UnitsIn(Fixed(v, scale), scale).Some?
    ensures var units := UnitsIn(Fixed(v, scale), scale).value;
      v == Print(units, scale) && Abs(units) < Pow10(MAX_WHOLE_DIGITS + scale)
  {
    SpellOfMatch(v);
    var p := Match(v).value;
    ParseOfSpell(p, scale);
    UnitsOfSpell(p, scale);
    var units := UnitsIn(Fixed(v, scale), scale).value;
    var q := PartsOf(units, scale);
    PrintSpells(units, scale);
    SameDigits(p, q, scale);
    PrintWhole(units, scale);
  }

  lemma SameDigits(p: Parts, q: Parts, scale: nat)
    requires Accepted(p, scale)
    requires q == PartsOf(Signed(p.minus, Value(p.whole + p.fraction)), scale)
    ensures p == q
  {
    var s := p.whole + p.fraction;
    PaddedDigits(p.whole, p.fraction);
    assert s[..|p.whole|] == p.whole && s[|p.whole|..] == p.fraction;
  }

  /** The digits of an accepted number are those of its value, padded to show the whole part. */
  lemma PaddedDigits(whole: string, fraction: string)
    requires Canonical(whole) && AllDigits(fraction)
    ensures PadStart(Digits(Value(whole + fraction)), |fraction| + 1) == whole + fraction
  {
    if whole[0] == '0' {
      LeadingZero(whole, fraction);
      PadToLength(whole + fraction);
    } else {
      var s := whole + fraction;
      assert s[0] == whole[0];
      CanonicalUnique(s);
    }
  }

  lemma PadToLength(s: string)
    requires AllDigits(s) && |Digits(Value(s))| <= |s|
    ensures PadStart(Digits(Value(s)), |s|) == s
  {
    DigitsCanonical(Value(s));
    PadValue(Digits(Value(s)), |s|);
    SameLengthUnique(s, PadStart(Digits(Value(s)), |s|));
  }

  lemma LeadingZero(whole: string, fraction: string)
    requires Canonical(whole) && whole[0] == '0' && AllDigits(fraction)
    ensures |whole + fraction| == |fraction| + 1
    ensures |Digits(Value(whole + fraction))| <= |fraction| + 1
  {
    ConcatValue(whole, fraction);
    assert whole[..0] == "" && Value(whole) == 0;
    ValueBound(fraction);
    PowGrows(|fraction|, |fraction| + 1);
    LengthBound(Value(whole + fraction), |fraction| + 1);
  }

  // Addition

  predicate AllParse(xs: seq<Fixed>, scale: int)
  {
    forall i :: 0 <= i < |xs| ==> UnitsIn(xs[i], scale).Some?
  }

  function Total(xs: seq<Fixed>, scale: int): int
    requires AllParse(xs, scale)
  {
    if xs == [] then 0 else Total(xs[..|xs| - 1], scale) + UnitsIn(xs[|xs| - 1], scale).value
  }

  lemma TotalStep(xs: seq<Fixed>, n: nat, scale: int)
    requires n < |xs| && AllParse(xs[..n], scale) && UnitsIn(xs[n], scale).Some?
    ensures AllParse(xs[..n + 1], scale)
    ensures Total(xs[..n + 1], scale) == Total(xs[..n], scale) + UnitsIn(xs[n], scale).value
  {
    assert xs[..n + 1][..n] == xs[..n];
  }

  /**
   `sumFixedV2`: succeeds exactly when every summand is valid and the total stays
   below the bound; the result is the one valid spelling of the exact total.
   */
  method SumFixed(xs: seq<Fixed>, scale: int) returns (r: Option<Fixed>)
    ensures r.Some? <==>
              ValidScale(scale) && AllParse(xs, scale)
              && Abs(Total(xs, scale)) < Pow10(MAX_WHOLE_DIGITS + scale)
    ensures r.Some? ==> r == Some(Fixed(Print(Total(xs, scale), scale), scale))
    ensures r.Some? ==> UnitsIn(r.value, scale) == Some(Total(xs, scale))
  {
    if !ValidScale(scale) {
      return None;
    }
    var total := 0;
    for n := 0 to |xs|
      invariant AllParse(xs[..n], scale) && total == Total(xs[..n], scale)
    {
      var units := UnitsIn(xs[n], scale);
      if units.None? {
        return None;
      }
      TotalStep(xs, n, scale);
      total := total + units.value;
    }
    assert xs[..|xs|] == xs;
    PrintParses(total, scale);
    return ParseFixed(Print(total, scale), scale);
  }
}
