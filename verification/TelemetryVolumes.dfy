/**
 The volume rules of telemetry messages: open orders, positions and reversal
 splits, decided on decimal texts and stated on their units.
 */
module TelemetryVolumes {
  import opened Common
  import opened Decimal
  import opened FixedDecimal

  /** A fixed-decimal field as its reader returns it. */
  predicate Valid(x: Fixed)
  {
    ParseFixed(x.value, x.scale) == Some(x)
  }

  /** The units of a valid field. */
  function Units(x: Fixed): int
  {
    var u := UnitsIn(x, x.scale);
    if u.Some? then u.value else 0
  }

  lemma UnitsKnown(x: Fixed)
    requires Valid(x)
    ensures UnitsIn(x, x.scale) == Some(Units(x)) && ValidScale(x.scale)
    ensures x.value == Print(Units(x), x.scale) && Abs(Units(x)) < Pow10(MAX_WHOLE_DIGITS + x.scale)
  {
    ParsedIsPrinted(x.value, x.scale);
  }

  predicate StartsWithMinus(s: string)
  {
    s != "" && s[0] == '-'
  }

  /** The pattern of a zero with a fraction. */
  predicate ZeroFraction(s: string)
  {
    |s| >= 3 && s[0] == '0' && s[1] == '.' && forall i :: 2 <= i < |s| ==> s[i] == '0'
  }

  /** `positive`, as it looks at the text. */
  predicate PositiveText(x: Fixed)
  {
    !StartsWithMinus(x.value) && x.value != "0" && !ZeroFraction(x.value)
  }

  lemma MinusMeansNegative(units: int, scale: nat)
    ensures StartsWithMinus(Print(units, scale)) <==> units < 0
  {
    PrintSpells(units, scale);
    SignOfSpell(PartsOf(units, scale));
  }

  lemma ZeroPrints(scale: nat)
    ensures Print(0, scale) == if scale == 0 then "0" else "0." + Zeros(scale)
  {
    assert Digits(0) == "0";
    var a := PadStart("0", scale + 1);
    assert a == Zeros(scale + 1);
    if scale > 0 {
      assert a[..|a| - scale] == "0" && a[|a| - scale..] == Zeros(scale);
      assert Print(0, scale) == "" + ("0" + ("." + Zeros(scale)));
    }
  }

  /** A text that reads as zero is the printed zero of its scale. */
  lemma ZeroReads(x: Fixed)
    requires Valid(x) && (x.value == "0" || ZeroFraction(x.value))
    ensures Units(x) == 0
  {
    hide ParseFixed, UnitsIn, Print, ZeroFraction;
    UnitsKnown(x);
    ZeroText(x.value, x.scale);
    PrintParses(0, x.scale);
  }

  lemma ZeroText(v: string, scale: int)
    requires ParseFixed(v, scale).Some? && (v == "0" || ZeroFraction(v))
    ensures scale >= 0 && v == Print(0, scale) && 0 < Pow10(MAX_WHOLE_DIGITS + scale)
  {
    hide ParseFixed, Print;
    var z := if v == "0" then "" else Zeros(|v| - 2);
    var p := Parts(false, "0", z);
    assert Spell(p) == v by {
      if v != "0" {
        assert v == "0" + ("." + z);
      }
    }
    ParseOfSpell(p, scale);
    ZeroPrints(|z|);
    assert v != "0" ==> v == "0." + z;
  }

  /** The text test decides the sign of the units. */
  lemma PositiveMeans(x: Fixed)
    requires Valid(x)
    ensures PositiveText(x) <==> Units(x) > 0
  {
    UnitsKnown(x);
    MinusMeansNegative(Units(x), x.scale);
    if x.value == "0" || ZeroFraction(x.value) {
      ZeroReads(x);
    }
    if Units(x) == 0 {
      ZeroPrints(x.scale);
    }
  }

  lemma PrintNegated(n: int, scale: nat)
    requires n > 0
    ensures Print(-n, scale) == "-" + Print(n, scale)
  {
    hide PadStart, Digits;
    assert Abs(-n) == Abs(n);
  }

  /** Writing a minus before a positive text negates it. */
  lemma Negated(x: Fixed)
    requires Valid(x) && Units(x) > 0
    ensures UnitsIn(Fixed("-" + x.value, x.scale), x.scale) == Some(-Units(x))
  {
    hide ParseFixed, UnitsIn, Print;
    UnitsKnown(x);
    PrintNegated(Units(x), x.scale);
    PrintParses(-Units(x), x.scale);
  }

  // Orders

  datatype Order = Order(ticket: string, initial: Fixed, current: Fixed)

  /** Both volumes positive, of one scale, and no more left than there was. */
  predicate OrderOk(o: Order)
  {
    o.initial.scale == o.current.scale && 0 < Units(o.current) <= Units(o.initial)
  }

  lemma TwoTerms(x: Fixed, y: Fixed, scale: int)
    requires UnitsIn(x, scale).Some? && UnitsIn(y, scale).Some?
    ensures AllParse([x, y], scale) && Total([x, y], scale) == UnitsIn(x, scale).value + UnitsIn(y, scale).value
  {
    assert [x, y][..1] == [x] && [x][..0] == [];
    assert Total([x], scale) == UnitsIn(x, scale).value;
  }

  /** The subtraction an order test performs: it is exact and never overflows. */
  lemma OrderTerms(o: Order)
    requires Valid(o.initial) && Valid(o.current) && o.initial.scale == o.current.scale
    requires Units(o.initial) > 0 && Units(o.current) > 0
    ensures var scale := o.initial.scale;
      var terms := [o.initial, Fixed("-" + o.current.value, scale)];
      && ValidScale(scale) && AllParse(terms, scale) && Total(terms, scale) == Units(o.initial) - Units(o.current)
      && Abs(Total(terms, scale)) < Pow10(MAX_WHOLE_DIGITS + scale)
  {
    hide ParseFixed, UnitsIn, Pow10;
    UnitsKnown(o.initial);
    UnitsKnown(o.current);
    Negated(o.current);
    TwoTerms(o.initial, Fixed("-" + o.current.value, o.initial.scale), o.initial.scale);
  }

  /** The order test as written, on the sum of the texts: rejects exactly when more is left than there was. */
  method CheckOrder(o: Order) returns (ok: bool)
    requires Valid(o.initial) && Valid(o.current)
    ensures ok <==> OrderOk(o)
  {
    hide ParseFixed, UnitsIn, Units, PositiveText, Print, Total, Pow10;
    PositiveMeans(o.initial);
    PositiveMeans(o.current);
    if !PositiveText(o.initial) || !PositiveText(o.current) || o.initial.scale != o.current.scale {
      return false;
    }
    var scale := o.initial.scale;
    var terms := [o.initial, Fixed("-" + o.current.value, scale)];
    OrderTerms(o);
    var remainder := SumFixed(terms, scale);
    MinusMeansNegative(Total(terms, scale), scale);
    return !StartsWithMinus(remainder.value.value);
  }

  // Reversal splits

  /** Both parts positive, in the scale of the volume, and together the whole volume. */
  predicate SplitOk(volume: Fixed, closing: Fixed, opening: Fixed)
  {
    && Units(closing) > 0 && Units(opening) > 0
    && closing.scale == volume.scale && opening.scale == volume.scale
    && Units(closing) + Units(opening) == Units(volume)
  }

  /** The sum of a split has the text of the volume exactly when it is the volume. */
  lemma SplitTerms(volume: Fixed, closing: Fixed, opening: Fixed)
    requires Valid(volume) && Valid(closing) && Valid(opening)
    requires closing.scale == volume.scale == opening.scale
    ensures var scale := volume.scale;
      var terms := [closing, opening];
      && ValidScale(scale) && AllParse(terms, scale) && Total(terms, scale) == Units(closing) + Units(opening)
      && Abs(Units(volume)) < Pow10(MAX_WHOLE_DIGITS + scale)
      && (Abs(Total(terms, scale)) < Pow10(MAX_WHOLE_DIGITS + scale) ==>
            (Print(Total(terms, scale), scale) == volume.value <==> Total(terms, scale) == Units(volume)))
  {
    hide ParseFixed, UnitsIn, Print, Pow10;
    UnitsKnown(volume);
    UnitsKnown(closing);
    UnitsKnown(opening);
    TwoTerms(closing, opening, volume.scale);
    PrintInjective(Units(closing) + Units(opening), Units(volume), volume.scale);
  }

  lemma PrintInjective(m: int, n: int, scale: nat)
    requires ValidScale(scale) && Abs(n) < Pow10(MAX_WHOLE_DIGITS + scale)
    ensures Abs(m) < Pow10(MAX_WHOLE_DIGITS + scale) && Print(m, scale) == Print(n, scale) ==> m == n
  {
    PrintParses(m, scale);
    PrintParses(n, scale);
  }

  /** The split test as written, comparing texts: accepts exactly the splits that conserve volume. */
  method CheckSplit(volume: Fixed, closing: Fixed, opening: Fixed) returns (ok: bool)
    requires Valid(volume) && Valid(closing) && Valid(opening)
    ensures ok <==> SplitOk(volume, closing, opening)
  {
    hide ParseFixed, UnitsIn, Units, PositiveText, Print, Total, Pow10;
    PositiveMeans(closing);
    PositiveMeans(opening);
    if !PositiveText(closing) || !PositiveText(opening) {
      return false;
    }
    if volume.scale != closing.scale || volume.scale != opening.scale {
      return false;
    }
    SplitTerms(volume, closing, opening);
    var sum := SumFixed([closing, opening], volume.scale);
    if sum.None? {
      return false;
    }
    return sum.value.scale == volume.scale && sum.value.value == volume.value;
  }

  // Exposure snapshots

  datatype Position = Position(
    ticket: string, positionId: string, volume: Fixed, profitScale: Option<int>, swapScale: Option<int>)

  datatype Exposure = Exposure(
    complete: bool, positionCount: Option<int>, orderCount: Option<int>, positions: seq<Position>, orders: seq<Order>)

  predicate ScaleIs(known: Option<int>, scale: int)
  {
    known.Some? ==> known.value == scale
  }

  predicate PositionsOk(ps: seq<Position>, scale: int)
  {
    && (forall i, j :: 0 <= i < j < |ps| ==> ps[i].ticket != ps[j].ticket && ps[i].positionId != ps[j].positionId)
    && (forall i :: 0 <= i < |ps| ==>
          Units(ps[i].volume) > 0 && ScaleIs(ps[i].profitScale, scale) && ScaleIs(ps[i].swapScale, scale))
  }

  predicate OrdersOk(os: seq<Order>)
  {
    && (forall i, j :: 0 <= i < j < |os| ==> os[i].ticket != os[j].ticket)
    && (forall i :: 0 <= i < |os| ==> OrderOk(os[i]))
  }

  predicate CountsOk(e: Exposure, completeRequired: bool)
  {
    && (e.complete || completeRequired ==>
          e.positionCount == Some(|e.positions|) && e.orderCount == Some(|e.orders|))
    && (!e.complete ==> e.positions == [] && e.orders == [])
  }

  method CheckPositions(ps: seq<Position>, scale: int) returns (ok: bool)
    requires forall i :: 0 <= i < |ps| ==> Valid(ps[i].volume)
    ensures ok <==> PositionsOk(ps, scale)
  {
    hide ParseFixed, UnitsIn, Units, Valid, PositiveText;
    var tickets: set<string>, ids: set<string> := {}, {};
    for n := 0 to |ps|
      invariant tickets == set i | 0 <= i < n :: ps[i].ticket
      invariant ids == set i | 0 <= i < n :: ps[i].positionId
      invariant PositionsOk(ps[..n], scale)
    {
      var p := ps[n];
      PositiveMeans(p.volume);
      if p.ticket in tickets || p.positionId in ids || !PositiveText(p.volume)
         || !ScaleIs(p.profitScale, scale) || !ScaleIs(p.swapScale, scale)
      {
        return false;
      }
      tickets := tickets + {p.ticket};
      ids := ids + {p.positionId};
    }
    assert ps[..|ps|] == ps;
    return true;
  }

  method CheckOrders(os: seq<Order>) returns (ok: bool)
    requires forall i :: 0 <= i < |os| ==> Valid(os[i].initial) && Valid(os[i].current)
    ensures ok <==> OrdersOk(os)
  {
    hide OrderOk, Valid;
    var tickets: set<string> := {};
    for n := 0 to |os|
      invariant tickets == set i | 0 <= i < n :: os[i].ticket
      invariant OrdersOk(os[..n])
    {
      var orderOk := CheckOrder(os[n]);
      if os[n].ticket in tickets || !orderOk {
        return false;
      }
      tickets := tickets + {os[n].ticket};
    }
    assert os[..|os|] == os;
    return true;
  }

  /** `validateExposure`. */
  method ValidateExposure(e: Exposure, scale: int, completeRequired: bool) returns (ok: bool)
    requires forall i :: 0 <= i < |e.positions| ==> Valid(e.positions[i].volume)
    requires forall i :: 0 <= i < |e.orders| ==> Valid(e.orders[i].initial) && Valid(e.orders[i].current)
    ensures ok <==> PositionsOk(e.positions, scale) && OrdersOk(e.orders) && CountsOk(e, completeRequired)
  {
    var positions := CheckPositions(e.positions, scale);
    if !positions {
      return false;
    }
    var orders := CheckOrders(e.orders);
    return orders && CountsOk(e, completeRequired);
  }
}
