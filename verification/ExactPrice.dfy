/**
 Exact prices: tick sizes as decimal texts, prices as whole numbers of a common
 unit, and the rounding of distances onto a coarser or finer tick grid.
 */
module ExactPrice {
  import opened Decimal

  const FRACTION_DIGITS: nat := 12

  /** The two sides of the point in a tick size. */
  datatype TickText = TickText(whole: string, fraction: string)

  /** The tick-size pattern: canonical whole part, no trailing zero in the fraction, never zero. */
  predicate TickPattern(t: TickText)
  {
    && Canonical(t.whole) && AllDigits(t.fraction) && |t.fraction| <= FRACTION_DIGITS
    && (t.fraction != "" ==> t.fraction[|t.fraction| - 1] != '0')
    && (t.whole == "0" ==> t.fraction != "")
  }

  /** `padEnd(12, '0')`. */
  function PadEnd(s: string): string
  {
    if |s| >= FRACTION_DIGITS then s else s + Zeros(FRACTION_DIGITS - |s|)
  }

  lemma PadEndDigits(s: string)
    requires AllDigits(s) && |s| <= FRACTION_DIGITS
    ensures AllDigits(PadEnd(s)) && |PadEnd(s)| == FRACTION_DIGITS
  {
  }

  /** `parseTickSizeToPriceUnits`. */
  function PriceUnits(t: TickText): nat
    requires TickPattern(t)
  {
    PadEndDigits(t.fraction);
    Value(t.whole) * Pow10(FRACTION_DIGITS) + Value(PadEnd(t.fraction))
  }

  lemma {:induction false} SomeDigitPositive(s: string, i: nat)
    requires AllDigits(s) && i < |s| && s[i] != '0'
    ensures Value(s) >= 1
    decreases |s|
  {
    if i < |s| - 1 {
      SomeDigitPositive(s[..|s| - 1], i);
    }
  }

  lemma PadEndUnique(s: string, t: string)
    requires AllDigits(s) && AllDigits(t) && |s| <= FRACTION_DIGITS && |t| <= FRACTION_DIGITS
    requires s != "" ==> s[|s| - 1] != '0'
    requires t != "" ==> t[|t| - 1] != '0'
    requires PadEnd(s) == PadEnd(t)
    ensures s == t
  {
    var p := PadEnd(s);
    assert p[..|s|] == s && p[..|t|] == t;
    assert forall i :: |s| <= i < FRACTION_DIGITS ==> p[i] == '0';
    assert forall i :: |t| <= i < FRACTION_DIGITS ==> PadEnd(t)[i] == '0';
  }

  lemma {:induction false} ProductGap(a: nat, b: nat, m: nat)
    requires a < b
    ensures a * m + m <= b * m
    decreases b
  {
    assert b * m == (b - 1) * m + m;
    if a + 1 < b {
      ProductGap(a, b - 1, m);
    }
  }

  lemma QuotientUnique(a: nat, i: nat, b: nat, j: nat, m: nat)
    requires i < m && j < m && a * m + i == b * m + j
    ensures a == b && i == j
  {
    if a < b {
      ProductGap(a, b, m);
    } else if b < a {
      ProductGap(b, a, m);
    }
  }

  /** A tick size is positive, and its units determine its text. */
  lemma TickSizeUnique(s: TickText, t: TickText)
    requires TickPattern(s) && TickPattern(t)
    ensures PriceUnits(s) >= 1
    ensures PriceUnits(s) == PriceUnits(t) <==> s == t
  {
    PadEndDigits(s.fraction);
    PadEndDigits(t.fraction);
    ValueBound(PadEnd(s.fraction));
    ValueBound(PadEnd(t.fraction));
    UnitsPositive(s);
    if PriceUnits(s) == PriceUnits(t) {
      QuotientUnique(Value(s.whole), Value(PadEnd(s.fraction)), Value(t.whole), Value(PadEnd(t.fraction)),
                     Pow10(FRACTION_DIGITS));
      CanonicalUnique(s.whole);
      CanonicalUnique(t.whole);
      SameLengthUnique(PadEnd(s.fraction), PadEnd(t.fraction));
      PadEndUnique(s.fraction, t.fraction);
    }
  }

  lemma UnitsPositive(t: TickText)
    requires TickPattern(t)
    ensures PriceUnits(t) >= 1
  {
    PadEndDigits(t.fraction);
    if t.fraction != "" {
      SomeDigitPositive(PadEnd(t.fraction), |t.fraction| - 1);
    } else {
      CanonicalPositive(t.whole);
      assert Value(t.whole) * Pow10(FRACTION_DIGITS) >= 1;
    }
  }

  /** `ceilPriceUnitsToTicks`: the least number of ticks that covers the distance. */
  function CeilTicks(distance: nat, tick: nat): (n: nat)
    requires tick > 0
    ensures n * tick >= distance && (n > 0 ==> (n - 1) * tick < distance)
  {
    var n := (distance + tick - 1) / tick;
    CeilBounds(distance, tick);
    n
  }

  lemma CeilBounds(distance: nat, tick: nat)
    requires tick > 0
    ensures var n := (distance + tick - 1) / tick; n * tick >= distance && (n > 0 ==> (n - 1) * tick < distance)
  {
    var n, rest := (distance + tick - 1) / tick, (distance + tick - 1) % tick;
    assert n * tick + rest == distance + tick - 1;
    assert (n - 1) * tick == n * tick - tick;
  }

  /** On the same grid nothing is rounded. */
  lemma CeilExact(n: nat, tick: nat)
    requires tick > 0
    ensures CeilTicks(n * tick, tick) == n
  {
    var m := CeilTicks(n * tick, tick);
    if m < n {
      ProductGap(m, n, tick);
    } else if m > n + 1 {
      ProductGap(n, m - 1, tick);
    }
  }
}
