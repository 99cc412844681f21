/**
 Decimal digit strings and the natural numbers they denote.
 */
module Decimal {

  predicate IsDigit(c: char)
  {
    '0' <= c <= '9'
  }

  predicate AllDigits(s: string)
  {
    forall i :: 0 <= i < |s| ==> IsDigit(s[i])
  }

  /** No leading zero, except in "0" itself. */
  predicate Canonical(s: string)
  {
    AllDigits(s) && s != "" && (s[0] == '0' ==> |s| == 1)
  }

  function DigitValue(c: char): (n: nat)
    requires IsDigit(c)
    ensures n < 10
  {
    (c as int) - ('0' as int)
  }

  function DigitChar(n: nat): (c: char)
    requires n < 10
    ensures IsDigit(c) && DigitValue(c) == n
  {
    ((n + ('0' as int)) as char)
  }

  /** The number a digit string denotes; `BigInt` of it. */
  function Value(s: string): nat
    requires AllDigits(s)
  {
    if s == "" then 0 else 10 * Value(s[..|s| - 1]) + DigitValue(s[|s| - 1])
  }

  /** `toString` of a natural number. */
  function Digits(n: nat): string
  {
    if n < 10 then [DigitChar(n)] else Digits(n / 10) + [DigitChar(n % 10)]
  }

  function Pow10(k: nat): (r: nat)
    ensures r >= 1
  {
    if k == 0 then 1 else 10 * Pow10(k - 1)
  }

  lemma {:induction false} DigitsCanonical(n: nat)
    ensures Canonical(Digits(n)) && Value(Digits(n)) == n
    ensures Digits(n)[0] == '0' <==> n == 0
  {
    if n >= 10 {
      DigitsCanonical(n / 10);
      var s := Digits(n);
      assert s[..|s| - 1] == Digits(n / 10);
      assert s[0] == Digits(n / 10)[0];
    } else {
      assert Digits(n)[..0] == "";
    }
  }

  /** A canonical digit string is the only one for its number. */
  lemma {:induction false} CanonicalUnique(s: string)
    requires Canonical(s)
    ensures Digits(Value(s)) == s
  {
    var init, last := s[..|s| - 1], s[|s| - 1];
    if |s| == 1 {
      assert init == "";
      assert DigitChar(DigitValue(last)) == last;
    } else {
      CanonicalUnique(init);
      CanonicalPositive(init);
      assert s == init + [last];
      TenfoldParts(Value(init), DigitValue(last));
    }
  }

  lemma TenfoldParts(a: nat, i: nat)
    requires i < 10
    ensures (10 * a + i) / 10 == a && (10 * a + i) % 10 == i
  {
  }

  lemma {:induction false} CanonicalPositive(s: string)
    requires AllDigits(s) && s != "" && s[0] != '0'
    ensures Value(s) >= 1
  {
    if |s| > 1 {
      CanonicalPositive(s[..|s| - 1]);
    } else {
      assert s[..0] == "";
    }
  }

  lemma {:induction false} ValueBound(s: string)
    requires AllDigits(s)
    ensures Value(s) < Pow10(|s|)
  {
    if s != "" {
      ValueBound(s[..|s| - 1]);
    }
  }

  lemma {:induction false} LengthBound(n: nat, k: nat)
    requires k >= 1
    ensures |Digits(n)| <= k <==> n < Pow10(k)
  {
    if k == 1 {
      assert Pow10(1) == 10;
    } else {
      if n >= 10 {
        LengthBound(n / 10, k - 1);
      } else {
        PowGrows(1, k);
      }
    }
  }

  lemma {:induction false} PowGrows(j: nat, k: nat)
    requires j <= k
    ensures Pow10(j) <= Pow10(k)
    decreases k
  {
    if j < k {
      PowGrows(j, k - 1);
    }
  }

  /** Digit strings of one length are told apart by their numbers. */
  lemma {:induction false} SameLengthUnique(s: string, t: string)
    requires AllDigits(s) && AllDigits(t) && |s| == |t| && Value(s) == Value(t)
    ensures s == t
  {
    hide Value;
    if s != "" {
      var n := |s| - 1;
      ValueStep(s);
      ValueStep(t);
      LastDigit(Value(s[..n]), DigitValue(s[n]), Value(t[..n]), DigitValue(t[n]));
      SameLengthUnique(s[..n], t[..n]);
      assert s == s[..n] + [s[n]] && t == t[..n] + [t[n]];
    }
  }

  lemma LastDigit(a: nat, i: nat, b: nat, j: nat)
    requires i < 10 && j < 10 && 10 * a + i == 10 * b + j
    ensures a == b && i == j
  {
  }

  function Zeros(k: nat): (s: string)
    ensures |s| == k && AllDigits(s)
  {
    seq(k, _ => '0')
  }

  /** `padStart(width, '0')`. */
  function PadStart(s: string, width: nat): string
  {
    if |s| >= width then s else Zeros(width - |s|) + s
  }

  lemma {:induction false} ZerosValue(k: nat)
    ensures Value(Zeros(k)) == 0
  {
    if k > 0 {
      assert Zeros(k)[..k - 1] == Zeros(k - 1);
      ZerosValue(k - 1);
    }
  }

  lemma {:induction false} ConcatValue(s: string, t: string)
    requires AllDigits(s) && AllDigits(t)
    ensures AllDigits(s + t) && Value(s + t) == Value(s) * Pow10(|t|) + Value(t)
  {
    hide Value;
    if t == "" {
      EmptyValue();
      assert s + t == s;
    } else {
      var init := t[..|t| - 1];
      var all := s + t;
      ConcatValue(s, init);
      ValueStep(s + t);
      ValueStep(t);
      assert all[..|all| - 1] == s + init && all[|all| - 1] == t[|t| - 1];
      ShiftTen(Value(s), Pow10(|init|));
    }
  }

  lemma EmptyValue()
    ensures Value("") == 0
  {
  }

  lemma ValueStep(s: string)
    requires AllDigits(s) && s != ""
    ensures Value(s) == 10 * Value(s[..|s| - 1]) + DigitValue(s[|s| - 1])
  {
  }

  lemma ShiftTen(a: nat, b: nat)
    ensures a * (10 * b) == 10 * (a * b)
  {
  }

  lemma PadValue(s: string, width: nat)
    requires AllDigits(s)
    ensures AllDigits(PadStart(s, width)) && Value(PadStart(s, width)) == Value(s)
    ensures |PadStart(s, width)| == if |s| >= width then |s| else width
  {
    if |s| < width {
      ZerosValue(width - |s|);
      ConcatValue(Zeros(width - |s|), s);
    }
  }
}
