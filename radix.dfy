/**
 * Positional numerals in an arbitrary base, most significant digit first.
 *
 * Both halves of the UUID <-> base62 pipeline are instances of this one
 * concept: a UUID's 16 bytes are the 16 base-256 digits of a 128-bit
 * number (big-endian), and its text is the minimal base-62 numeral of that
 * number.
 */
module Radix {

  /** b raised to the n-th power. */
  function Pow(b: nat, n: nat): (r: nat)
    ensures b >= 1 ==> r >= 1
  {
    if n == 0 then 1 else b * Pow(b, n - 1)
  }

  /** True when every digit is below the base. */
  predicate IsDigits(ds: seq<int>, b: nat)
  {
    forall i :: 0 <= i < |ds| ==> 0 <= ds[i] < b
  }

  /** The number a digit sequence denotes: Horner's rule, left to right. */
  function Value(ds: seq<int>, b: nat): (v: int)
  {
    if ds == [] then 0 else Value(ds[..|ds| - 1], b) * b + ds[|ds| - 1]
  }

  /** The w low-order base-b digits of v, most significant first. */
  function Digits(v: nat, b: nat, w: nat): (ds: seq<int>)
    requires b >= 2
    ensures |ds| == w && IsDigits(ds, b)
  {
    if w == 0 then [] else Digits(v / b, b, w - 1) + [v % b]
  }

  /** One more low-order digit: the digits of v / b, then v % b. */
  lemma DigitsSnoc(v: nat, b: nat, w: nat, ds: seq<int>)
    requires b >= 2 && Digits(v / b, b, w) == ds
    ensures Digits(v, b, w + 1) == ds + [v % b]
  {
  }

  /** Peeling the lowest of the m digits of v off the front part of ds = Digits(v, b, m) + lo. */
  lemma DigitsSplitStep(v: nat, b: nat, m: nat, lo: seq<int>, ds: seq<int>)
    requires b >= 2 && m >= 1 && Digits(v, b, m) + lo == ds
    ensures Digits(v / b, b, m - 1) + ([v % b] + lo) == ds && ds[m - 1] == v % b
  {
    assert Digits(v, b, m) == Digits(v / b, b, m - 1) + [v % b];
    assert Digits(v / b, b, m - 1) + [v % b] + lo == Digits(v / b, b, m - 1) + ([v % b] + lo);
  }

  /** The number of digits of the minimal numeral of v: one for v < b. */
  function Width(v: nat, b: nat): (w: nat)
    requires b >= 2
    ensures w >= 1
  {
    if v < b then 1 else DivLess(v, b); 1 + Width(v / b, b)
  }

  /** The minimal numeral of v: no leading zero digit, except zero itself. */
  function Numeral(v: nat, b: nat): (ds: seq<int>)
    requires b >= 2
    ensures |ds| == Width(v, b) && IsDigits(ds, b)
  {
    Digits(v, b, Width(v, b))
  }

  /** A numeral is canonical when it is one digit, or its first digit is not zero. */
  predicate IsCanonical(ds: seq<int>)
  {
    |ds| == 1 || (|ds| > 1 && ds[0] != 0)
  }

  // ---------------------------------------------------------------------
  // Arithmetic helpers

  lemma MulLe(x: int, y: int, c: int)
    requires x <= y && c >= 0
    ensures x * c <= y * c
  {
    assert y * c - x * c == (y - x) * c;
  }

  lemma MulNonZero(k: int, b: int)
    requires b >= 1 && k != 0
    ensures b * k >= b || b * k <= -b
  {
    if k > 0 { MulLe(1, k, b); } else { MulLe(k, -1, b); }
  }

  lemma DivMod(q: int, d: int, b: int)
    requires b >= 1 && 0 <= d < b
    ensures (q * b + d) / b == q && (q * b + d) % b == d
  {
    var x := q * b + d;
    var k := x / b - q;
    assert b * k == d - x % b by {
      assert x == b * (x / b) + x % b;
      assert b * (x / b) == b * k + b * q;
    }
    if k != 0 {
      MulNonZero(k, b);
    }
  }

  lemma Split(v: int, b: int)
    requires b >= 1
    ensures v == (v / b) * b + v % b && 0 <= v % b < b
  {
  }

  lemma DivNonNegative(v: int, b: int)
    requires b >= 1 && v >= 0
    ensures v / b >= 0
  {
    Split(v, b);
    if v / b < 0 {
      MulLe(v / b, -1, b);
    }
  }

  lemma DivLess(v: int, b: int)
    requires b >= 2 && v >= 1
    ensures 0 <= v / b < v
  {
    Split(v, b);
    MulLe(2, b, v / b);
  }

  /** One Horner step stays below the next power: v < p and d < b give v * b + d < p * b. */
  lemma HornerBound(v: int, d: int, b: int, p: int)
    requires 0 <= v < p && 0 <= d < b
    ensures 0 <= v * b + d < p * b
  {
    MulLe(v, p - 1, b);
    MulLe(0, v, b);
    assert (p - 1) * b == p * b - b;
  }

  lemma PowStep(b: nat, n: nat)
    ensures Pow(b, n + 1) == Pow(b, n) * b
  {
  }

  lemma {:induction false} PowMonotone(b: nat, m: nat, n: nat)
    requires b >= 2 && m < n
    ensures Pow(b, m) < Pow(b, n)
  {
    if n == m + 1 {
      assert Pow(b, n) == b * Pow(b, m);
    } else {
      PowMonotone(b, m, n - 1);
      assert Pow(b, n) == b * Pow(b, n - 1);
    }
  }

  /** A sequence of zero digits denotes zero. */
  lemma {:induction false} ValueOfZeros(ds: seq<int>, b: nat)
    requires forall i :: 0 <= i < |ds| ==> ds[i] == 0
    ensures Value(ds, b) == 0
  {
    if ds != [] {
      ValueOfZeros(ds[..|ds| - 1], b);
    }
  }

  /** Horner's rule one digit at a time, on a prefix. */
  lemma ValuePrefixStep(ds: seq<int>, i: nat, b: nat)
    requires i < |ds|
    ensures Value(ds[..i + 1], b) == Value(ds[..i], b) * b + ds[i]
  {
    assert ds[..i + 1][..i] == ds[..i];
  }

  // ---------------------------------------------------------------------
  // Digits and Value are inverse to each other

  /** A digit sequence denotes a number below b^|ds|. */
  lemma {:induction false} ValueBound(ds: seq<int>, b: nat)
    requires b >= 2 && IsDigits(ds, b)
    ensures 0 <= Value(ds, b) < Pow(b, |ds|)
  {
    if ds != [] {
      var init := ds[..|ds| - 1];
      assert IsDigits(init, b);
      ValueBound(init, b);
      HornerBound(Value(init, b), ds[|ds| - 1], b, Pow(b, |init|));
      PowStep(b, |init|);
    }
  }

  /** Reading the w low-order digits of v back gives v modulo b^w. */
  lemma {:induction false} ValueOfDigits(v: nat, b: nat, w: nat)
    requires b >= 2
    ensures Value(Digits(v, b, w), b) == v % Pow(b, w)
  {
    if w == 0 {
      assert Pow(b, w) == 1;
    } else {
      var q: nat := v / b;
      var ds := Digits(v, b, w);
      var init := Digits(q, b, w - 1);
      var p := Pow(b, w - 1);
      assert ds[..w - 1] == init;
      ValueOfDigits(q, b, w - 1);
      ModStep(v, b, p);
      PowStep(b, w - 1);
    }
  }

  /** The digit-by-digit split of a remainder: v mod (p*b) from v mod b and (v/b) mod p. */
  lemma ModStep(v: nat, b: nat, p: nat)
    requires b >= 2 && p >= 1
    ensures v % (p * b) == ((v / b) % p) * b + v % b
  {
    var q, r := v / b, v % b;
    var hi, lo := q / p, q % p;
    Split(v, b);
    Split(q, p);
    assert v == hi * (p * b) + (lo * b + r) by {
      assert (hi * p + lo) * b == hi * (p * b) + lo * b;
    }
    MulLe(lo, p - 1, b);
    assert (p - 1) * b == p * b - b;
    DivMod(hi, lo * b + r, p * b);
  }

  /** Writing the number a w-digit sequence denotes back in w digits gives the sequence. */
  lemma {:induction false} DigitsOfValue(ds: seq<int>, b: nat)
    requires b >= 2 && IsDigits(ds, b)
    ensures Value(ds, b) >= 0 && Digits(Value(ds, b), b, |ds|) == ds
  {
    ValueBound(ds, b);
    if ds != [] {
      var init := ds[..|ds| - 1];
      var d := ds[|ds| - 1];
      assert IsDigits(init, b);
      ValueBound(init, b);
      DigitsOfValue(init, b);
      DivMod(Value(init, b), d, b);
      assert ds == init + [d];
    }
  }

  // ---------------------------------------------------------------------
  // The minimal numeral

  /** Width(v) is the least w with v < b^w. */
  lemma {:induction false} WidthBounds(v: nat, b: nat)
    requires b >= 2
    ensures v < Pow(b, Width(v, b))
    ensures Width(v, b) > 1 ==> Pow(b, Width(v, b) - 1) <= v
  {
    if v >= b {
      var q := v / b;
      DivLess(v, b);
      WidthBounds(q, b);
      var w := Width(q, b);
      assert Width(v, b) == w + 1;
      Split(v, b);
      HornerBound(q, v % b, b, Pow(b, w));
      PowStep(b, w);
      if w > 1 {
        MulLe(Pow(b, w - 1), q, b);
        PowStep(b, w - 1);
      } else {
        assert Pow(b, w) == b;
      }
    }
  }

  /** The minimal numeral of v fits in k digits exactly when v < b^k. */
  lemma WidthAtMost(v: nat, b: nat, k: nat)
    requires b >= 2 && k >= 1
    ensures Width(v, b) <= k <==> v < Pow(b, k)
  {
    WidthBounds(v, b);
    var w := Width(v, b);
    if w <= k {
      if w < k { PowMonotone(b, w, k); }
    } else {
      if k < w - 1 { PowMonotone(b, k, w - 1); }
    }
  }

  /** Reading the minimal numeral of v gives v back. */
  lemma NumeralValue(v: nat, b: nat)
    requires b >= 2
    ensures Value(Numeral(v, b), b) == v
  {
    var w := Width(v, b);
    ValueOfDigits(v, b, w);
    WidthBounds(v, b);
    DivMod(0, v, Pow(b, w));
  }

  /** The minimal numeral never starts with a superfluous zero digit. */
  lemma NumeralCanonical(v: nat, b: nat)
    requires b >= 2
    ensures IsCanonical(Numeral(v, b))
    ensures Numeral(v, b)[0] == 0 <==> v == 0
  {
    var w := Width(v, b);
    var ds := Numeral(v, b);
    if w == 1 {
      assert ds == Digits(v / b, b, 0) + [v % b];
      DivMod(0, v, b);
    } else {
      NumeralValue(v, b);
      WidthBounds(v, b);
      assert Pow(b, w - 1) <= v;
      if ds[0] == 0 {
        ValueZeroHead(ds, b);
        assert IsDigits(ds[1..], b);
        ValueBound(ds[1..], b);
        assert false;
      }
      assert Pow(b, w - 1) >= 1;
    }
  }

  /** A leading zero digit does not contribute to the value. */
  lemma {:induction false} ValueZeroHead(ds: seq<int>, b: nat)
    requires |ds| >= 1 && ds[0] == 0
    ensures Value(ds, b) == Value(ds[1..], b)
  {
    if |ds| > 1 {
      var init := ds[..|ds| - 1];
      ValueZeroHead(init, b);
      assert init[1..] == ds[1..][..|ds| - 2];
    }
  }

  /** No digit sequence denoting v is shorter than the minimal numeral of v. */
  lemma NumeralShortest(ds: seq<int>, b: nat)
    requires b >= 2 && IsDigits(ds, b) && |ds| >= 1
    ensures Value(ds, b) >= 0 && Width(Value(ds, b), b) <= |ds|
  {
    ValueBound(ds, b);
    WidthAtMost(Value(ds, b), b, |ds|);
  }

  /** A canonical digit sequence is the minimal numeral of the number it denotes. */
  lemma NumeralOfCanonical(ds: seq<int>, b: nat)
    requires b >= 2 && IsDigits(ds, b) && IsCanonical(ds)
    ensures Value(ds, b) >= 0 && Numeral(Value(ds, b), b) == ds
  {
    var v := Value(ds, b);
    ValueBound(ds, b);
    NumeralShortest(ds, b);
    if Width(v, b) < |ds| {
      // then v < b^(|ds|-1) although its leading digit is not zero
      WidthAtMost(v, b, |ds| - 1);
      LeadingDigitBound(ds, b);
      assert false;
    }
    DigitsOfValue(ds, b);
  }

  /** A sequence whose first of several digits is not zero denotes at least b^(|ds|-1). */
  lemma {:induction false} LeadingDigitBound(ds: seq<int>, b: nat)
    requires b >= 2 && IsDigits(ds, b) && |ds| >= 1 && ds[0] >= 1
    ensures Value(ds, b) >= Pow(b, |ds| - 1)
  {
    if |ds| > 1 {
      var init := ds[..|ds| - 1];
      assert IsDigits(init, b);
      LeadingDigitBound(init, b);
      MulLe(Pow(b, |init| - 1), Value(init, b), b);
      PowStep(b, |init| - 1);
    }
  }
}
