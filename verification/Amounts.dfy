/** Bounded addition of admitted amounts (pmqa/usage/summary.py) and what a whole
    fold of additions does, whatever the order of the summands. */
module Amounts {
  import opened Wrappers
  import opened Decimals
  import opened Sequences

  /** Fraction digits an admitted amount can have, 126: a text of full length less "0.". It is
      written as the length of a text, not as a literal, so that proofs about scaling by it stay
      symbolic and unfold no recursion. */
  const FRACTION_LIMIT: nat := |Zeros(MAX_DECIMAL_LENGTH)| - 2

  const AGGREGATE_PRECISION: nat := 256
  const ROLLUP_PRECISION: nat := 512

  predicate IsAmount(d: Decimal) {
    d.Finite? && !d.negative
  }

  /** Round half even to the given number of digits. */
  function RoundHalfEven(coefficient: nat, exponent: int, precision: nat): Decimal
    requires precision > 0
  {
    var n := DigitCount(coefficient);
    if n <= precision then Finite(false, coefficient, exponent)
    else
      var k := n - precision;
      var q, r := Quotient(coefficient, k), Remainder(coefficient, k);
      var up := 2 * r > Pow10(k) || (2 * r == Pow10(k) && q % 2 == 1);
      var q' := if up then q + 1 else q;
      if DigitCount(q') > precision then Finite(false, q' / 10, exponent + k + 1)
      else Finite(false, q', exponent + k)
  }

  function MinExponent(a: Decimal, b: Decimal): int
    requires IsAmount(a) && IsAmount(b)
  {
    if a.exponent <= b.exponent then a.exponent else b.exponent
  }

  /** Addition in a decimal context of the given precision. */
  function ContextAdd(precision: nat, a: Decimal, b: Decimal): Decimal
    requires precision > 0 && IsAmount(a) && IsAmount(b)
  {
    var e := MinExponent(a, b);
    RoundHalfEven(Shift(a.coefficient, a.exponent - e) + Shift(b.coefficient, b.exponent - e), e, precision)
  }

  /** The bounded add: None stands for the overflow error. */
  function BoundedAdd(precision: nat, a: Decimal, b: Decimal): Option<Decimal>
    requires precision > 0 && IsAmount(a) && IsAmount(b)
  {
    Bounded(ContextAdd(precision, a, b))
  }

  // ----- amounts as integers in units of the smallest fraction -----

  /** Amounts that a fold over re-parsed evidence meets. */
  predicate IsSummand(d: Decimal) {
    && IsAmount(d)
    && 0 - FRACTION_LIMIT <= d.exponent <= 0
    && (d.coefficient == 0 ==> d.exponent == 0)
    && SerializedLength(d) <= MAX_DECIMAL_LENGTH
  }

  function Units(d: Decimal): nat
    requires IsAmount(d) && 0 - FRACTION_LIMIT <= d.exponent <= 0
  {
    Scaled(d, FRACTION_LIMIT)
  }

  function AmountOf(units: nat, fraction: nat): (d: Decimal)
    requires fraction <= FRACTION_LIMIT
    ensures IsAmount(d) && d.exponent + fraction == 0
  {
    Finite(false, Quotient(units, FRACTION_LIMIT - fraction), 0 - fraction as int)
  }

  /** Integer digits, and the point with the fraction digits when there are any. */
  function AmountLength(units: nat, fraction: nat): nat {
    DigitCount(Quotient(units, FRACTION_LIMIT)) + if fraction == 0 then 0 else 1 + fraction
  }

  predicate Fits(units: nat, fraction: nat) {
    fraction <= FRACTION_LIMIT && AmountLength(units, fraction) <= MAX_DECIMAL_LENGTH
  }

  lemma AmountOfUnits(d: Decimal)
    requires IsAmount(d) && 0 - FRACTION_LIMIT <= d.exponent <= 0
    ensures AmountOf(Units(d), -d.exponent) == d
  {
    QuotientUnique(d.coefficient, 0, FRACTION_LIMIT + d.exponent);
  }

  /** More value or more fraction digits never make the text shorter. */
  lemma LengthMonotone(u: nat, f: nat, u': nat, f': nat)
    requires u <= u' && f <= f'
    ensures AmountLength(u, f) <= AmountLength(u', f')
    ensures Fits(u', f') ==> Fits(u, f)
  {
    QuotientMonotone(u, u', FRACTION_LIMIT);
    DigitCountMonotone(Quotient(u, FRACTION_LIMIT), Quotient(u', FRACTION_LIMIT));
  }

  /** Both scales have the same integer part. */
  lemma IntegerPart(d: Decimal)
    requires IsAmount(d) && 0 - FRACTION_LIMIT <= d.exponent <= 0
    ensures Quotient(Units(d), FRACTION_LIMIT) == Quotient(d.coefficient, -d.exponent)
  {
    var f, k := -d.exponent, FRACTION_LIMIT + d.exponent;
    var q, r := Quotient(d.coefficient, f), Remainder(d.coefficient, f);
    QuotientRemainder(d.coefficient, f);
    ShiftAdd(Shift(q, f), r, k);
    ShiftShift(q, f, k);
    ShiftStrict(r, Pow10(f), k);
    ShiftShift(1, f, k);
    assert f + k == FRACTION_LIMIT;
    assert Shift(r, k) < Pow10(f + k);
    QuotientUnique(q, Shift(r, k), f + k);
  }

  /** The length rule of the contract, read off the value and the fraction digits. */
  lemma LengthOfUnits(d: Decimal)
    requires IsAmount(d) && 0 - FRACTION_LIMIT <= d.exponent <= 0
    ensures SerializedLength(d) == AmountLength(Units(d), -d.exponent)
  {
    IntegerPart(d);
    var f := -d.exponent;
    var q := Quotient(d.coefficient, f);
    QuotientRemainder(d.coefficient, f);
    if q > 0 {
      DigitCountDrop(d.coefficient, f);
    } else if f > 0 {
      ShiftZero(f);
      DigitCountAtMost(d.coefficient, f);
    }
  }

  lemma SumDigitCount(x: nat, y: nat, n: nat)
    requires DigitCount(x) <= n && DigitCount(y) <= n
    ensures DigitCount(x + y) <= n + 1
  {
    DigitCountBounds(x);
    DigitCountBounds(y);
    Pow10Monotone(DigitCount(x), n);
    Pow10Monotone(DigitCount(y), n);
    DigitCountAtMost(x + y, n + 1);
  }

  /** A summand has at most 254 digits at the common scale. */
  lemma UnitsDigits(d: Decimal)
    requires IsSummand(d)
    ensures DigitCount(Units(d)) <= MAX_DECIMAL_LENGTH + FRACTION_LIMIT
  {
    LengthOfUnits(d);
    hide Digits, SerializedLength;
    var q := Quotient(Units(d), FRACTION_LIMIT);
    QuotientRemainder(Units(d), FRACTION_LIMIT);
    DigitCountBounds(q);
    ShiftStrict(q, Pow10(DigitCount(q)), FRACTION_LIMIT);
    ShiftShift(1, DigitCount(q), FRACTION_LIMIT);
    DigitCountAtMost(Units(d), DigitCount(q) + FRACTION_LIMIT);
  }

  /** The sum at the finer of two exponents. */
  function ExactSum(a: Decimal, b: Decimal): Decimal
    requires IsAmount(a) && IsAmount(b)
  {
    var e := MinExponent(a, b);
    Finite(false, Shift(a.coefficient, a.exponent - e) + Shift(b.coefficient, b.exponent - e), e)
  }

  lemma ExactSumUnits(a: Decimal, b: Decimal)
    requires IsSummand(a) && IsSummand(b)
    ensures Units(ExactSum(a, b)) == Units(a) + Units(b)
    ensures ExactSum(a, b).coefficient == 0 ==> ExactSum(a, b).exponent == 0
  {
    hide Digits;
    var e := MinExponent(a, b);
    var k := FRACTION_LIMIT + e;
    ShiftShift(a.coefficient, a.exponent - e, k);
    ShiftShift(b.coefficient, b.exponent - e, k);
    ShiftAdd(Shift(a.coefficient, a.exponent - e), Shift(b.coefficient, b.exponent - e), k);
  }

  /** The sum of two summands stays below 255 digits, so the context does not round it. */
  lemma NoRounding(precision: nat, a: Decimal, b: Decimal)
    requires precision >= 255 && IsSummand(a) && IsSummand(b)
    ensures ContextAdd(precision, a, b) == ExactSum(a, b)
  {
    ExactSumUnits(a, b);
    UnitsDigits(a);
    UnitsDigits(b);
    hide Digits, IsSummand;
    var s := ExactSum(a, b);
    SumDigitCount(Units(a), Units(b), MAX_DECIMAL_LENGTH + FRACTION_LIMIT);
    DigitCountMonotone(s.coefficient, Units(s));
  }

  /** Adding two summands is exact; only the length of the exact sum can reject it. */
  lemma AddExact(precision: nat, a: Decimal, b: Decimal)
    requires precision >= 255 && IsSummand(a) && IsSummand(b)
    ensures var u, f := Units(a) + Units(b), -MinExponent(a, b);
            BoundedAdd(precision, a, b) == if Fits(u, f) then Some(AmountOf(u, f)) else None
    ensures BoundedAdd(precision, a, b).Some? ==>
              IsSummand(BoundedAdd(precision, a, b).value) && Units(BoundedAdd(precision, a, b).value) == Units(a)
                + Units(b)
  {
    NoRounding(precision, a, b);
    ExactSumUnits(a, b);
    hide Digits, Shift, ContextAdd;
    var s := ExactSum(a, b);
    LengthOfUnits(s);
    AmountOfUnits(s);
    ZeroFits();
  }

  lemma ZeroFits()
    ensures Fits(0, 0) && AmountLength(0, 0) == 1 && AmountOf(0, 0) == ZERO && IsSummand(ZERO) && Units(ZERO) == 0
  {
    ShiftZero(FRACTION_LIMIT);
    QuotientUnique(0, 0, FRACTION_LIMIT);
  }

  // ----- whole folds -----

  predicate AllSummands(ds: seq<Decimal>) {
    forall i :: 0 <= i < |ds| ==> IsSummand(ds[i])
  }

  function SumUnits(ds: seq<Decimal>): nat
    requires AllSummands(ds)
  {
    if ds == [] then 0 else SumUnits(ds[..|ds| - 1]) + Units(ds[|ds| - 1])
  }

  function Max(a: nat, b: nat): nat {
    if a < b then b else a
  }

  function MaxFraction(ds: seq<Decimal>): (f: nat)
    requires AllSummands(ds)
    ensures f <= FRACTION_LIMIT
  {
    if ds == [] then 0 else Max(MaxFraction(ds[..|ds| - 1]), -ds[|ds| - 1].exponent)
  }

  /** Left fold of the bounded add from zero; one overflow ends it. */
  function FoldAdd(precision: nat, ds: seq<Decimal>): (r: Option<Decimal>)
    requires precision >= 255 && AllSummands(ds)
    ensures r.Some? ==> IsSummand(r.value)
  {
    if ds == [] then (ZeroFits(); Some(ZERO))
    else
      match FoldAdd(precision, ds[..|ds| - 1])
      case None => None
      case Some(acc) => AddExact(precision, acc, ds[|ds| - 1]); BoundedAdd(precision, acc, ds[|ds| - 1])
  }

  /** A fold overflows exactly when its exact sum, with the longest fraction met, does not fit. */
  lemma {:induction false} FoldIsSum(precision: nat, ds: seq<Decimal>)
    requires precision >= 255 && AllSummands(ds)
    ensures FoldAdd(precision, ds) ==
            if Fits(SumUnits(ds), MaxFraction(ds)) then Some(AmountOf(SumUnits(ds), MaxFraction(ds))) else None
  {
    ZeroFits();
    hide Fits, BoundedAdd, IsSummand, AmountOf;
    if ds != [] {
      var rest, last := ds[..|ds| - 1], ds[|ds| - 1];
      FoldIsSum(precision, rest);
      LengthMonotone(SumUnits(rest), MaxFraction(rest), SumUnits(ds), MaxFraction(ds));
      var acc := FoldAdd(precision, rest);
      if acc.Some? {
        AddExact(precision, acc.value, last);
        FoldUnits(precision, rest);
      }
    }
  }

  lemma {:induction false} FoldUnits(precision: nat, ds: seq<Decimal>)
    requires precision >= 255 && AllSummands(ds) && FoldAdd(precision, ds).Some?
    ensures Units(FoldAdd(precision, ds).value) == SumUnits(ds)
  {
    ZeroFits();
    if ds != [] {
      FoldUnits(precision, ds[..|ds| - 1]);
      AddExact(precision, FoldAdd(precision, ds[..|ds| - 1]).value, ds[|ds| - 1]);
    }
  }

  lemma {:induction false} RemoveSummand(ds: seq<Decimal>, i: nat)
    requires AllSummands(ds) && i < |ds|
    ensures SumUnits(ds) == SumUnits(RemoveAt(ds, i)) + Units(ds[i])
    ensures MaxFraction(ds) == Max(MaxFraction(RemoveAt(ds, i)), -ds[i].exponent)
  {
    hide Units, IsSummand;
    var rest := ds[..|ds| - 1];
    if i == |rest| {
      assert RemoveAt(ds, i) == rest;
    } else {
      RemoveSummand(rest, i);
      assert RemoveAt(ds, i)[..|ds| - 2] == RemoveAt(rest, i);
    }
  }

  /** A sub-selection in any order has no more value and no longer fraction. */
  lemma {:induction false} SubSelectionSum(a: seq<Decimal>, b: seq<Decimal>)
    requires AllSummands(a) && AllSummands(b) && multiset(a) <= multiset(b)
    ensures SumUnits(a) <= SumUnits(b) && MaxFraction(a) <= MaxFraction(b)
    ensures |a| == |b| ==> SumUnits(a) == SumUnits(b) && MaxFraction(a) == MaxFraction(b)
  {
    hide Units, IsSummand;
    if a != [] {
      var j := FindLast(a, b);
      RemoveFromBoth(a, b, j);
      RemoveSummand(b, j);
      SubSelectionSum(a[..|a| - 1], RemoveAt(b, j));
    }
  }

  /** Overflow depends only on the summands: not on their order, and never on taking fewer. */
  lemma FoldOrderFree(precision: nat, a: seq<Decimal>, b: seq<Decimal>)
    requires precision >= 255 && AllSummands(a) && AllSummands(b)
    ensures multiset(a) == multiset(b) ==> FoldAdd(precision, a) == FoldAdd(precision, b)
    ensures multiset(a) <= multiset(b) && FoldAdd(precision, b).Some? ==> FoldAdd(precision, a).Some?
  {
    FoldIsSum(precision, a);
    FoldIsSum(precision, b);
    if multiset(a) <= multiset(b) {
      SubSelectionSum(a, b);
      LengthMonotone(SumUnits(a), MaxFraction(a), SumUnits(b), MaxFraction(b));
      if multiset(a) == multiset(b) {
        assert |a| == |multiset(a)| == |b|;
      }
    }
  }

  // ----- snapshots of amounts -----

  /** Printing and parsing keeps the value, never lengthens the fraction and gives a summand. */
  lemma NormalizeKeepsUnits(d: Decimal)
    requires IsAmount(d) && 0 - FRACTION_LIMIT <= d.exponent <= 0 && SerializedLength(d) <= MAX_DECIMAL_LENGTH
    ensures IsSummand(Normalize(d)) && Units(Normalize(d)) == Units(d)
    ensures -Normalize(d).exponent <= -d.exponent
  {
    PrintedReparses(d);
    var s := Serialize(d);
    FormatParsed(s);
    LengthFormula(ParseText(s));
    assert Scaled(ParseText(s), FRACTION_LIMIT) == Scaled(d, FRACTION_LIMIT);
    if d.coefficient == 0 {
      PointIndexOf("0", []);
    }
  }

  /** The bound is on the unstripped text: an amount of 128 characters ending in .5 and large
      enough overflows when added to itself, although the sum, stripped, would be admitted. */
  lemma OverflowOfRepresentableSum(precision: nat, c: nat)
    requires precision >= 255 && DigitCount(c) == 127 && c % 10 == 5 && DigitCount(2 * c) == 128
    ensures var a, d := Finite(false, c, -1), Finite(false, 2 * c / 10, 0);
            IsSummand(a) && BoundedAdd(precision, a, a).None? && IsSummand(d) && Units(d) == Units(a) + Units(a)
  {
    var a, d, s := Finite(false, c, -1), Finite(false, 2 * c / 10, 0), Finite(false, 2 * c, -1);
    hide Digits, BoundedAdd;
    AddExact(precision, a, a);
    LengthOfUnits(s);
    ShiftAdd(c, c, FRACTION_LIMIT - 1);
    ShiftShift(2 * c / 10, 1, FRACTION_LIMIT - 1);
    assert Shift(2 * c / 10, 1) == 2 * c;
  }
}
