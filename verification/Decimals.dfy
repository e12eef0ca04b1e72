/** Decimal amounts: canonical text, admission and context addition
    (pmqa/usage/contracts.py and the bounded adds of pmqa/usage/summary.py). */
module Decimals {
  import opened Wrappers

  const MAX_DECIMAL_LENGTH: nat := 128

  /** A Python Decimal: sign, coefficient and exponent, or an infinity or NaN. */
  datatype Decimal = Finite(negative: bool, coefficient: nat, exponent: int) | NonFinite

  /** What a caller may hand to an amount field. */
  datatype AmountInput = FromDecimal(d: Decimal) | FromText(s: string) | OtherType

  const ZERO := Finite(false, 0, 0)

  // ----- powers of ten and digit strings -----

  /** n times ten to the k, written as repeated multiplication by ten. */
  function Shift(n: nat, k: nat): (m: nat)
    ensures n <= m
  {
    if k == 0 then n else 10 * Shift(n, k - 1)
  }

  function Pow10(k: nat): nat {
    Shift(1, k)
  }

  lemma {:induction false} ShiftShift(n: nat, a: nat, b: nat)
    ensures Shift(Shift(n, a), b) == Shift(n, a + b)
  {
    if b > 0 {
      ShiftShift(n, a, b - 1);
    }
  }

  lemma {:induction false} ShiftAdd(n: nat, m: nat, k: nat)
    ensures Shift(n + m, k) == Shift(n, k) + Shift(m, k)
  {
    if k > 0 {
      ShiftAdd(n, m, k - 1);
    }
  }

  lemma {:induction false} ShiftZero(k: nat)
    ensures Shift(0, k) == 0
  {
    if k > 0 {
      ShiftZero(k - 1);
    }
  }

  lemma {:induction false} ShiftStrict(n: nat, m: nat, k: nat)
    ensures n < m <==> Shift(n, k) < Shift(m, k)
    ensures n < m ==> Shift(n, k) + Shift(1, k) <= Shift(m, k)
  {
    if k > 0 {
      ShiftStrict(n, m, k - 1);
    }
  }

  lemma {:induction false} Pow10Monotone(a: nat, b: nat)
    requires a <= b
    ensures Pow10(a) <= Pow10(b)
  {
    if a < b {
      Pow10Monotone(a, b - 1);
    }
  }

  predicate IsDigit(c: char) {
    '0' <= c <= '9'
  }

  predicate AllDigits(s: string) {
    forall i :: 0 <= i < |s| ==> IsDigit(s[i])
  }

  function DigitChar(n: nat): (c: char)
    requires n < 10
    ensures IsDigit(c)
  {
    '0' + n as char
  }

  function DigitValue(c: char): (n: nat)
    requires IsDigit(c)
    ensures n < 10 && DigitChar(n) == c
  {
    (c - '0') as nat
  }

  /** The coefficient's digits, "0" for zero, without leading zeros otherwise. */
  function Digits(n: nat): (s: string)
    ensures |s| > 0 && AllDigits(s)
    ensures s[0] == '0' ==> n == 0
    ensures n < 10 ==> |s| == 1
  {
    if n < 10 then [DigitChar(n)] else Digits(n / 10) + [DigitChar(n % 10)]
  }

  function DigitCount(n: nat): nat {
    |Digits(n)|
  }

  function ParseNat(s: string): nat
    requires AllDigits(s)
  {
    if s == [] then 0 else ParseNat(s[..|s| - 1]) * 10 + DigitValue(s[|s| - 1])
  }

  function Zeros(n: nat): (s: string)
    ensures |s| == n && AllDigits(s)
    ensures forall i :: 0 <= i < n ==> s[i] == '0'
  {
    seq(n, i => '0')
  }

  lemma {:induction false} ParseDigits(n: nat)
    ensures ParseNat(Digits(n)) == n
  {
    if n >= 10 {
      ParseDigits(n / 10);
      assert Digits(n)[..|Digits(n)| - 1] == Digits(n / 10);
    } else {
      assert Digits(n)[..0] == [];
    }
  }

  lemma DigitsPush(m: nat, v: nat)
    requires m > 0 && v < 10
    ensures Digits(m * 10 + v) == Digits(m) + [DigitChar(v)]
  {
    assert (m * 10 + v) / 10 == m && (m * 10 + v) % 10 == v;
  }

  lemma ParsePush(t: string, v: nat)
    requires AllDigits(t) && v < 10
    ensures AllDigits(t + [DigitChar(v)]) && ParseNat(t + [DigitChar(v)]) == ParseNat(t) * 10 + v
  {
    assert (t + [DigitChar(v)])[..|t|] == t;
  }

  /** A digit string is its value's digits after some zeros. */
  lemma {:induction false} LeadingZeros(s: string)
    requires s != [] && AllDigits(s)
    ensures DigitCount(ParseNat(s)) <= |s|
    ensures s == Zeros(|s| - DigitCount(ParseNat(s))) + Digits(ParseNat(s))
  {
    hide ParseNat, Digits;
    var t, v := s[..|s| - 1], DigitValue(s[|s| - 1]);
    assert s == t + [DigitChar(v)];
    ParsePush(t, v);
    if t == [] {
      OneDigit(v);
      assert ParseNat(t) == 0 by {
        ParseZeros(0);
        assert Zeros(0) == t;
      }
    } else {
      LeadingZeros(t);
      PadPush(|t|, ParseNat(t), v);
    }
  }

  lemma OneDigit(v: nat)
    requires v < 10
    ensures Digits(v) == [DigitChar(v)] && Zeros(0) + Digits(v) == [DigitChar(v)]
  {}

  /** Appending a digit to a padded number. */
  lemma PadPush(width: nat, m: nat, v: nat)
    requires v < 10 && DigitCount(m) <= width
    ensures DigitCount(m * 10 + v) <= width + 1
    ensures Zeros(width - DigitCount(m)) + Digits(m) + [DigitChar(v)]
            == Zeros(width + 1 - DigitCount(m * 10 + v)) + Digits(m * 10 + v)
  {
    if m > 0 {
      DigitsPush(m, v);
    } else {
      assert Digits(0) == "0" && Digits(v) == [DigitChar(v)];
      assert Zeros(width - 1) + "0" == Zeros(width);
    }
  }

  lemma {:induction false} ParseAppend(a: string, b: string)
    requires AllDigits(a) && AllDigits(b)
    ensures ParseNat(a + b) == Shift(ParseNat(a), |b|) + ParseNat(b)
  {
    if b == [] {
      assert a + b == a;
    } else {
      var b' := b[..|b| - 1];
      assert (a + b)[..|a + b| - 1] == a + b';
      ParseAppend(a, b');
    }
  }

  lemma {:induction false} ParseZeros(n: nat)
    ensures ParseNat(Zeros(n)) == 0
  {
    if n > 0 {
      ParseZeros(n - 1);
      assert Zeros(n)[..n - 1] == Zeros(n - 1);
    }
  }

  /** Ten to the digit count bounds a number from above, one digit fewer from below. */
  lemma {:induction false} DigitCountBounds(n: nat)
    ensures n < Pow10(DigitCount(n))
    ensures n > 0 ==> Pow10(DigitCount(n) - 1) <= n
  {
    if n >= 10 {
      DigitCountBounds(n / 10);
    }
  }

  lemma DigitCountAtMost(n: nat, k: nat)
    requires k > 0 && n < Pow10(k)
    ensures DigitCount(n) <= k
  {
    DigitCountBounds(n);
    if k < DigitCount(n) {
      Pow10Monotone(k, DigitCount(n) - 1);
    }
  }

  lemma {:induction false} DigitCountMonotone(a: nat, b: nat)
    requires a <= b
    ensures DigitCount(a) <= DigitCount(b)
  {
    if a >= 10 {
      DigitCountMonotone(a / 10, b / 10);
    }
  }

  /** The number without its last k digits. */
  function Quotient(n: nat, k: nat): nat {
    if k == 0 then n else Quotient(n / 10, k - 1)
  }

  /** The number made of the last k digits. */
  function Remainder(n: nat, k: nat): nat {
    if k == 0 then 0 else 10 * Remainder(n / 10, k - 1) + n % 10
  }

  lemma {:induction false} QuotientRemainder(n: nat, k: nat)
    ensures n == Shift(Quotient(n, k), k) + Remainder(n, k) && Remainder(n, k) < Pow10(k)
  {
    if k > 0 {
      QuotientRemainder(n / 10, k - 1);
    }
  }

  lemma {:induction false} QuotientUnique(q: nat, r: nat, k: nat)
    requires r < Pow10(k)
    ensures Quotient(Shift(q, k) + r, k) == q && Remainder(Shift(q, k) + r, k) == r
  {
    if k > 0 {
      QuotientUnique(q, r / 10, k - 1);
      assert (Shift(q, k) + r) / 10 == Shift(q, k - 1) + r / 10;
    }
  }

  lemma {:induction false} QuotientMonotone(a: nat, b: nat, k: nat)
    requires a <= b
    ensures Quotient(a, k) <= Quotient(b, k)
  {
    if k > 0 {
      QuotientMonotone(a / 10, b / 10, k - 1);
    }
  }

  /** Dropping k digits of a longer number leaves k fewer digits. */
  lemma {:induction false} DigitCountDrop(n: nat, k: nat)
    requires Quotient(n, k) > 0
    ensures DigitCount(n) == DigitCount(Quotient(n, k)) + k
  {
    if k > 0 {
      DigitCountDrop(n / 10, k - 1);
      QuotientZero(n, k);
    }
  }

  /** A single digit vanishes when a digit is dropped. */
  lemma {:induction false} QuotientZero(n: nat, k: nat)
    ensures n < 10 && k > 0 ==> Quotient(n, k) == 0
  {
    if n == 0 && k > 0 {
      QuotientZero(0, k - 1);
    } else if k > 0 {
      QuotientZero(n / 10, k - 1);
    }
  }

  // ----- printing and parsing -----

  predicate IsNegative(d: Decimal) {
    d.Finite? && d.negative && d.coefficient > 0
  }

  /** Python's format(value, "f") of a value that is not negative. */
  function FormatFixed(d: Decimal): (s: string)
    requires d.Finite?
  {
    var digits := Digits(d.coefficient);
    if d.exponent >= 0 then
      digits + Zeros(d.exponent)
    else if -d.exponent >= |digits| then
      "0" + "." + (Zeros(-d.exponent - |digits|) + digits)
    else
      digits[..|digits| + d.exponent] + "." + digits[|digits| + d.exponent..]
  }

  function StripRight(s: string, c: char): (t: string)
    ensures t <= s && (t != [] ==> t[|t| - 1] != c)
    ensures forall i :: |t| <= i < |s| ==> s[i] == c
  {
    if s != [] && s[|s| - 1] == c then StripRight(s[..|s| - 1], c) else s
  }

  /** The canonical text written for an admitted amount. */
  function Serialize(d: Decimal): string
    requires d.Finite?
  {
    if d.coefficient == 0 then "0"
    else
      var s := FormatFixed(d);
      if '.' in s then StripRight(StripRight(s, '0'), '.') else s
  }

  /** Index of the point, or the length when there is none. */
  function PointIndex(s: string): (i: nat)
    ensures i <= |s| && '.' !in s[..i] && (i < |s| ==> s[i] == '.')
  {
    if s == [] || s[0] == '.' then 0 else 1 + PointIndex(s[1..])
  }

  predicate IsIntegerText(s: string) {
    s != [] && AllDigits(s) && (s[0] == '0' ==> s == "0")
  }

  predicate IsFractionText(s: string) {
    s != [] && AllDigits(s) && s[|s| - 1] != '0'
  }

  /** The pattern (0|[1-9][0-9]*)(.[0-9]*[1-9])? on the whole text. */
  predicate IsCanonicalText(s: string) {
    var i := PointIndex(s);
    IsIntegerText(s[..i]) && (i < |s| ==> IsFractionText(s[i + 1..]))
  }

  /** Decimal(text) on a canonical text. */
  function ParseText(s: string): (d: Decimal)
    requires IsCanonicalText(s)
    ensures d.Finite? && !d.negative && d.exponent <= 0
  {
    var i := PointIndex(s);
    if i == |s| then Finite(false, ParseNat(s[..i]), 0)
    else Finite(false, ParseNat(s[..i] + s[i + 1..]), -|s[i + 1..]|)
  }

  /** The three-case length of the rendering, computed without rendering. */
  function SerializedLength(d: Decimal): nat
    requires d.Finite?
  {
    var n := DigitCount(d.coefficient);
    if d.exponent >= 0 then n + d.exponent
    else if -d.exponent >= n then 2 - d.exponent
    else n + 1
  }

  /** Range and length checks shared by both kinds of input. */
  function Bounded(d: Decimal): Option<Decimal> {
    if d.NonFinite? || IsNegative(d) then None
    else if d.coefficient != 0 && SerializedLength(d) > MAX_DECIMAL_LENGTH then None
    else Some(d)
  }

  function CanonicalDecimal(v: AmountInput): Option<Decimal> {
    match v
    case FromDecimal(d) => Bounded(d)
    case FromText(s) =>
      if |s| <= MAX_DECIMAL_LENGTH && IsCanonicalText(s) && Serialize(ParseText(s)) == s
      then Bounded(ParseText(s)) else None
    case OtherType => None
  }

  /** The length formula counts the characters of the rendering. */
  lemma LengthFormula(d: Decimal)
    requires d.Finite?
    ensures SerializedLength(d) == |FormatFixed(d)|
  {}

  lemma PointIndexOf(a: string, b: string)
    requires AllDigits(a)
    ensures PointIndex(a) == |a|
    ensures PointIndex(a + "." + b) == |a|
  {
    assert forall k :: 0 <= k < |a| ==> a[k] != '.';
    assert (a + "." + b)[|a|] == '.';
  }

  /** Rendering a parsed canonical text gives the text back. */
  lemma FormatParsed(s: string)
    requires IsCanonicalText(s)
    ensures FormatFixed(ParseText(s)) == s
  {
    var i := PointIndex(s);
    if i == |s| {
      assert s == s[..i];
      ParseOfInteger(s);
      assert FormatFixed(ParseText(s)) == Digits(ParseNat(s)) + Zeros(0);
    } else {
      assert s == s[..i] + "." + s[i + 1..];
      FormatParsedFraction(s[..i], s[i + 1..]);
    }
  }

  lemma FormatParsedFraction(ip: string, fp: string)
    requires IsIntegerText(ip) && IsFractionText(fp)
    ensures FormatFixed(Finite(false, ParseNat(ip + fp), -|fp|)) == ip + "." + fp
  {
    hide ParseNat;
    if ip == "0" {
      ParseLeadingZero(fp);
      LeadingZeros(fp);
    } else {
      NoLeadingZero(ip + fp);
      assert (ip + fp)[..|ip|] == ip && (ip + fp)[|ip|..] == fp;
    }
  }

  lemma NoLeadingZero(s: string)
    requires s != [] && AllDigits(s) && s[0] != '0'
    ensures Digits(ParseNat(s)) == s
  {
    LeadingZeros(s);
    assert Zeros(|s| - DigitCount(ParseNat(s))) == [];
  }

  lemma ParseLeadingZero(fp: string)
    requires AllDigits(fp)
    ensures ParseNat("0" + fp) == ParseNat(fp)
  {
    ParseAppend("0", fp);
    assert "0"[..0] == [];
    assert ParseNat("0") == 0;
    ShiftZero(|fp|);
  }

  lemma ParseOfInteger(ip: string)
    requires IsIntegerText(ip)
    ensures Digits(ParseNat(ip)) == ip
  {
    if ip == "0" {
      assert "0"[..0] == [];
    } else {
      NoLeadingZero(ip);
    }
  }

  /** Every text of the canonical pattern survives parsing and printing. */
  lemma TextFixedPoint(s: string)
    requires IsCanonicalText(s)
    ensures Serialize(ParseText(s)) == s
  {
    FormatParsed(s);
    var d := ParseText(s);
    var i := PointIndex(s);
    if d.coefficient == 0 {
      ZeroText(s);
    } else if i < |s| {
      assert s[i] == '.';
      assert s[|s| - 1] == s[i + 1..][|s[i + 1..]| - 1];
      assert StripRight(s, '0') == s;
      assert IsDigit(s[i + 1..][|s[i + 1..]| - 1]);
      assert StripRight(s, '.') == s;
    } else {
      assert s == s[..i];
    }
  }

  lemma ZeroDigits(s: string)
    requires s != [] && AllDigits(s) && ParseNat(s) == 0
    ensures s[|s| - 1] == '0' && s[0] == '0'
  {
    LeadingZeros(s);
    assert Digits(0) == "0";
  }

  lemma ZeroText(s: string)
    requires IsCanonicalText(s) && ParseText(s).coefficient == 0
    ensures s == "0"
  {
    hide ParseNat;
    var i := PointIndex(s);
    if i == |s| {
      ZeroDigits(s[..i]);
      assert s == s[..i];
    } else {
      ZeroDigits(s[..i] + s[i + 1..]);
      assert false;
    }
  }

  /** A text is admitted exactly when it is canonical and within the length bound. */
  lemma TextAdmission(s: string)
    ensures CanonicalDecimal(FromText(s)).Some? <==> IsCanonicalText(s) && |s| <= MAX_DECIMAL_LENGTH
    ensures CanonicalDecimal(FromText(s)).Some? ==> Serialize(CanonicalDecimal(FromText(s)).value) == s
  {
    if IsCanonicalText(s) {
      TextFixedPoint(s);
      FormatParsed(s);
      LengthFormula(ParseText(s));
    }
  }

  // ----- numeric equality -----

  /** The value in units of 10^-scale. */
  function Scaled(d: Decimal, scale: nat): nat
    requires d.Finite? && d.exponent + scale >= 0
  {
    Shift(d.coefficient, d.exponent + scale)
  }

  /** Equal value of two amounts that are not negative, whatever their exponents. */
  ghost predicate SameValue(a: Decimal, b: Decimal)
    requires a.Finite? && b.Finite?
  {
    forall scale: nat | a.exponent + scale >= 0 && b.exponent + scale >= 0 :: Scaled(a, scale) == Scaled(b, scale)
  }

  /** Integer and fraction digits of a rendering: the coefficient is their joint value. */
  lemma FixedParts(d: Decimal) returns (ip: string, fp: string)
    requires d.Finite? && d.exponent < 0
    ensures AllDigits(fp) && |fp| == -d.exponent
    ensures IsIntegerText(ip) && FormatFixed(d) == ip + "." + fp
    ensures ParseNat(ip + fp) == d.coefficient
  {
    hide ParseNat;
    var digits := Digits(d.coefficient);
    ParseDigits(d.coefficient);
    if -d.exponent >= |digits| {
      var z := Zeros(-d.exponent - |digits|);
      ip, fp := "0", z + digits;
      assert ip + fp == Zeros(1 + |z|) + digits;
      ParseAppend(Zeros(1 + |z|), digits);
      ParseZeros(1 + |z|);
      ShiftZero(|digits|);
    } else {
      ip, fp := digits[..|digits| + d.exponent], digits[|digits| + d.exponent..];
      assert ip + fp == digits;
    }
  }

  /** Printing any finite amount that is not negative gives a canonical text of the same value. */
  lemma PrintedReparses(d: Decimal)
    requires d.Finite? && !IsNegative(d)
    ensures IsCanonicalText(Serialize(d)) && SameValue(ParseText(Serialize(d)), d)
    ensures d.coefficient > 0 ==> |Serialize(d)| <= SerializedLength(d)
    ensures -ParseText(Serialize(d)).exponent <= (if d.exponent < 0 then -d.exponent else 0)
  {
    if d.coefficient == 0 {
      PrintedZeroReparses(d);
    } else if d.exponent >= 0 {
      PrintedIntegerReparses(d);
    } else {
      PrintedFractionReparses(d);
    }
  }

  lemma PrintedZeroReparses(d: Decimal)
    requires d.Finite? && d.coefficient == 0
    ensures IsCanonicalText("0") && ParseText("0") == ZERO && SameValue(ZERO, d)
  {
    ParseLeadingZero([]);
    assert "0" + [] == "0";
    ParseParts("0", []);
    forall scale: nat | d.exponent + scale >= 0
      ensures Scaled(ZERO, scale) == Scaled(d, scale)
    {
      ShiftZero(scale);
      ShiftZero(d.exponent + scale);
    }
  }

  lemma PrintedIntegerReparses(d: Decimal)
    requires d.Finite? && d.coefficient > 0 && d.exponent >= 0
    ensures IsCanonicalText(Serialize(d)) && SameValue(ParseText(Serialize(d)), d)
    ensures |Serialize(d)| == SerializedLength(d) && ParseText(Serialize(d)).exponent == 0
  {
    var digits, zeros := Digits(d.coefficient), Zeros(d.exponent);
    var s := digits + zeros;
    assert Serialize(d) == s by {
      assert AllDigits(s);
    }
    ParseAppend(digits, zeros);
    ParseZeros(d.exponent);
    ParseDigits(d.coefficient);
    assert s + [] == s;
    ParseParts(s, []);
    StripKeepsValue(Finite(false, Shift(d.coefficient, d.exponent), 0), d, d.exponent);
  }

  /** Stripping trailing zeros divides the joined digits by a power of ten. */
  lemma StripScales(ip: string, fp: string)
    requires AllDigits(ip) && AllDigits(fp)
    ensures var kept := StripRight(fp, '0');
            ParseNat(ip + fp) == Shift(ParseNat(ip + kept), |fp| - |kept|)
  {
    var kept := StripRight(fp, '0');
    var zeros := Zeros(|fp| - |kept|);
    assert ip + fp == ip + kept + zeros;
    ParseAppend(ip + kept, zeros);
    ParseZeros(|zeros|);
  }

  /** Reading integer and fraction digits around a point. */
  lemma ParseParts(ip: string, fp: string)
    requires IsIntegerText(ip) && (fp == [] || IsFractionText(fp))
    ensures var s := if fp == [] then ip else ip + "." + fp;
            IsCanonicalText(s) && ParseText(s) == Finite(false, ParseNat(ip + fp), -|fp|)
  {
    PointIndexOf(ip, fp);
    if fp == [] {
      assert ip[..|ip|] == ip && ip + fp == ip;
    } else {
      var s := ip + "." + fp;
      assert s[..|ip|] == ip && s[|ip| + 1..] == fp;
    }
  }

  lemma PrintedFractionReparses(d: Decimal)
    requires d.Finite? && d.coefficient > 0 && d.exponent < 0
    ensures IsCanonicalText(Serialize(d)) && SameValue(ParseText(Serialize(d)), d)
    ensures |Serialize(d)| <= SerializedLength(d)
    ensures -ParseText(Serialize(d)).exponent <= -d.exponent
  {
    hide Serialize, FormatFixed, ParseNat, Digits, AllDigits, PointIndex, IsIntegerText, IsFractionText;
    var ip, fp := FixedParts(d);
    var kept := SerializeFraction(d, ip, fp);
    ParseParts(ip, kept);
    StripKeepsValue(d, Finite(false, ParseNat(ip + kept), -|kept|), |fp| - |kept|);
  }

  lemma SerializeFraction(d: Decimal, ip: string, fp: string) returns (kept: string)
    requires d.Finite? && d.coefficient > 0
    requires IsIntegerText(ip) && AllDigits(fp) && FormatFixed(d) == ip + "." + fp
    ensures kept == [] || IsFractionText(kept)
    ensures |kept| <= |fp| && AllDigits(ip + kept) && AllDigits(ip + fp)
    ensures ParseNat(ip + fp) == Shift(ParseNat(ip + kept), |fp| - |kept|)
    ensures Serialize(d) == if kept == [] then ip else ip + "." + kept
    ensures |Serialize(d)| <= SerializedLength(d)
  {
    hide ParseNat, Digits, PointIndex;
    kept := StripRight(fp, '0');
    LengthFormula(d);
    StripScales(ip, fp);
    StripZerosAfter(ip + ".", fp);
    assert FormatFixed(d)[|ip|] == '.';
    if kept == [] {
      assert ip + "." + kept == ip + ".";
      StripPoint(ip);
    } else {
      StripKeeps(ip + "." + kept, '.');
    }
  }

  lemma StripKeepsValue(d: Decimal, e: Decimal, k: nat)
    requires d.Finite? && e.Finite? && e.exponent == d.exponent + k
    requires d.coefficient == Shift(e.coefficient, k)
    ensures SameValue(e, d) && SameValue(d, e)
  {
    forall scale: nat | e.exponent + scale >= 0 && d.exponent + scale >= 0
      ensures Scaled(e, scale) == Scaled(d, scale)
    {
      ShiftShift(e.coefficient, k, d.exponent + scale);
    }
  }

  lemma StripPush(t: string, d: char, c: char)
    ensures StripRight(t + [d], c) == if d == c then StripRight(t, c) else t + [d]
  {
    assert (t + [d])[..|t|] == t;
  }

  lemma {:induction false} StripZerosAfter(prefix: string, fp: string)
    requires prefix != [] && prefix[|prefix| - 1] != '0'
    ensures StripRight(prefix + fp, '0') == prefix + StripRight(fp, '0')
  {
    if fp == [] {
      assert prefix + fp == prefix;
    } else {
      var rest, d := fp[..|fp| - 1], fp[|fp| - 1];
      assert fp == rest + [d];
      assert prefix + fp == prefix + rest + [d];
      StripZerosAfter(prefix, rest);
      hide StripRight;
      StripPush(rest, d, '0');
      StripPush(prefix + rest, d, '0');
    }
  }

  lemma StripKeeps(s: string, c: char)
    requires s == [] || s[|s| - 1] != c
    ensures StripRight(s, c) == s
  {}

  lemma StripPoint(ip: string)
    requires ip != [] && AllDigits(ip)
    ensures StripRight(ip + ".", '.') == ip
  {
    assert (ip + ".")[..|ip|] == ip;
    assert IsDigit(ip[|ip| - 1]);
    StripKeeps(ip, '.');
  }

  /** Every admitted amount prints to a text that is admitted again, with the same value. */
  lemma AdmittedRoundTrip(v: AmountInput)
    requires CanonicalDecimal(v).Some?
    ensures var d := CanonicalDecimal(v).value;
            d.Finite? && CanonicalDecimal(FromText(Serialize(d))).Some? &&
            SameValue(CanonicalDecimal(FromText(Serialize(d))).value, d)
  {
    var d := CanonicalDecimal(v).value;
    PrintedReparses(d);
    TextAdmission(Serialize(d));
  }

  /** What a snapshot does to an amount: print it and parse it again. */
  function Normalize(d: Decimal): Decimal
    requires d.Finite? && !IsNegative(d)
  {
    PrintedReparses(d);
    ParseText(Serialize(d))
  }
}
