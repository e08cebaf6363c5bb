/** The fixed-width decimals of src/orderbook.cpp: exact parsing into an int64
    mantissa and a scale, and exact alignment of a bid/ask pair. */
module Decimals {
  import opened Basics

  const INT64_MAX := 0x7FFF_FFFF_FFFF_FFFF
  const MAX_SCALE := 127

  datatype Decimal = Decimal(mantissa: int, scale: int)
  datatype Error = EmptyDecimal | InvalidDecimal | MantissaOverflow | ScaleOverflow | RescalingOverflow

  predicate IsDigit(c: char) { '0' <= c <= '9' }

  function DigitOf(c: char): nat
    requires IsDigit(c)
  {
    c as int - '0' as int
  }

  // ------------------------------------------------------------ what the text means

  /** Value of a string of digits, most significant first. */
  function Numeral(digits: string): nat
    requires forall i :: 0 <= i < |digits| ==> IsDigit(digits[i])
  {
    if digits == "" then 0 else 10 * Numeral(digits[..|digits| - 1]) + DigitOf(digits[|digits| - 1])
  }

  /** The digits of a prefix, the dot left out. */
  function Digits(text: string): (ds: string)
    ensures forall i :: 0 <= i < |ds| ==> IsDigit(ds[i])
  {
    if text == "" then ""
    else Digits(text[..|text| - 1]) + (if IsDigit(text[|text| - 1]) then [text[|text| - 1]] else "")
  }

  /** How many characters follow the dot, if there is one. */
  function FractionLength(text: string): nat {
    if text == "" || '.' !in text then 0
    else if text[|text| - 1] == '.' then 0
    else FractionLength(text[..|text| - 1]) + 1
  }

  /** The character may stand at position i of this text: a digit, or the first
      dot with something on either side of it. */
  predicate Admissible(text: string, i: nat)
    requires i < |text|
  {
    IsDigit(text[i]) || (text[i] == '.' && '.' !in text[..i] && 0 < i && i + 1 < |text|)
  }

  /** First thing wrong at position i when everything before it was fine. */
  function FaultAt(text: string, i: nat): Result<(), Error>
    requires i < |text|
  {
    if !Admissible(text, i) then Err(InvalidDecimal)
    else if Numeral(Digits(text[..i + 1])) > INT64_MAX then Err(MantissaOverflow)
    else if FractionLength(text[..i + 1]) > MAX_SCALE then Err(ScaleOverflow)
    else Ok(())
  }

  ghost predicate CleanUpTo(text: string, n: nat)
    requires n <= |text|
  {
    forall i :: 0 <= i < n ==> FaultAt(text, i) == Ok(())
  }

  function Pow10(n: nat): (p: nat)
    ensures p >= 1
  {
    if n == 0 then 1 else 10 * Pow10(n - 1)
  }

  /** The rational number a decimal stands for. */
  ghost function Value(d: Decimal): real
    requires d.scale >= 0
  {
    d.mantissa as real / Pow10(d.scale) as real
  }

  // ------------------------------------------------------------ decimal()

  lemma ExtendDigits(text: string, i: nat)
    requires i < |text| && Admissible(text, i)
    ensures IsDigit(text[i]) ==> Digits(text[..i + 1]) == Digits(text[..i]) + [text[i]]
    ensures IsDigit(text[i]) ==> Numeral(Digits(text[..i + 1])) == 10 * Numeral(Digits(text[..i])) + DigitOf(text[i])
    ensures !IsDigit(text[i]) ==> Digits(text[..i + 1]) == Digits(text[..i])
    ensures FractionLength(text[..i + 1]) ==
              if IsDigit(text[i]) && '.' in text[..i] then FractionLength(text[..i]) + 1
              else if IsDigit(text[i]) then FractionLength(text[..i]) else 0
    ensures '.' in text[..i + 1] <==> '.' in text[..i] || text[i] == '.'
  {
    assert text[..i + 1] == text[..i] + [text[i]];
    assert text[..i + 1][..i] == text[..i];
    if IsDigit(text[i]) {
      var ds := Digits(text[..i + 1]);
      assert ds[..|ds| - 1] == Digits(text[..i]);
    }
  }

  lemma NoDotNoFraction(text: string)
    requires '.' !in text
    ensures FractionLength(text) == 0
  {}

  /** What the loop holds when the first i characters were fine. */
  ghost predicate ReadTo(text: string, i: nat, mantissa: int, scale: int, dot: bool) {
    && i <= |text| && CleanUpTo(text, i)
    && mantissa == Numeral(Digits(text[..i])) && mantissa <= INT64_MAX
    && scale == FractionLength(text[..i]) && scale <= MAX_SCALE
    && (dot <==> '.' in text[..i])
  }

  lemma FirstDot(text: string, i: nat, mantissa: int, scale: int, dot: bool)
    requires i < |text| && ReadTo(text, i, mantissa, scale, dot)
    requires text[i] == '.' && !dot && 0 < i && i + 1 < |text|
    ensures ReadTo(text, i + 1, mantissa, scale, true)
  {
    hide Numeral, Digits, FractionLength;
    ExtendDigits(text, i);
    NoDotNoFraction(text[..i]);
    assert FaultAt(text, i) == Ok(());
  }

  lemma NotADigit(text: string, i: nat, mantissa: int, scale: int, dot: bool)
    requires i < |text| && ReadTo(text, i, mantissa, scale, dot) && !IsDigit(text[i])
    requires !(text[i] == '.' && !dot && 0 < i && i + 1 < |text|)
    ensures FaultAt(text, i) == Err(InvalidDecimal)
  {}

  lemma NextDigit(text: string, i: nat, mantissa: int, scale: int, dot: bool)
    requires i < |text| && ReadTo(text, i, mantissa, scale, dot) && IsDigit(text[i])
    ensures var m, s := 10 * mantissa + DigitOf(text[i]), if dot then scale + 1 else scale;
            && (m > INT64_MAX <==> mantissa > (INT64_MAX - DigitOf(text[i])) / 10)
            && (m > INT64_MAX ==> FaultAt(text, i) == Err(MantissaOverflow))
            && (m <= INT64_MAX && s > MAX_SCALE ==> FaultAt(text, i) == Err(ScaleOverflow))
            && (m <= INT64_MAX && s <= MAX_SCALE ==> ReadTo(text, i + 1, m, s, dot))
  {
    hide Numeral, Digits, FractionLength;
    ExtendDigits(text, i);
    if !dot { NoDotNoFraction(text[..i]); }
    var m, s := 10 * mantissa + DigitOf(text[i]), if dot then scale + 1 else scale;
    assert FaultAt(text, i) == if m > INT64_MAX then Err(MantissaOverflow)
                               else if s > MAX_SCALE then Err(ScaleOverflow) else Ok(());
  }

  /** decimal(): exact, and every refusal names the first thing wrong. */
  method Parse(text: string) returns (r: Result<Decimal, Error>)
    ensures text == "" <==> r == Err(EmptyDecimal)
    ensures r.Ok? <==> text != "" && CleanUpTo(text, |text|)
    ensures r.Ok? ==> r.value == Decimal(Numeral(Digits(text)), FractionLength(text))
    ensures r.Ok? ==> 0 <= r.value.mantissa <= INT64_MAX && 0 <= r.value.scale <= MAX_SCALE
    ensures r.Err? && text != "" ==>
              exists i :: 0 <= i < |text| && CleanUpTo(text, i) && FaultAt(text, i) == Err(r.error)
  {
    if text == "" { return Err(EmptyDecimal); }
    var mantissa, scale := 0, 0;
    var dot := false;
    var i := 0;
    assert text[..0] == "";
    while i < |text|
      invariant ReadTo(text, i, mantissa, scale, dot)
    {
      hide Numeral, Digits, FractionLength, FaultAt;
      var c := text[i];
      if c == '.' && !dot && i > 0 && i + 1 < |text| {
        FirstDot(text, i, mantissa, scale, dot);
        dot := true;
        i := i + 1;
        continue;
      }
      if c < '0' || c > '9' {
        NotADigit(text, i, mantissa, scale, dot);
        return Err(InvalidDecimal);
      }
      NextDigit(text, i, mantissa, scale, dot);
      if mantissa > (INT64_MAX - DigitOf(c)) / 10 {
        return Err(MantissaOverflow);
      }
      mantissa := mantissa * 10 + DigitOf(c);
      if dot {
        scale := scale + 1;
        if scale > MAX_SCALE {
          return Err(ScaleOverflow);
        }
      }
      i := i + 1;
    }
    assert text[..|text|] == text;
    r := Ok(Decimal(mantissa, scale));
  }

  /** Every character may stand where it does. */
  ghost predicate WellFormed(text: string) {
    && text != ""
    && (forall i :: 0 <= i < |text| ==> Admissible(text, i))
  }

  predicate AllDigits(text: string) {
    forall i :: 0 <= i < |text| ==> IsDigit(text[i])
  }

  ghost predicate DotAt(text: string, k: nat) {
    && 0 < k < |text| - 1 && text[k] == '.'
    && AllDigits(text[..k]) && AllDigits(text[k + 1..])
  }

  /** The grammar the character tests add up to: digits, or digits "." digits
      with neither side empty. */
  lemma WellFormedShape(text: string)
    ensures WellFormed(text) <==> text != "" && (AllDigits(text) || exists k :: DotAt(text, k))
  {
    if WellFormed(text) && !AllDigits(text) {
      var k :| 0 <= k < |text| && !IsDigit(text[k]);
      assert Admissible(text, k);
      forall i | 0 <= i < |text| && i != k ensures IsDigit(text[i]) {
        assert Admissible(text, i);
        assert i < k ==> text[..k][i] == text[i];
        assert k < i ==> text[..i][k] == text[k];
      }
      assert DotAt(text, k);
    }
    if k: nat :| DotAt(text, k) {
      forall i | 0 <= i < |text| ensures Admissible(text, i) {
        assert i < k ==> text[..k][i] == text[i];
        assert k < i ==> text[k + 1..][i - k - 1] == text[i];
      }
    }
  }

  /** Digits only ever grow the numeral, so the accepted texts are exactly the
      well-formed ones whose digits fit in int64 with at most 127 decimals. */
  lemma {:induction false} AcceptedTexts(text: string)
    ensures text != "" && CleanUpTo(text, |text|) <==>
              WellFormed(text) && Numeral(Digits(text)) <= INT64_MAX && FractionLength(text) <= MAX_SCALE
  {
    assert text[..|text|] == text;
    if WellFormed(text) && Numeral(Digits(text)) <= INT64_MAX && FractionLength(text) <= MAX_SCALE {
      forall i | 0 <= i < |text| ensures FaultAt(text, i) == Ok(()) {
        PrefixIsSmaller(text, i + 1);
      }
    }
    if text != "" && CleanUpTo(text, |text|) {
      assert FaultAt(text, |text| - 1) == Ok(());
      assert text[..|text| - 1 + 1] == text;
      forall i | 0 <= i < |text| ensures Admissible(text, i) {
        assert FaultAt(text, i) == Ok(());
      }
    }
  }

  lemma {:induction false} PrefixIsSmaller(text: string, n: nat)
    requires n <= |text| && WellFormed(text)
    ensures Numeral(Digits(text[..n])) <= Numeral(Digits(text))
    ensures FractionLength(text[..n]) <= FractionLength(text)
    decreases |text| - n
  {
    if n == |text| {
      assert text[..n] == text;
    } else {
      ExtendDigits(text, n);
      if !IsDigit(text[n]) { NoDotNoFraction(text[..n]); }
      PrefixIsSmaller(text, n + 1);
    }
  }

  // ------------------------------------------------------------ rescale() and decimal_pair()

  datatype ScaleFactor = ScaleFactor(multiplier: int, maxMantissa: int)

  const FACTORS := 19

  /** The compile-time table: 10^0 .. 10^18 and the largest mantissa each can take. */
  method ScaleFactors() returns (factors: seq<ScaleFactor>)
    ensures |factors| == FACTORS
    ensures forall i :: 0 <= i < FACTORS ==>
              factors[i] == ScaleFactor(Pow10(i), INT64_MAX / Pow10(i)) && Pow10(i) <= INT64_MAX
  {
    hide Pow10;
    factors := [];
    var multiplier := 1;
    PowersOfTen();
    PowStep(0);
    var i := 0;
    while i < FACTORS
      invariant 0 <= i <= FACTORS && |factors| == i
      invariant multiplier == Pow10(if i < FACTORS then i else FACTORS - 1)
      invariant forall k :: 0 <= k < i ==>
                  factors[k] == ScaleFactor(Pow10(k), INT64_MAX / Pow10(k)) && Pow10(k) <= INT64_MAX
    {
      PowMonotone(i, 18);
      PowStep(i);
      factors := factors + [ScaleFactor(multiplier, INT64_MAX / multiplier)];
      if i + 1 < FACTORS { multiplier := multiplier * 10; }
      i := i + 1;
    }
  }

  lemma PowStep(n: nat)
    ensures Pow10(0) == 1 && Pow10(n + 1) == 10 * Pow10(n)
  {}

  lemma PowersOfTen()
    ensures Pow10(18) == 1_000_000_000_000_000_000
    ensures Pow10(19) == 10_000_000_000_000_000_000
  {
    assert Pow10(6) == 1_000_000;
    assert Pow10(12) == 1_000_000_000_000;
    assert Pow10(18) == 1_000_000_000_000_000_000;
  }

  lemma {:induction false} PowMonotone(m: nat, n: nat)
    requires m <= n
    ensures Pow10(m) <= Pow10(n)
    decreases n - m
  {
    if m < n { PowMonotone(m + 1, n); }
  }

  /** scale - value.scale is cast to an unsigned size, so a negative difference
      is as out of range as a large one. */
  function Rescale(value: Decimal, scale: int): Result<int, Error> {
    var delta := scale - value.scale;
    if delta == 0 || value.mantissa == 0 then Ok(value.mantissa)
    else if delta < 0 || delta >= FACTORS then Err(RescalingOverflow)
    else if value.mantissa > INT64_MAX / Pow10(delta) then Err(RescalingOverflow)
    else Ok(value.mantissa * Pow10(delta))
  }

  /** Rescaling up is refused exactly when the true product does not fit. */
  lemma RescaleExact(value: Decimal, scale: int)
    requires 0 <= value.mantissa <= INT64_MAX && value.scale <= scale
    ensures Rescale(value, scale).Ok? <==> value.mantissa * Pow10(scale - value.scale) <= INT64_MAX
    ensures Rescale(value, scale).Ok? ==> Rescale(value, scale).value == value.mantissa * Pow10(scale - value.scale)
  {
    var delta := scale - value.scale;
    var p := Pow10(delta);
    if delta != 0 && value.mantissa != 0 {
      if delta >= FACTORS {
        PowersOfTen();
        PowMonotone(FACTORS, delta);
        ProductAtLeast(value.mantissa, p);
      } else {
        QuotientBound(value.mantissa, p, INT64_MAX);
      }
    }
  }

  lemma ProductAtLeast(m: int, p: int)
    requires m >= 1 && p >= 1
    ensures m * p >= p
  {}

  lemma QuotientBound(m: int, p: int, limit: int)
    requires p >= 1 && limit >= 0
    ensures m > limit / p <==> m * p > limit
  {
    var q := limit / p;
    assert limit == q * p + limit % p;
    if m > q {
      assert m * p >= (q + 1) * p;
    } else {
      assert m * p <= q * p;
    }
  }

  datatype Pair = Pair(bid: int, ask: int, exponent: int)

  /** decimal_pair(): both sides at the larger scale, sharing one exponent. */
  method ParsePair(bid: string, ask: string) returns (r: Result<Pair, Error>)
    ensures r.Ok? ==>
      exists b, a: Decimal ::
        && b == Decimal(Numeral(Digits(bid)), FractionLength(bid))
        && a == Decimal(Numeral(Digits(ask)), FractionLength(ask))
        && Aligned(b, a, r.value)
    ensures r.Ok? <==>
      && WellFormed(bid) && WellFormed(ask)
      && Numeral(Digits(bid)) <= INT64_MAX && Numeral(Digits(ask)) <= INT64_MAX
      && FractionLength(bid) <= MAX_SCALE && FractionLength(ask) <= MAX_SCALE
      && var scale := Max(FractionLength(bid), FractionLength(ask));
         && Numeral(Digits(bid)) * Pow10(scale - FractionLength(bid)) <= INT64_MAX
         && Numeral(Digits(ask)) * Pow10(scale - FractionLength(ask)) <= INT64_MAX
  {
    hide WellFormed, Numeral, Digits, FractionLength, CleanUpTo, Rescale, Pow10;
    AcceptedTexts(bid);
    AcceptedTexts(ask);
    var b := Parse(bid);
    if b.Err? { return Err(b.error); }
    var a := Parse(ask);
    if a.Err? { return Err(a.error); }
    var scale := Max(b.value.scale, a.value.scale);
    RescaleExact(b.value, scale);
    RescaleExact(a.value, scale);
    var bidValue := Rescale(b.value, scale);
    if bidValue.Err? { return Err(bidValue.error); }
    var askValue := Rescale(a.value, scale);
    if askValue.Err? { return Err(askValue.error); }
    r := Ok(Pair(bidValue.value, askValue.value, -scale));
    assert Aligned(b.value, a.value, r.value);
  }

  function Max(x: int, y: int): int { if x < y then y else x }

  /** Both mantissas fit int64, the exponent fits int8, neither side's value changed. */
  ghost predicate Aligned(b: Decimal, a: Decimal, p: Pair) {
    && 0 <= b.scale && 0 <= a.scale && p.exponent == -Max(b.scale, a.scale) && -128 <= p.exponent <= 0
    && 0 <= p.bid <= INT64_MAX && 0 <= p.ask <= INT64_MAX
    && p.bid == b.mantissa * Pow10(-p.exponent - b.scale)
    && p.ask == a.mantissa * Pow10(-p.exponent - a.scale)
  }

  lemma {:induction false} PowSum(m: nat, n: nat)
    ensures Pow10(m + n) == Pow10(m) * Pow10(n)
    decreases m
  {
    if m > 0 { PowSum(m - 1, n); }
  }

  lemma ProductAsReal(m: int, q: int)
    ensures (m * q) as real == m as real * q as real
  {}

  lemma ScaledQuotient(m: int, p: nat, q: nat, mq: int, pq: int)
    requires p > 0 && q > 0 && mq == m * q && pq == p * q
    ensures pq > 0 && mq as real / pq as real == m as real / p as real
  {
    ProductAsReal(m, q);
    ProductAsReal(p, q);
    var x := m as real / p as real;
    assert x * p as real == m as real;
    assert x * (p as real * q as real) == m as real * q as real;
  }

  lemma SameValue(d: Decimal, delta: nat)
    requires d.scale >= 0
    ensures Value(Decimal(d.mantissa * Pow10(delta), d.scale + delta)) == Value(d)
  {
    hide Pow10;
    PowSum(d.scale, delta);
    ScaledQuotient(d.mantissa, Pow10(d.scale), Pow10(delta), d.mantissa * Pow10(delta), Pow10(d.scale + delta));
  }

  /** Alignment is exact: each mantissa with the shared exponent is the number
      its text denotes, so comparing mantissas compares the prices. */
  lemma AlignedIsExact(b: Decimal, a: Decimal, p: Pair)
    requires Aligned(b, a, p)
    ensures Value(Decimal(p.bid, -p.exponent)) == Value(b) && Value(Decimal(p.ask, -p.exponent)) == Value(a)
    ensures p.bid < p.ask <==> Value(b) < Value(a)
    ensures p.bid == p.ask <==> Value(b) == Value(a)
  {
    SameValue(b, -p.exponent - b.scale);
    SameValue(a, -p.exponent - a.scale);
    QuotientOrder(p.bid as real, p.ask as real, Pow10(-p.exponent) as real);
  }

  lemma QuotientOrder(x: real, y: real, p: real)
    requires p > 0.0
    ensures x < y <==> x / p < y / p
    ensures x == y <==> x / p == y / p
  {
    assert x / p * p == x && y / p * p == y;
  }

  // ------------------------------------------------------------ the number a text denotes

  /** Texts that decimal() takes. */
  ghost predicate Accepted(text: string) {
    WellFormed(text) && Numeral(Digits(text)) <= 0x7FFF_FFFF_FFFF_FFFF && FractionLength(text) <= 127
  }

  ghost function Denoted(text: string): Decimal { Decimal(Numeral(Digits(text)), FractionLength(text)) }
  ghost function TextValue(text: string): real { Value(Denoted(text)) }

  /** Positional notation: the digit that counts n places from the right is the
      one of weight ten to the n. */
  lemma {:induction false} PlaceValue(digits: string, n: nat)
    requires AllDigits(digits) && n < |digits|
    ensures DigitOf(digits[|digits| - 1 - n]) == (Numeral(digits) / Pow10(n)) % 10
  {
    var front, d := digits[..|digits| - 1], DigitOf(digits[|digits| - 1]);
    assert Numeral(digits) == 10 * Numeral(front) + d;
    if n == 0 {
      assert Pow10(0) == 1;
      LastDigit(Numeral(front), d);
    } else {
      PlaceValue(front, n - 1);
      assert Pow10(n) == 10 * Pow10(n - 1);
      TenTimes(Numeral(front), d, Pow10(n - 1));
      hide Numeral, Pow10, DigitOf;
    }
  }

  lemma LastDigit(x: nat, d: nat)
    requires d <= 9
    ensures (10 * x + d) / 1 % 10 == d
  {}

  lemma TenTimes(x: nat, d: nat, p: nat)
    requires d <= 9 && p >= 1
    ensures (10 * x + d) / (10 * p) == x / p
  {
    var q, r := x / p, x % p;
    assert 10 * x + d == (10 * p) * q + (10 * r + d);
    QuotientUnique(10 * x + d, 10 * p, q, 10 * r + d);
  }

  lemma QuotientUnique(n: nat, d: nat, q: nat, r: nat)
    requires d > 0 && n == d * q + r && r < d
    ensures n / d == q
  {
    var k := n / d;
    if k < q { ProductGap(d, k, q); }
    if q < k { ProductGap(d, q, k); }
  }

  lemma ProductGap(d: nat, x: nat, y: nat)
    requires x < y
    ensures d * x + d <= d * y
  {
    var more := y - x - 1;
    assert d * y == d * x + d + d * more;
  }

  /** The value of a text with a dot: the whole part, and the digits behind the
      dot divided by ten as often as there are of them. */
  lemma ValueAroundTheDot(whole: string, fraction: string)
    requires AllDigits(whole) && AllDigits(fraction)
    ensures var text := whole + "." + fraction;
            && TextValue(text) == Numeral(whole) as real + Numeral(fraction) as real / Pow10(|fraction|) as real
            && Denoted(text) == Decimal(Numeral(whole + fraction), |fraction|)
    ensures TextValue(whole) == Numeral(whole) as real && Denoted(whole) == Decimal(Numeral(whole), 0)
  {
    hide Pow10, Numeral, Digits, FractionLength;
    DigitsOfDigits(whole);
    NoDotNoFraction(whole);
    BehindTheDot(whole, fraction);
    NumeralOfBoth(whole, fraction);
    PowStep(0);
    assert Numeral(whole) as real / 1.0 == Numeral(whole) as real;
    QuotientOfSum(Numeral(whole), Numeral(fraction), Pow10(|fraction|), Numeral(whole + fraction));
  }

  lemma QuotientOfSum(w: nat, f: nat, p: nat, n: nat)
    requires p > 0 && n == w * p + f
    ensures n as real / p as real == w as real + f as real / p as real
  {
    ProductAsReal(w, p);
    SplitQuotient(w as real, f as real, p as real);
  }

  lemma SplitQuotient(w: real, f: real, p: real)
    requires p > 0.0
    ensures (w * p + f) / p == w + f / p
  {
    assert (w + f / p) * p == w * p + f;
  }

  lemma {:induction false} DigitsOfDigits(text: string)
    requires AllDigits(text)
    ensures Digits(text) == text && '.' !in text
  {
    if text != "" {
      DigitsOfDigits(text[..|text| - 1]);
      assert text == text[..|text| - 1] + [text[|text| - 1]];
    }
  }

  lemma {:induction false} BehindTheDot(whole: string, fraction: string)
    requires AllDigits(whole) && AllDigits(fraction)
    ensures Digits(whole + "." + fraction) == whole + fraction
    ensures FractionLength(whole + "." + fraction) == |fraction|
  {
    var text := whole + "." + fraction;
    var front := text[..|text| - 1];
    if fraction == "" {
      assert front == whole && whole + fraction == whole;
      DigitsOfDigits(whole);
    } else {
      assert front == whole + "." + fraction[..|fraction| - 1];
      BehindTheDot(whole, fraction[..|fraction| - 1]);
      assert text[|text| - 1] == fraction[|fraction| - 1] && '.' in text[|whole|..];
      assert whole + fraction == (whole + fraction[..|fraction| - 1]) + [fraction[|fraction| - 1]];
    }
  }

  lemma {:induction false} NumeralOfBoth(whole: string, fraction: string)
    requires AllDigits(whole) && AllDigits(fraction)
    ensures Numeral(whole + fraction) == Numeral(whole) * Pow10(|fraction|) + Numeral(fraction)
  {
    if fraction == "" {
      assert whole + fraction == whole;
    } else {
      var front, n := fraction[..|fraction| - 1], |fraction| - 1;
      NumeralOfBoth(whole, front);
      assert (whole + fraction)[..|whole| + n] == whole + front;
      PowStep(n);
      TenfoldSum(Numeral(whole), Pow10(n), Numeral(front), DigitOf(fraction[n]));
    }
  }

  lemma TenfoldSum(w: nat, p: nat, f: nat, d: nat)
    ensures 10 * (w * p + f) + d == w * (10 * p) + (10 * f + d)
  {}
}
