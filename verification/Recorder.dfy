/** Sensor and setpoint readings as text: an integer scaled by a power of ten. */
module Recorder {
  import opened Bytes
  import opened Sequences
  import opened Decimal

  const INT64_MAX: int := 0x7FFF_FFFF_FFFF_FFFF
  const DECIMAL_BASE: int := 10

  /** The fraction, padded with zeros to `precision` digits. */
  function Padded(n: nat, precision: nat): (frac: string)
    requires precision > 0 && n < Pow10(precision)
    ensures |frac| == precision && AllDigits(frac)
  {
    DigitsLength(n, precision);
    Zeros(precision - |Digits(n)|) + Digits(n)
  }

  /** The part of `m` above the point. */
  function Whole(m: nat, precision: nat): nat
    decreases precision
  {
    if precision == 0 then m else Whole(m / 10, precision - 1)
  }

  /** The part of `m` below the point, in units of the last digit. */
  function Part(m: nat, precision: nat): (r: nat)
    ensures r < Pow10(precision)
    decreases precision
  {
    if precision == 0 then 0 else 10 * Part(m / 10, precision - 1) + m % 10
  }

  lemma {:induction false} WholeAndPart(m: nat, precision: nat)
    ensures m == Whole(m, precision) * Pow10(precision) + Part(m, precision)
    decreases precision
  {
    if precision > 0 {
      WholeAndPart(m / 10, precision - 1);
      Recombine(m, Whole(m / 10, precision - 1), Pow10(precision - 1), Part(m / 10, precision - 1));
    }
  }

  lemma {:induction false} Recombine(m: nat, w: nat, p: nat, r: nat)
    requires m / 10 == w * p + r
    ensures m == w * (10 * p) + (10 * r + m % 10)
  {
    Regroup(w, p);
    var product := w * p;
    assert m == 10 * (product + r) + m % 10;
  }

  lemma {:induction false} NotLess(q: nat, d: nat, r: nat, q': nat, r': nat)
    requires r < d && r' < d && q * d + r == q' * d + r'
    ensures q' <= q
  {
    assert q < q' ==> (q + 1) * d <= q' * d;
  }

  lemma {:induction false} DivisionIsUnique(q: nat, d: nat, r: nat)
    requires r < d
    ensures (q * d + r) / d == q && (q * d + r) % d == r
  {
    var m := q * d + r;
    var q', r' := m / d, m % d;
    NotLess(q, d, r, q', r');
    NotLess(q', d, r', q, r);
  }

  lemma {:induction false} WholeAndPartDivide(m: nat, precision: nat)
    ensures m / Pow10(precision) == Whole(m, precision) && m % Pow10(precision) == Part(m, precision)
  {
    WholeAndPart(m, precision);
    DivisionIsUnique(Whole(m, precision), Pow10(precision), Part(m, precision));
  }

  function Unsigned(m: nat, precision: nat): string
    requires precision > 0
  {
    Digits(Whole(m, precision)) + "." + Padded(Part(m, precision), precision)
  }

  function Magnitude(raw: int): nat {
    if raw < 0 then -raw else raw
  }

  function Rendered(raw: int, precision: nat): string {
    if precision == 0 then ToString(raw)
    else (if raw < 0 then "-" else "") + Unsigned(Magnitude(raw), precision)
  }

  /** The scale fits in a signed 64-bit integer exactly up to a precision of 18. */
  lemma {:induction false} ScaleFits(precision: nat)
    ensures precision <= 18 <==> Pow10(precision) <= INT64_MAX
    decreases precision
  {
    if precision <= 18 {
      PowersUpTo18();
      Pow10Monotone(precision, 18);
    } else {
      PowersUpTo18();
      Pow10Monotone(19, precision);
    }
  }

  lemma {:induction false} PowersUpTo18()
    ensures Pow10(18) == 1_000_000_000_000_000_000 && Pow10(19) == 10_000_000_000_000_000_000
  {
    assert Pow10(6) == 1_000_000;
    assert Pow10(12) == 1_000_000_000_000;
    assert Pow10(18) == 1_000_000_000_000_000_000;
  }

  lemma {:induction false} Pow10Monotone(j: nat, k: nat)
    requires j <= k
    ensures Pow10(j) <= Pow10(k)
    decreases k
  {
    if j < k {
      Pow10Monotone(j, k - 1);
    }
  }

  /** Signed 64-bit overflow of the scale is the only way to fail. */
  method RenderScaled(raw: I32, precision: Byte) returns (text: Option<string>)
    ensures text.Some? <==> precision <= 18
    ensures text.Some? ==> text.value == Rendered(raw, precision)
  {
    if precision == 0 {
      return Some(ToString(raw));
    }
    var negative := raw < 0;
    var magnitude := Magnitude(raw);
    var scale := 1;
    var i := 0;
    while i < precision
      invariant 0 <= i <= precision && scale == Pow10(i) <= INT64_MAX
    {
      ScaleFits(i + 1);
      if scale * DECIMAL_BASE > INT64_MAX {
        Pow10Monotone(i + 1, precision);
        ScaleFits(precision);
        return None;
      }
      scale := scale * DECIMAL_BASE;
      i := i + 1;
    }
    ScaleFits(precision);
    var whole := magnitude / scale;
    var frac := Digits(magnitude % scale);
    WholeAndPartDivide(magnitude, precision);
    DigitsLength(Part(magnitude, precision), precision);
    frac := Zeros(precision - |frac|) + frac;
    assert frac == Padded(Part(magnitude, precision), precision);
    var unsigned := Digits(whole) + "." + frac;
    assert unsigned == Unsigned(magnitude, precision);
    return Some((if negative then "-" else "") + unsigned);
  }

  // ---- What the text stands for ------------------------------------------------------------------

  lemma {:induction false} PaddedValue(n: nat, precision: nat)
    requires precision > 0 && n < Pow10(precision)
    ensures Value(Padded(n, precision)) == n
  {
    DigitsLength(n, precision);
    var zeros := Zeros(precision - |Digits(n)|);
    ValueConcat(zeros, Digits(n));
    ZerosValue(|zeros|);
    DigitsValue(n);
  }

  lemma {:induction false} FirstPoint(whole: string, frac: string)
    requires '.' !in whole
    ensures IndexOf(whole + "." + frac, '.') == |whole|
  {
    var s := whole + "." + frac;
    assert s[|whole|] == '.';
  }

  lemma {:induction false} AsFraction(q: nat, d: nat, r: nat)
    requires d > 0
    ensures q as real + r as real / d as real == (q * d + r) as real / d as real
  {
    assert (q * d + r) as real == q as real * d as real + r as real;
    assert (q as real * d as real) / d as real == q as real;
  }

  lemma {:induction false} WholeAndPartAsFraction(m: nat, precision: nat)
    ensures Whole(m, precision) as real + Part(m, precision) as real / Pow10(precision) as real
            == m as real / Pow10(precision) as real
  {
    WholeAndPart(m, precision);
    AsFraction(Whole(m, precision), Pow10(precision), Part(m, precision));
  }

  lemma {:induction false} PointReads(whole: string, frac: string)
    requires AllDigits(whole) && AllDigits(frac) && whole != [] && frac != []
    ensures ReadUnsigned(whole + "." + frac) == Some(Value(whole) as real + Value(frac) as real / Pow10(|frac|) as real)
  {
    var s := whole + "." + frac;
    FirstPoint(whole, frac);
    assert s[..|whole|] == whole && s[|whole| + 1..] == frac;
  }

  lemma {:induction false} UnsignedReadsBack(m: nat, precision: nat)
    requires precision > 0
    ensures ReadUnsigned(Unsigned(m, precision)) == Some(m as real / Pow10(precision) as real)
  {
    var x, scale := m as real / Pow10(precision) as real, Pow10(precision);
    WholeAndPartAsFraction(m, precision);
    PartsReadBack(Unsigned(m, precision), Whole(m, precision), Part(m, precision), precision, scale, x);
  }

  lemma {:induction false} PartsReadBack(text: string, whole: nat, part: nat, precision: nat, scale: nat, x: real)
    requires precision > 0 && scale == Pow10(precision) && part < scale
    requires text == Digits(whole) + "." + Padded(part, precision)
    requires x == whole as real + part as real / scale as real
    ensures ReadUnsigned(text) == Some(x)
  {
    PointReads(Digits(whole), Padded(part, precision));
    DigitsValue(whole);
    PaddedValue(part, precision);
  }

  lemma {:induction false} IntegerReadsBack(m: nat)
    ensures ReadUnsigned(Digits(m)) == Some(m as real)
  {
    var i := IndexOf(Digits(m), '.');
    assert i < |Digits(m)| ==> IsDigit(Digits(m)[i]);
    DigitsValue(m);
  }

  /** Nothing is lost: reading the text gives raw / 10^precision, for every raw value and precision. */
  lemma {:induction false} RenderedReadsBack(raw: int, precision: nat)
    ensures Read(Rendered(raw, precision)) == Some(raw as real / Pow10(precision) as real)
  {
    var m := Magnitude(raw);
    RenderedIsSigned(raw, precision);
    AnyPrecisionReadsBack(m, precision);
    SignReads(AnyPrecision(m, precision));
    Negated(m, Pow10(precision));
  }

  function AnyPrecision(m: nat, precision: nat): string {
    if precision == 0 then Digits(m) else Unsigned(m, precision)
  }

  lemma {:induction false} AnyPrecisionReadsBack(m: nat, precision: nat)
    ensures ReadUnsigned(AnyPrecision(m, precision)) == Some(m as real / Pow10(precision) as real)
  {
    if precision == 0 {
      IntegerReadsBack(m);
      OverOne(m as real);
    } else {
      UnsignedReadsBack(m, precision);
    }
  }

  lemma {:induction false} OverOne(x: real)
    ensures x / Pow10(0) as real == x
  {
    assert Pow10(0) == 1;
    assert x / 1.0 == x;
  }

  lemma {:induction false} RenderedIsSigned(raw: int, precision: nat)
    ensures var unsigned := AnyPrecision(Magnitude(raw), precision);
            && unsigned != [] && IsDigit(unsigned[0])
            && Rendered(raw, precision) == (if raw < 0 then "-" else "") + unsigned
  {
    assert "" + Digits(Magnitude(raw)) == Digits(Magnitude(raw));
  }

  lemma {:induction false} SignReads(unsigned: string)
    requires unsigned != [] && IsDigit(unsigned[0])
    ensures Read("" + unsigned) == Read(unsigned) == ReadUnsigned(unsigned)
    ensures Read("-" + unsigned)
            == if ReadUnsigned(unsigned).Some? then Some(-ReadUnsigned(unsigned).value) else None
  {
    assert ("-" + unsigned)[1..] == unsigned && "" + unsigned == unsigned;
  }

  lemma {:induction false} Negated(m: nat, d: nat)
    requires d > 0
    ensures (0 - m) as real / d as real == -(m as real / d as real)
  {}

  /** The digits behind the point, none if there is no point. */
  function FractionDigits(s: string): nat {
    var i := IndexOf(s, '.');
    if i == |s| then 0 else |s| - i - 1
  }

  lemma {:induction false} RenderedHasPrecisionDigits(raw: int, precision: nat)
    ensures FractionDigits(Rendered(raw, precision)) == precision
  {
    var m, text := Magnitude(raw), Rendered(raw, precision);
    if precision == 0 {
      var i := IndexOf(text, '.');
      assert forall j | 0 <= j < |text| :: IsDigit(text[j]) || text[j] == '-';
    } else {
      var whole := (if raw < 0 then "-" else "") + Digits(Whole(m, precision));
      assert text == whole + "." + Padded(Part(m, precision), precision);
      FirstPoint(whole, Padded(Part(m, precision), precision));
    }
  }

  lemma {:induction false} SameFraction(a: int, b: int, d: nat)
    requires d > 0 && a as real / d as real == b as real / d as real
    ensures a == b
  {
    assert a as real == a as real / d as real * d as real;
    assert b as real == b as real / d as real * d as real;
  }

  /** The text determines both the raw value and the precision. */
  lemma {:induction false} RenderedIsInjective(a: int, j: nat, b: int, k: nat)
    requires Rendered(a, j) == Rendered(b, k)
    ensures a == b && j == k
  {
    RenderedHasPrecisionDigits(a, j);
    RenderedHasPrecisionDigits(b, k);
    RenderedReadsBack(a, j);
    RenderedReadsBack(b, k);
    SameFraction(a, b, Pow10(j));
  }
}
