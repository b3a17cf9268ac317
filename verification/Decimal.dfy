/** Decimal text: how integers are printed, and how digits and numerals are read. */
module Decimal {
  import opened Bytes
  import opened Sequences

  function Pow10(k: nat): (p: nat)
    ensures p > 0
  {
    if k == 0 then 1 else 10 * Pow10(k - 1)
  }

  predicate IsDigit(c: char) {
    '0' <= c <= '9'
  }

  predicate AllDigits(s: string) {
    forall i | 0 <= i < |s| :: IsDigit(s[i])
  }

  function DigitOf(d: nat): (c: char)
    requires d < 10
    ensures IsDigit(c)
  {
    '0' + d as char
  }

  function DigitValue(c: char): nat
    requires IsDigit(c)
  {
    c as int - '0' as int
  }

  /** The printed form of a natural number. */
  function Digits(n: nat): (s: string)
    ensures s != [] && AllDigits(s)
  {
    if n < 10 then [DigitOf(n)] else Digits(n / 10) + [DigitOf(n % 10)]
  }

  /** The printed form of an integer. */
  function ToString(i: int): string {
    if i < 0 then "-" + Digits(-i) else Digits(i)
  }

  /** The number a string of digits stands for. */
  function Value(s: string): nat
    requires AllDigits(s)
  {
    if s == [] then 0 else 10 * Value(s[..|s| - 1]) + DigitValue(s[|s| - 1])
  }

  lemma {:induction false} DigitsValue(n: nat)
    ensures Value(Digits(n)) == n
  {
    if n < 10 {
      assert Digits(n)[..0] == [];
    } else {
      DigitsValue(n / 10);
      assert Digits(n)[..|Digits(n)| - 1] == Digits(n / 10);
    }
  }

  /** A number below 10^k prints in at most k digits, and only such a number does. */
  lemma {:induction false} DigitsLength(n: nat, k: nat)
    requires k > 0
    ensures |Digits(n)| <= k <==> n < Pow10(k)
    decreases n
  {
    if n < 10 {
      TenAtMost(k);
    } else if k == 1 {
      assert Pow10(1) == 10 * Pow10(0);
    } else {
      DigitsLength(n / 10, k - 1);
    }
  }

  lemma {:induction false} TenAtMost(k: nat)
    requires k > 0
    ensures 10 <= Pow10(k)
    decreases k
  {
    if k > 1 {
      TenAtMost(k - 1);
    }
  }

  /** Printing integers is injective. */
  lemma {:induction false} ToStringInjective(a: int, b: int)
    requires ToString(a) == ToString(b)
    ensures a == b
  {
    assert ToString(a)[0] == '-' <==> a < 0;
    assert ToString(b)[0] == '-' <==> b < 0;
    if a < 0 {
      assert ("-" + Digits(-a))[1..] == Digits(-a) && ("-" + Digits(-b))[1..] == Digits(-b);
      DigitsValue(-a);
      DigitsValue(-b);
    } else {
      DigitsValue(a);
      DigitsValue(b);
    }
  }

  function Zeros(k: nat): (z: string)
    ensures |z| == k && AllDigits(z)
  {
    seq(k, _ => '0')
  }

  lemma {:induction false} ValueConcat(a: string, b: string)
    requires AllDigits(a) && AllDigits(b)
    ensures AllDigits(a + b) && Value(a + b) == Value(a) * Pow10(|b|) + Value(b)
    decreases |b|
  {
    if b == [] {
      assert a + b == a;
    } else {
      var front := b[..|b| - 1];
      ValueConcat(a, front);
      assert (a + b)[..|a + b| - 1] == a + front;
      Regroup(Value(a), Pow10(|front|));
    }
  }

  lemma {:induction false} Regroup(x: int, y: int)
    ensures x * (10 * y) == 10 * (x * y)
  {}

  lemma {:induction false} ZerosValue(k: nat)
    ensures Value(Zeros(k)) == 0
    decreases k
  {
    if k > 0 {
      assert Zeros(k)[..k - 1] == Zeros(k - 1);
      ZerosValue(k - 1);
    }
  }

  // ---- Numerals with a decimal point -------------------------------------------------------------

  /** The number an unsigned numeral stands for: digits, or digits, a point and digits. */
  ghost function ReadUnsigned(s: string): Option<real> {
    var i := IndexOf(s, '.');
    if i == |s| then
      if s != [] && AllDigits(s) then Some(Value(s) as real) else None
    else if 0 < i && i + 1 < |s| && AllDigits(s[..i]) && AllDigits(s[i + 1..]) then
      Some(Value(s[..i]) as real + Value(s[i + 1..]) as real / Pow10(|s| - i - 1) as real)
    else None
  }

  ghost function Read(s: string): Option<real> {
    if s != [] && s[0] == '-' then
      var r := ReadUnsigned(s[1..]);
      if r.Some? then Some(-r.value) else None
    else ReadUnsigned(s)
  }
}
