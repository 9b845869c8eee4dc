/**
 * Numeric text of the chaincode: the decimal amounts and balances that the
 * source parses with `strconv.ParseFloat` and prints with `strconv.FormatFloat`,
 * and the integer that `Init` parses with `strconv.Atoi` and prints with
 * `strconv.Itoa`.
 *
 * Amounts are exact decimals (a mantissa and a number of fraction digits)
 * rather than binary floating point, so sums and differences are exact.
 */
module Numbers {
  import opened Options

  // ---------------------------------------------------------------------------
  // Digits

  predicate IsDigit(c: char) { '0' <= c <= '9' }

  predicate AllDigits(s: string) { forall i | 0 <= i < |s| :: IsDigit(s[i]) }

  function DigitValue(c: char): (n: nat)
    requires IsDigit(c)
    ensures n < 10
  {
    c as int - '0' as int
  }

  function DigitChar(n: nat): (c: char)
    requires n < 10
    ensures IsDigit(c) && DigitValue(c) == n
  {
    ('0' as int + n) as char
  }

  /** The number a string of decimal digits denotes, most significant first. */
  function DigitsValue(s: string): nat
    requires AllDigits(s)
  {
    if s == [] then 0 else DigitsValue(s[..|s| - 1]) * 10 + DigitValue(s[|s| - 1])
  }

  /** The shortest decimal spelling of `n` (no leading zeros, "0" for zero). */
  function NatDigits(n: nat): (s: string)
    ensures |s| >= 1 && AllDigits(s)
    ensures s[0] == '0' ==> n == 0
  {
    if n < 10 then [DigitChar(n)] else NatDigits(n / 10) + [DigitChar(n % 10)]
  }

  lemma {:induction false} NatDigitsValue(n: nat)
    ensures DigitsValue(NatDigits(n)) == n
  {
    if n >= 10 {
      var s := NatDigits(n);
      assert s[..|s| - 1] == NatDigits(n / 10);
      NatDigitsValue(n / 10);
    }
  }

  /** The last `width` decimal digits of `n`, zero-padded on the left. */
  function FixedDigits(n: nat, width: nat): (s: string)
    ensures |s| == width && AllDigits(s)
  {
    if width == 0 then "" else FixedDigits(n / 10, width - 1) + [DigitChar(n % 10)]
  }

  /** `n` without its last `k` decimal digits. */
  function DropDigits(n: nat, k: nat): nat
  {
    if k == 0 then n else DropDigits(n / 10, k - 1)
  }

  /** Appending digits shifts the value left by their count. */
  lemma {:induction false} DigitsValueAppend(a: string, b: string)
    requires AllDigits(a) && AllDigits(b)
    ensures AllDigits(a + b)
    ensures DigitsValue(a + b) == DigitsValue(a) * Pow10(|b|) + DigitsValue(b)
  {
    DigitsConcat(a, b);
    if b == [] {
      assert a + b == a;
    } else {
      var init, last := b[..|b| - 1], b[|b| - 1];
      assert (a + b)[..|a + b| - 1] == a + init;
      assert (a + b)[|a + b| - 1] == last;
      assert AllDigits(init);
      DigitsValueAppend(a, init);
      var x, y, p, c := DigitsValue(a), DigitsValue(init), Pow10(|init|), DigitValue(last);
      assert DigitsValue(a + b) == (x * p + y) * 10 + c;
      assert DigitsValue(b) == y * 10 + c;
      assert Pow10(|b|) == 10 * p;
      ShiftLeft(x, y, p, c);
    }
  }

  /** Shifting `x * p + y` one digit left and appending `c`. */
  lemma ShiftLeft(x: int, y: int, p: int, c: int)
    ensures (x * p + y) * 10 + c == x * (10 * p) + (y * 10 + c)
  {
  }

  /** A number is its leading part shifted left by `k` digits plus its last `k` digits. */
  lemma {:induction false} SplitDigitsValue(n: nat, k: nat)
    ensures DropDigits(n, k) * Pow10(k) + DigitsValue(FixedDigits(n, k)) == n
  {
    if k > 0 {
      var f := FixedDigits(n, k);
      assert f[..k - 1] == FixedDigits(n / 10, k - 1);
      SplitDigitsValue(n / 10, k - 1);
      var q, p, v, c := DropDigits(n / 10, k - 1), Pow10(k - 1), DigitsValue(FixedDigits(n / 10, k - 1)), n % 10;
      assert DigitsValue(f) == v * 10 + c;
      assert q * p + v == n / 10;
      ShiftLeft(q, v, p, c);
    }
  }

  /** The integer digits followed by the fraction digits spell `n` again. */
  lemma JoinedDigitsValue(n: nat, k: nat)
    ensures AllDigits(NatDigits(DropDigits(n, k)) + FixedDigits(n, k))
    ensures DigitsValue(NatDigits(DropDigits(n, k)) + FixedDigits(n, k)) == n
  {
    DigitsValueAppend(NatDigits(DropDigits(n, k)), FixedDigits(n, k));
    NatDigitsValue(DropDigits(n, k));
    SplitDigitsValue(n, k);
  }

  /** The index of the first `c` in `s`, or `|s|` when there is none. */
  function FirstIndexOfChar(s: string, c: char): (i: nat)
    ensures i <= |s|
    ensures i < |s| ==> s[i] == c
    ensures forall j | 0 <= j < i :: s[j] != c
  {
    if s == [] then 0 else if s[0] == c then 0 else 1 + FirstIndexOfChar(s[1..], c)
  }

  /** A leading '-' or '+' is split off; the flag says whether it was '-'. */
  function SplitSign(s: string): (r: (bool, string))
    ensures r.0 <==> |s| > 0 && s[0] == '-'
    ensures |s| > 0 && (s[0] == '-' || s[0] == '+') ==> r.1 == s[1..]
    ensures !(|s| > 0 && (s[0] == '-' || s[0] == '+')) ==> r.1 == s
  {
    if |s| > 0 && (s[0] == '-' || s[0] == '+') then (s[0] == '-', s[1..]) else (false, s)
  }

  function Abs(n: int): nat { if n < 0 then -n else n }

  // ---------------------------------------------------------------------------
  // Exact decimals

  function Pow10(n: nat): (p: nat)
    ensures p >= 1
  {
    if n == 0 then 1 else 10 * Pow10(n - 1)
  }

  lemma {:induction false} Pow10Add(a: nat, b: nat)
    ensures Pow10(a + b) == Pow10(a) * Pow10(b)
  {
    if a > 0 {
      Pow10Add(a - 1, b);
      assert Pow10(a + b) == 10 * (Pow10(a - 1) * Pow10(b));
    }
  }

  /** The number `mantissa / 10^scale`. */
  datatype Decimal = Decimal(mantissa: int, scale: nat) {

    function ToReal(): real {
      mantissa as real / Pow10(scale) as real
    }

    predicate IsNegative() { mantissa < 0 }
  }

  /** The mantissa of `d` written with `s` fraction digits. */
  function Rescale(d: Decimal, s: nat): int
    requires d.scale <= s
  {
    d.mantissa * Pow10(s - d.scale)
  }

  /** Multiplying numerator and denominator by the same positive factor. */
  lemma CancelFactor(m: real, k: real, p: real)
    requires k > 0.0 && p > 0.0
    ensures (m * k) / (k * p) == m / p
  {
    var q := m / p;
    assert q * p == m;
    assert m * k == q * (k * p);
  }

  lemma IntToRealMul(a: int, b: int)
    ensures (a * b) as real == a as real * b as real
  {
  }

  lemma ScaledQuotient(m: int, k: int, p: int, n: int)
    requires k >= 1 && p >= 1 && n == k * p
    ensures (m * k) as real / n as real == m as real / p as real
  {
    IntToRealMul(k, p);
    IntToRealMul(m, k);
    CancelFactor(m as real, k as real, p as real);
  }

  lemma RescaleValue(d: Decimal, s: nat)
    requires d.scale <= s
    ensures Rescale(d, s) as real / Pow10(s) as real == d.ToReal()
  {
    Pow10Add(s - d.scale, d.scale);
    ScaledQuotient(d.mantissa, Pow10(s - d.scale), Pow10(d.scale), Pow10(s));
  }

  lemma SameDenominator(x: real, y: real, z: real)
    requires z > 0.0
    ensures (x + y) / z == x / z + y / z
  {
  }

  lemma IsNegativeIffBelowZero(d: Decimal)
    ensures d.IsNegative() <==> d.ToReal() < 0.0
  {
    var p := Pow10(d.scale) as real;
    assert d.ToReal() * p == d.mantissa as real;
  }

  /** Exact sum. */
  function Add(a: Decimal, b: Decimal): (r: Decimal)
    ensures r.ToReal() == a.ToReal() + b.ToReal()
  {
    var s := if a.scale < b.scale then b.scale else a.scale;
    RescaleValue(a, s);
    RescaleValue(b, s);
    SameDenominator(Rescale(a, s) as real, Rescale(b, s) as real, Pow10(s) as real);
    Decimal(Rescale(a, s) + Rescale(b, s), s)
  }

  function Negate(d: Decimal): (r: Decimal)
    ensures r.ToReal() == -d.ToReal()
  {
    Decimal(-d.mantissa, d.scale)
  }

  /** Exact difference. */
  function Sub(a: Decimal, b: Decimal): (r: Decimal)
    ensures r.ToReal() == a.ToReal() - b.ToReal()
  {
    Add(a, Negate(b))
  }

  // ---------------------------------------------------------------------------
  // Decimal text

  /**
   * Plain decimal spelling of `d`: an optional '-', the integer part without
   * leading zeros, and when `scale > 0` a '.' followed by exactly `scale` digits.
   */
  function FormatDecimal(d: Decimal): (s: string)
    ensures |s| > 0
    ensures s[0] == '-' <==> d.mantissa < 0
  {
    if d.mantissa < 0 then "-" + UnsignedText(d) else UnsignedText(d)
  }

  /** The spelling of `|d|`. */
  function UnsignedText(d: Decimal): (u: string)
    ensures |u| > 0 && IsDigit(u[0])
  {
    var n := Abs(d.mantissa);
    var whole := NatDigits(DropDigits(n, d.scale));
    if d.scale == 0 then whole else whole + "." + FixedDigits(n, d.scale)
  }

  lemma DigitsConcat(a: string, b: string)
    requires AllDigits(a) && AllDigits(b)
    ensures AllDigits(a + b)
  {
    forall i | 0 <= i < |a + b| ensures IsDigit((a + b)[i]) {
      if i < |a| { assert (a + b)[i] == a[i]; } else { assert (a + b)[i] == b[i - |a|]; }
    }
  }

  /**
   * An unsigned decimal: digits with at most one '.', at least one digit in
   * all. The result is the value of all digits and the number after the point.
   */
  function ParseUnsigned(u: string): Option<(nat, nat)>
  {
    var dot := FirstIndexOfChar(u, '.');
    var whole := u[..dot];
    var fraction := if dot < |u| then u[dot + 1..] else "";
    if AllDigits(whole) && AllDigits(fraction) && |whole| + |fraction| > 0 then
      DigitsConcat(whole, fraction);
      Some((DigitsValue(whole + fraction), |fraction|))
    else
      None
  }

  /**
   * Decimal numbers as the source's float parser reads them: an optional sign,
   * then digits with at most one '.', and at least one digit in all.
   */
  function ParseDecimal(s: string): (r: Option<Decimal>)
    ensures s == "" ==> r == None
    ensures r.Some? && r.value.mantissa < 0 ==> s[0] == '-'
    ensures r.Some? ==> r.value.scale < |s|
  {
    var (negative, unsigned) := SplitSign(s);
    match ParseUnsigned(unsigned)
    case None => None
    case Some((m, scale)) => Some(Decimal(if negative then -(m as int) else m, scale))
  }

  lemma ParseWithoutPoint(digits: string)
    requires AllDigits(digits) && |digits| > 0
    ensures ParseUnsigned(digits) == Some((DigitsValue(digits), 0))
  {
    assert FirstIndexOfChar(digits, '.') == |digits|;
    assert digits[..|digits|] == digits;
    assert digits + "" == digits;
  }

  /** Digits, a point and digits parse to the value of all the digits and the count after the point. */
  lemma ParseWithPoint(whole: string, fraction: string)
    requires AllDigits(whole) && AllDigits(fraction) && |whole| > 0
    ensures ParseUnsigned(whole + "." + fraction)
         == Some((DigitsValue(whole + fraction), |fraction|))
  {
    var u := whole + "." + fraction;
    var cut := |whole|;
    assert forall j | 0 <= j < cut :: u[j] == whole[j];
    assert u[cut] == '.';
    assert FirstIndexOfChar(u, '.') == cut;
    assert u[..cut] == whole;
    assert u[cut + 1..] == fraction;
  }

  /** The spelling of `|d|` starts with a digit and reads back as `|d|` at the same scale. */
  lemma ParseUnsignedText(d: Decimal)
    ensures |UnsignedText(d)| > 0 && IsDigit(UnsignedText(d)[0])
    ensures ParseUnsigned(UnsignedText(d)) == Some((Abs(d.mantissa), d.scale))
  {
    var n := Abs(d.mantissa);
    var whole := NatDigits(DropDigits(n, d.scale));
    if d.scale == 0 {
      NatDigitsValue(n);
      ParseWithoutPoint(whole);
    } else {
      JoinedDigitsValue(n, d.scale);
      ParseWithPoint(whole, FixedDigits(n, d.scale));
      assert UnsignedText(d)[0] == whole[0];
    }
  }

  /** What is written is read back exactly: stored balances lose nothing. */
  lemma ParseFormatDecimal(d: Decimal)
    ensures ParseDecimal(FormatDecimal(d)) == Some(d)
  {
    ParseUnsignedText(d);
    assert SplitSign(FormatDecimal(d)) == (d.mantissa < 0, UnsignedText(d));
  }

  // ---------------------------------------------------------------------------
  // Integer text (Init's argument)

  /** Bounds of Go's 64-bit `int`. */
  const MinInt64: int := -0x8000_0000_0000_0000
  const MaxInt64: int := 0x7fff_ffff_ffff_ffff

  /**
   * Base-10 integer parsing: an optional sign and at least one digit; a value
   * outside the 64-bit range is an error.
   */
  function Atoi(s: string): (r: Option<int>)
    ensures r.Some? ==> MinInt64 <= r.value <= MaxInt64
    ensures r.Some? ==> s != "" && s != "-" && s != "+"
  {
    var (negative, digits) := SplitSign(s);
    if |digits| > 0 && AllDigits(digits) then
      var v: int := if negative then -(DigitsValue(digits) as int) else DigitsValue(digits);
      if MinInt64 <= v <= MaxInt64 then Some(v) else None
    else
      None
  }

  /** The shortest base-10 spelling of `n`, with a '-' exactly when it is negative. */
  function Itoa(n: int): (s: string)
    ensures |s| > 0 && AllDigits(s[1..])
    ensures s[0] == '-' <==> n < 0
  {
    if n < 0 then "-" + NatDigits(-n) else NatDigits(n)
  }

  /** Every 64-bit integer survives printing and parsing back. */
  lemma AtoiItoa(n: int)
    requires MinInt64 <= n <= MaxInt64
    ensures Atoi(Itoa(n)) == Some(n)
  {
    NatDigitsValue(Abs(n));
    var digits := NatDigits(Abs(n));
    assert IsDigit(digits[0]);
    if n < 0 {
      assert SplitSign(Itoa(n)) == (true, digits);
    } else {
      assert SplitSign(Itoa(n)) == (false, digits);
    }
  }
}
