/** The JavaScript number operations the core relies on, over exact reals:
    `parseFloat` (with `NaN` as `None`), `Math.abs`, `Math.floor` and the
    `Number(x.toFixed(2))` rounding. */
module JsNumber {
  import opened Wrappers
  import opened JsString

  function Abs(x: real): (r: real)
    ensures r >= 0.0 && (r == x || r == -x)
  {
    if x < 0.0 then -x else x
  }

  /** `Math.floor`. */
  function Floor(x: real): (r: int)
    ensures r as real <= x < r as real + 1.0
  {
    x.Floor
  }

  /** `Math.floor(u * n)` for a draw `u` in [0, 1): an index below `n`. */
  function PickIndex(u: real, n: nat): (i: nat)
    requires 0.0 <= u < 1.0 && n > 0
    ensures i < n
    ensures i as real <= u * n as real < i as real + 1.0
  {
    var x := u * n as real;
    ScaleBelow(u, n as real);
    FloorBelow(x, n);
    Floor(x)
  }

  lemma FloorBelow(x: real, n: nat)
    requires 0.0 <= x < n as real
    ensures 0 <= Floor(x) < n
  {
  }

  lemma ScaleBelow(u: real, m: real)
    requires 0.0 <= u < 1.0 && m > 0.0
    ensures 0.0 <= u * m < m
  {
    assert m - u * m == (1.0 - u) * m;
  }

  function Pow10(n: nat): (r: nat)
    ensures r >= 1
  {
    if n == 0 then 1 else 10 * Pow10(n - 1)
  }

  function DigitValue(c: char): (d: nat)
    requires IsAsciiDigit(c)
    ensures d < 10 && DigitChar(d) == c
  {
    c as int - '0' as int
  }

  /** The value of a run of decimal digits, most significant first. */
  function DigitsValue(ds: string): (v: nat)
    requires AllAsciiDigits(ds)
    ensures v < Pow10(|ds|)
  {
    if ds == [] then 0 else DigitsValue(ds[..|ds| - 1]) * 10 + DigitValue(ds[|ds| - 1])
  }

  /** The length of the run of ASCII digits at the start of `s`. */
  function DigitRun(s: string): (n: nat)
    ensures n <= |s| && AllAsciiDigits(s[..n])
    ensures n < |s| ==> !IsAsciiDigit(s[n])
  {
    if s != [] && IsAsciiDigit(s[0]) then
      var n := 1 + DigitRun(s[1..]);
      assert s[..n] == [s[0]] + s[1..][..n - 1];
      n
    else 0
  }

  lemma {:induction false} DigitRunOfDigits(s: string, rest: string)
    requires AllAsciiDigits(s)
    requires rest == [] || !IsAsciiDigit(rest[0])
    ensures DigitRun(s + rest) == |s|
  {
    if s != [] {
      assert (s + rest)[1..] == s[1..] + rest;
      DigitRunOfDigits(s[1..], rest);
    } else {
      assert s + rest == rest;
    }
  }

  /** The value of an optional exponent part `e[+-]digits`; 0 when there is none. */
  function ExponentOf(s: string): int {
    if |s| > 0 && (s[0] == 'e' || s[0] == 'E') then
      var t := s[1..];
      var neg := |t| > 0 && t[0] == '-';
      var u := if |t| > 0 && (t[0] == '+' || t[0] == '-') then t[1..] else t;
      var n := DigitRun(u);
      if n == 0 then 0
      else if neg then -(DigitsValue(u[..n]) as int)
      else DigitsValue(u[..n])
    else 0
  }

  /** The value of the longest unsigned decimal literal at the start of `u`
      (digits, an optional fraction, an optional exponent), if there is one. */
  function UnsignedPrefix(u: string): (r: Option<real>)
    ensures |u| > 0 && IsAsciiDigit(u[0]) ==> r.Some?
    ensures r.Some? ==> r.value >= 0.0
  {
    var n1 := DigitRun(u);
    var afterInt := u[n1..];
    var hasDot := |afterInt| > 0 && afterInt[0] == '.';
    var fracSrc := if hasDot then afterInt[1..] else [];
    var n2 := DigitRun(fracSrc);
    if n1 + n2 == 0 then None
    else
      var rest := if hasDot then fracSrc[n2..] else afterInt;
      Some(Scale(Mantissa(u[..n1], fracSrc[..n2]), ExponentOf(rest)))
  }

  /** The value of `intDigits.fracDigits`. */
  function Mantissa(intDigits: string, fracDigits: string): (m: real)
    requires AllAsciiDigits(intDigits) && AllAsciiDigits(fracDigits)
    ensures fracDigits == [] ==> m == DigitsValue(intDigits) as real
    ensures m >= 0.0
  {
    DigitsValue(intDigits) as real + DigitsValue(fracDigits) as real / Pow10(|fracDigits|) as real
  }

  /** `m` times ten to the power `e`. */
  function Scale(m: real, e: int): (r: real)
    ensures e == 0 ==> r == m
    ensures m >= 0.0 ==> r >= 0.0
  {
    if e >= 0 then m * Pow10(e) as real else m / Pow10(-e) as real
  }

  /** `parseFloat(s)`: the longest decimal-literal prefix after leading white
      space and an optional sign, or `None` for `NaN` when there is none. */
  function ParseFloat(s: string): (r: Option<real>)
    ensures var t := TrimStart(s); |t| > 0 && IsAsciiDigit(t[0]) ==> r.Some? && r.value >= 0.0
    ensures var t := TrimStart(s); |t| > 0 && t[0] == '-' && r.Some? ==> r.value <= 0.0
  {
    var t := TrimStart(s);
    if |t| > 0 && t[0] == '-' then
      match UnsignedPrefix(t[1..])
      case None => None
      case Some(v) => Some(-v)
    else if |t| > 0 && t[0] == '+' then UnsignedPrefix(t[1..])
    else UnsignedPrefix(t)
  }

  /** `parseFloat` gives `NaN` exactly when, after the white space and the
      sign, neither a digit nor a point followed by a digit comes first. */
  lemma ParseFloatIsNaN(s: string)
    ensures var t := TrimStart(s);
      var u := if |t| > 0 && (t[0] == '+' || t[0] == '-') then t[1..] else t;
      ParseFloat(s).None? <==> DigitRun(u) == 0 && !(|u| > 1 && u[0] == '.' && IsAsciiDigit(u[1]))
  {
    var t := TrimStart(s);
    var u := if |t| > 0 && (t[0] == '+' || t[0] == '-') then t[1..] else t;
    UnsignedPrefixIsNone(u);
    if |t| > 0 && t[0] == '-' {
      assert ParseFloat(s).None? <==> UnsignedPrefix(u).None?;
    } else {
      assert ParseFloat(s) == UnsignedPrefix(u);
    }
  }

  lemma UnsignedPrefixIsNone(u: string)
    ensures UnsignedPrefix(u).None? <==> DigitRun(u) == 0 && !(|u| > 1 && u[0] == '.' && IsAsciiDigit(u[1]))
  {
    var n1 := DigitRun(u);
    if n1 == 0 {
      assert u[n1..] == u;
    }
  }

  /** Reading back the decimal form of a natural number yields it. */
  lemma {:induction false} DigitsValueOfNat(n: nat)
    ensures DigitsValue(NatToString(n)) == n
  {
    var s := NatToString(n);
    if n < 10 {
      assert s == [DigitChar(n)];
      assert s[..0] == [];
      assert DigitValue(s[0]) == n;
    } else {
      var p, d := NatToString(n / 10), n % 10;
      assert s == p + [DigitChar(d)];
      assert s[..|s| - 1] == p;
      DigitsValueOfNat(n / 10);
      assert DigitValue(s[|s| - 1]) == d;
      assert DigitsValue(s) == DigitsValue(p) * 10 + d;
      assert (n / 10) * 10 + d == n;
    }
  }

  /** A digit run followed by text that cannot continue a literal reads as its value. */
  lemma UnsignedPrefixOfDigits(d: string, rest: string)
    requires |d| >= 1 && AllAsciiDigits(d)
    requires rest == [] || !(IsAsciiDigit(rest[0]) || rest[0] == '.' || rest[0] == 'e' || rest[0] == 'E')
    ensures UnsignedPrefix(d + rest) == Some(DigitsValue(d) as real)
  {
    var s := d + rest;
    DigitRunOfDigits(d, rest);
    assert s[..|d|] == d;
    assert s[|d|..] == rest;
    assert ExponentOf(rest) == 0;
    var frac: string := [];
    assert DigitRun(frac) == 0 && frac[..0] == [];
  }

  /** `parseFloat(String(n))` is `n`, whatever non-numeric text follows. */
  lemma ParseFloatOfNat(n: nat, rest: string)
    requires rest == [] || !(IsAsciiDigit(rest[0]) || rest[0] == '.' || rest[0] == 'e' || rest[0] == 'E')
    ensures ParseFloat(NatToString(n) + rest) == Some(n as real)
  {
    var d := NatToString(n);
    var s := d + rest;
    assert s[0] == d[0];
    ParseFloatOfDigitStart(s);
    UnsignedPrefixOfDigits(d, rest);
    DigitsValueOfNat(n);
  }

  /** Text that starts with a digit is read without trimming or sign. */
  lemma ParseFloatOfDigitStart(s: string)
    requires |s| > 0 && IsAsciiDigit(s[0])
    ensures ParseFloat(s) == UnsignedPrefix(s)
  {
    assert !IsWhiteSpace(s[0]);
    assert TrimStart(s) == s;
  }

  /** `parseFloat(String(n))` is `n`. */
  lemma ParseFloatOfNatString(n: nat)
    ensures ParseFloat(NatToString(n)) == Some(n as real)
  {
    ParseFloatOfNat(n, []);
    assert NatToString(n) + [] == NatToString(n);
  }

  /** A decimal literal as the quote service writes a price: the whole part
      and the digits after the point, with no point when there are none. */
  datatype Decimal = Decimal(whole: nat, frac: string)

  predicate ValidDecimal(x: Decimal) {
    AllAsciiDigits(x.frac)
  }

  /** The text of a decimal literal: digits, and a point when a fraction follows. */
  function DecimalText(x: Decimal): (r: string)
    requires ValidDecimal(x)
    ensures |r| >= 1 && IsAsciiDigit(r[0])
    ensures forall k :: 0 <= k < |r| ==> IsAsciiDigit(r[k]) || r[k] == '.'
  {
    if x.frac == [] then NatToString(x.whole) else NatToString(x.whole) + "." + x.frac
  }

  /** The value the literal denotes. */
  function DecimalValue(x: Decimal): (v: real)
    requires ValidDecimal(x)
    ensures x.whole as real <= v < x.whole as real + 1.0
  {
    FractionBelowOne(DigitsValue(x.frac), Pow10(|x.frac|));
    x.whole as real + DigitsValue(x.frac) as real / Pow10(|x.frac|) as real
  }

  lemma FractionBelowOne(a: nat, b: nat)
    requires a < b
    ensures 0.0 <= a as real / b as real < 1.0
  {
    assert a as real / b as real * b as real == a as real;
  }

  /** `parseFloat` reads a decimal literal, fraction included, as its value,
      whatever non-numeric text follows. */
  lemma ParseFloatOfDecimal(x: Decimal, rest: string)
    requires ValidDecimal(x)
    requires rest == [] || !(IsAsciiDigit(rest[0]) || rest[0] == '.' || rest[0] == 'e' || rest[0] == 'E')
    ensures ParseFloat(DecimalText(x) + rest) == Some(DecimalValue(x))
  {
    var d := NatToString(x.whole);
    if x.frac == [] {
      ParseFloatOfNat(x.whole, rest);
      assert DecimalText(x) == d;
      DecimalValueWhole(x);
    } else {
      var s := d + ("." + x.frac + rest);
      assert DecimalText(x) + rest == s;
      assert s[0] == d[0];
      ParseFloatOfDigitStart(s);
      UnsignedPrefixOfFraction(d, x.frac, rest);
      DigitsValueOfNat(x.whole);
      assert Mantissa(d, x.frac) == DecimalValue(x);
      assert ParseFloat(s) == Some(Mantissa(d, x.frac));
    }
  }

  lemma DecimalValueWhole(x: Decimal)
    requires x.frac == []
    ensures DecimalValue(x) == x.whole as real
  {
    assert DigitsValue(x.frac) == 0 && Pow10(|x.frac|) == 1;
  }

  /** Digits, a point and more digits, followed by text that cannot continue
      a literal, read as their mantissa. */
  lemma UnsignedPrefixOfFraction(d: string, f: string, rest: string)
    requires |d| >= 1 && AllAsciiDigits(d) && |f| >= 1 && AllAsciiDigits(f)
    requires rest == [] || !(IsAsciiDigit(rest[0]) || rest[0] == '.' || rest[0] == 'e' || rest[0] == 'E')
    ensures UnsignedPrefix(d + ("." + f + rest)) == Some(Mantissa(d, f))
  {
    var tail := "." + f + rest;
    var s := d + tail;
    DigitRunOfDigits(d, tail);
    assert s[..|d|] == d;
    assert s[|d|..] == tail;
    var fracSrc := f + rest;
    assert tail[1..] == fracSrc;
    DigitRunOfDigits(f, rest);
    assert fracSrc[..|f|] == f;
    assert fracSrc[|f|..] == rest;
    assert ExponentOf(rest) == 0;
  }

  /** `parseFloat` of a decimal literal alone is its value. */
  lemma ParseFloatOfDecimalText(x: Decimal)
    requires ValidDecimal(x)
    ensures ParseFloat(DecimalText(x)) == Some(DecimalValue(x))
  {
    ParseFloatOfDecimal(x, []);
    assert DecimalText(x) + [] == DecimalText(x);
  }

  /** A price as a Sina answer writes it, "375.610", reads as 375.61. */
  lemma SamplePrice()
    ensures ParseFloat("375.610") == Some(375.61)
  {
    var x := Decimal(375, "610");
    assert NatToString(3) == "3";
    assert NatToString(37) == "37";
    assert NatToString(375) == "375";
    assert DecimalText(x) == "375.610";
    assert "610"[..2] == "61" && "61"[..1] == "6" && "6"[..0] == [];
    assert DigitsValue("610") == 610;
    assert Pow10(3) == 1000;
    ParseFloatOfDecimalText(x);
  }

  /** `Math.round`-style rounding of the magnitude, half away from zero, as
      `toFixed` does for the sign and magnitude separately. */
  function RoundHalfAway(y: real): (k: int)
    ensures -0.5 <= k as real - y <= 0.5
  {
    if y >= 0.0 then (y + 0.5).Floor else -((-y + 0.5).Floor)
  }

  /** `Number(x.toFixed(2))` on the exact value: the nearest multiple of 0.01. */
  function Round2(x: real): (r: real)
    ensures -0.005 <= r - x <= 0.005
    ensures (r * 100.0).Floor as real == r * 100.0
  {
    RoundHalfAway(x * 100.0) as real / 100.0
  }

  /** Rounding an already rounded value changes nothing. */
  lemma Round2Idempotent(x: real)
    ensures Round2(Round2(x)) == Round2(x)
  {
    var k := RoundHalfAway(x * 100.0);
    assert Round2(x) * 100.0 == k as real;
    assert RoundHalfAway(k as real) == k;
  }
}
