/**
 * `parseFloat`, over exact reals: leading white space is skipped, then the
 * longest prefix that is a decimal literal (sign, digits, fraction, exponent)
 * is read. `None` stands for NaN.
 */
module JsNumber {
  import opened Wrappers
  import opened JsText

  /** Length of the run of decimal digits at the start of s. */
  function DigitRun(s: string): (n: nat)
    ensures n <= |s|
    ensures forall i :: 0 <= i < n ==> IsDigit(s[i])
    ensures n == |s| || !IsDigit(s[n])
  {
    if s != [] && IsDigit(s[0]) then 1 + DigitRun(s[1..]) else 0
  }

  predicate AllDigits(d: string) {
    forall i :: 0 <= i < |d| ==> IsDigit(d[i])
  }

  function DigitsValue(d: string): nat
    requires AllDigits(d)
  {
    if d == [] then 0
    else DigitsValue(d[..|d| - 1]) * 10 + (d[|d| - 1] as int - '0' as int)
  }


  /** The value of the fraction digits b, read after a decimal point. */
  function FractionValue(b: string): real
    requires AllDigits(b)
  {
    if b == [] then 0.0
    else ((b[0] as int - '0' as int) as real + FractionValue(b[1..])) / 10.0
  }

  /** The value of the digits `a`, a point, and the digits `b`. */
  function Mantissa(a: string, b: string): real
    requires AllDigits(a) && AllDigits(b)
  {
    DigitsValue(a) as real + FractionValue(b)
  }

  /** `m * 10^e` */
  function Scale(m: real, e: int): real
    decreases if e < 0 then -e else e
  {
    if e == 0 then m
    else if e > 0 then 10.0 * Scale(m, e - 1)
    else Scale(m, e + 1) / 10.0
  }

  function DropSign(t: string): string {
    if |t| > 0 && (t[0] == '-' || t[0] == '+') then t[1..] else t
  }

  /** The exponent part at the start of rest, or 0 when there is none. */
  function ExponentOf(rest: string): int {
    if |rest| > 0 && (rest[0] == 'e' || rest[0] == 'E') then
      var w := DropSign(rest[1..]);
      var k := DigitRun(w);
      if k == 0 then 0
      else if |rest| > 1 && rest[1] == '-' then -(DigitsValue(w[..k]) as int)
      else DigitsValue(w[..k])
    else
      0
  }

  /** A decimal literal starts here: a digit, or a point followed by a digit, after an optional sign. */
  predicate StartsNumeric(t: string) {
    var u := DropSign(t);
    (|u| > 0 && IsDigit(u[0])) || (|u| > 1 && u[0] == '.' && IsDigit(u[1]))
  }

  function ParseFloat(s: string): (r: Option<real>)
    ensures r.Some? <==> StartsNumeric(TrimStart(s))
  {
    var t := TrimStart(s);
    var v := ParseUnsigned(DropSign(t));
    if v.Some? && |t| > 0 && t[0] == '-' then Some(-v.value) else v
  }

  /** The value of the longest unsigned decimal literal at the start of u. */
  function ParseUnsigned(u: string): (r: Option<real>)
    ensures r.Some? <==> (|u| > 0 && IsDigit(u[0])) || (|u| > 1 && u[0] == '.' && IsDigit(u[1]))
  {
    var n1 := DigitRun(u);
    var hasPoint := n1 < |u| && u[n1] == '.';
    var f := if hasPoint then u[n1 + 1..] else [];
    var n2 := DigitRun(f);
    if n1 == 0 && n2 == 0 then
      None
    else
      var rest := if hasPoint then f[n2..] else u[n1..];
      Some(Scale(Mantissa(u[..n1], f[..n2]), ExponentOf(rest)))
  }

  lemma {:induction false} DigitRunOfDigits(d: string, rest: string)
    requires AllDigits(d)
    requires rest == [] || !IsDigit(rest[0])
    ensures DigitRun(d + rest) == |d|
    decreases |d|
  {
    if d != [] {
      assert (d + rest)[1..] == d[1..] + rest;
      DigitRunOfDigits(d[1..], rest);
    } else {
      assert d + rest == rest;
    }
  }

  /** A string that starts with a digit is read without skipping or sign. */
  lemma ParseFloatFromDigit(s: string)
    requires |s| > 0 && IsDigit(s[0])
    ensures ParseFloat(s) == ParseUnsigned(s)
  {
    TrimStartOfNonSpace(s);
  }

  lemma ParseUnsignedInteger(u: string, n: nat)
    requires 0 < n == DigitRun(u)
    requires n == |u| || u[n] != '.'
    requires ExponentOf(u[n..]) == 0
    ensures ParseUnsigned(u) == Some(DigitsValue(u[..n]) as real)
  {
  }

  lemma ParseUnsignedDecimal(u: string, n: nat, k: nat)
    requires 0 < n == DigitRun(u) && n < |u| && u[n] == '.'
    requires k == DigitRun(u[n + 1..])
    requires ExponentOf(u[n + 1..][k..]) == 0
    ensures ParseUnsigned(u) == Some(Mantissa(u[..n], u[n + 1..][..k]))
  {
    var f := u[n + 1..];
    ScaleByZero(Mantissa(u[..n], f[..k]));
  }

  lemma ScaleByZero(m: real)
    ensures Scale(m, 0) == m
  {
  }

  /**
   * A run of digits followed by anything that cannot continue a number
   * (a comma, a space, a letter other than e/E, the end) parses as the
   * integer those digits denote: `parseFloat("3,5")` is 3.
   */
  lemma ParseFloatInteger(d: string, rest: string)
    requires |d| > 0 && AllDigits(d)
    requires rest == [] || (!IsDigit(rest[0]) && rest[0] != '.' && rest[0] != 'e' && rest[0] != 'E')
    ensures ParseFloat(d + rest) == Some(DigitsValue(d) as real)
  {
    var s := d + rest;
    assert s[0] == d[0];
    ParseFloatFromDigit(s);
    DigitRunOfDigits(d, rest);
    assert s[..|d|] == d;
    assert s[|d|..] == rest;
    ParseUnsignedInteger(s, |d|);
  }

  /** A digit run, a point and a second digit run, followed by a non-numeric character or the end. */
  lemma ParseFloatDecimal(d: string, f: string, rest: string)
    requires |d| > 0 && AllDigits(d) && AllDigits(f)
    requires rest == [] || (!IsDigit(rest[0]) && rest[0] != 'e' && rest[0] != 'E')
    ensures ParseFloat(d + "." + f + rest) == Some(Mantissa(d, f))
  {
    var s := d + "." + f + rest;
    DecimalShape(d, f, rest);
    ParseFloatFromDigit(s);
    assert ExponentOf(rest) == 0;
    ParseUnsignedDecimal(s, |d|, |f|);
  }

  lemma DecimalShape(d: string, f: string, rest: string)
    requires |d| > 0 && AllDigits(d) && AllDigits(f)
    requires rest == [] || !IsDigit(rest[0])
    ensures var s := d + "." + f + rest;
      && s[0] == d[0] && DigitRun(s) == |d| < |s| && s[|d|] == '.' && s[..|d|] == d
      && DigitRun(s[|d| + 1..]) == |f| && s[|d| + 1..][..|f|] == f && s[|d| + 1..][|f|..] == rest
  {
    var s := d + "." + f + rest;
    var tail := f + rest;
    assert s == d + ("." + tail);
    DigitRunOfDigits(d, "." + tail);
    assert s[|d| + 1..] == tail;
    DigitRunOfDigits(f, rest);
    assert tail[..|f|] == f;
    assert tail[|f|..] == rest;
  }
}
