/**
 JavaScript values as they come out of the argument parser and as they are
 turned into text by `String(...)`. Numbers are modelled as integers; the
 decimal rendering of an integer is given together with its inverse.
 */
module JsValues {

  /** A value of a parsed argument: a string, a number, a boolean or an array. */
  datatype Value = Str(s: string) | Num(n: int) | Bool(b: bool) | Arr(items: seq<Value>)

  predicate IsDigit(c: char) {
    '0' <= c <= '9'
  }

  function DigitChar(d: nat): (c: char)
    requires d < 10
    ensures IsDigit(c)
    ensures c as int - '0' as int == d
  {
    "0123456789"[d]
  }

  function DigitValue(c: char): (d: nat)
    requires IsDigit(c)
    ensures d < 10
    ensures DigitChar(d) == c
  {
    c as int - '0' as int
  }

  /** Decimal digits of a natural number, most significant first, no leading zero. */
  function NatToDecimal(n: nat): (r: string)
    ensures |r| >= 1
    ensures forall i :: 0 <= i < |r| ==> IsDigit(r[i])
    ensures r[0] == '0' ==> n == 0 && |r| == 1
    decreases n
  {
    if n < 10 then [DigitChar(n)] else NatToDecimal(n / 10) + [DigitChar(n % 10)]
  }

  /** Reads a non-empty string of decimal digits as a natural number. */
  function DecimalToNat(s: string): nat
    requires |s| >= 1
    requires forall i :: 0 <= i < |s| ==> IsDigit(s[i])
    decreases |s|
  {
    if |s| == 1 then DigitValue(s[0]) else 10 * DecimalToNat(s[..|s| - 1]) + DigitValue(s[|s| - 1])
  }

  /** `String(n)` for an integral number: an optional minus sign, then the digits. */
  function IntToDecimal(n: int): (r: string)
    ensures |r| >= 1
    ensures (r[0] == '-') <==> n < 0
  {
    if n < 0 then "-" + NatToDecimal(-n) else NatToDecimal(n)
  }

  /** Reads back what `IntToDecimal` writes: an optional minus sign, then at least one digit. */
  function DecimalToInt(s: string): int
    requires |s| >= 1
    requires |s| >= (if s[0] == '-' then 2 else 1)
    requires forall i :: (if s[0] == '-' then 1 else 0) <= i < |s| ==> IsDigit(s[i])
  {
    if s[0] == '-' then 0 - DecimalToNat(s[1..]) else DecimalToNat(s) as int
  }

  lemma {:induction false} NatDecimalRoundTrip(n: nat)
    ensures DecimalToNat(NatToDecimal(n)) == n
    decreases n
  {
    var r := NatToDecimal(n);
    if n >= 10 {
      NatDecimalRoundTrip(n / 10);
      assert r[..|r| - 1] == NatToDecimal(n / 10);
    }
  }

  /** The rendering of an integral number is read back as that number. */
  lemma IntDecimalRoundTrip(n: int)
    ensures var s := IntToDecimal(n);
      |s| >= (if s[0] == '-' then 2 else 1) &&
      (forall i :: (if s[0] == '-' then 1 else 0) <= i < |s| ==> IsDigit(s[i])) &&
      DecimalToInt(s) == n
  {
    var s := IntToDecimal(n);
    if n < 0 {
      assert s[1..] == NatToDecimal(-n);
      NatDecimalRoundTrip(-n);
    } else {
      NatDecimalRoundTrip(n);
    }
  }

  /** Distinct numbers never render to the same text. */
  lemma IntToDecimalInjective(m: int, n: int)
    requires IntToDecimal(m) == IntToDecimal(n)
    ensures m == n
  {
    IntDecimalRoundTrip(m);
    IntDecimalRoundTrip(n);
  }

  /** The texts joined with "," between neighbours, as `Array.prototype.join` does. */
  function JoinComma(parts: seq<string>): (r: string)
    ensures |parts| == 0 ==> r == ""
    ensures |parts| == 1 ==> r == parts[0]
  {
    if |parts| == 0 then ""
    else if |parts| == 1 then parts[0]
    else parts[0] + "," + JoinComma(parts[1..])
  }

  /** `String(v)`: the text JavaScript produces for a parsed value. */
  function JsString(v: Value): (r: string)
    ensures v.Str? ==> r == v.s
    ensures v.Num? ==> r == IntToDecimal(v.n) && |r| > 0 && ((r[0] == '-') <==> v.n < 0)
    ensures v.Bool? ==> r == (if v.b then "true" else "false")
    ensures v.Arr? && |v.items| == 0 ==> r == ""
    ensures v.Arr? && |v.items| == 1 ==> r == JsString(v.items[0])
    decreases v
  {
    match v
    case Str(s) => s
    case Num(n) => IntToDecimal(n)
    case Bool(b) => if b then "true" else "false"
    case Arr(items) =>
      JoinComma(seq(|items|, i requires 0 <= i < |items| => JsString(items[i])))
  }

  /** Strings are stringified to themselves and numbers to text that reads back as the number. */
  lemma JsStringOfScalar(v: Value)
    ensures v.Str? ==> JsString(v) == v.s
    ensures v.Num? ==> DecimalToInt(JsString(v)) == v.n
    ensures v.Bool? ==> JsString(v) == (if v.b then "true" else "false")
  {
    if v.Num? {
      IntDecimalRoundTrip(v.n);
    }
  }
}
