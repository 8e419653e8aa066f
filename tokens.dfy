/**
 * Typed tokens. `infer_type` (vrplib/parse/parse_utils.py and the identical copy in
 * cvrplib/parse/parse_utils.py) turns a token into an int, else a float, else keeps the
 * string; `_int_or_float` (cvrplib/read/parse_vrplib.py) keeps ints only for digit strings.
 * Python floats are modelled as exact reals.
 */
module Tokens {
  import opened Wrappers
  import opened Text

  /** A typed token: Python int, float or str. */
  datatype Value = I(i: int) | F(r: real) | S(s: string)

  predicate IsDigit(c: char) {
    '0' <= c <= '9'
  }

  /** Python's str.isdigit() (and str.isnumeric()) on ASCII: non-empty and all digits. */
  predicate AllDigits(s: string) {
    s != [] && DigitsOnly(s)
  }

  function DigitValue(c: char): nat
    requires IsDigit(c)
  {
    c as int - '0' as int
  }

  /** The number a string of decimal digits denotes. */
  function DigitsValue(s: string): nat
    requires DigitsOnly(s)
    decreases |s|
  {
    if s == [] then 0 else DigitsValue(s[..|s| - 1]) * 10 + DigitValue(s[|s| - 1])
  }

  function Pow10(k: nat): (p: nat)
    ensures p >= 1
  {
    if k == 0 then 1 else 10 * Pow10(k - 1)
  }

  predicate IsSign(c: char) {
    c == '-' || c == '+'
  }

  /** The text of an integer literal as Python's int() reads it: an optional sign, then digits. */
  predicate IsIntLiteral(t: string) {
    AllDigits(t) || (t != [] && IsSign(t[0]) && AllDigits(t[1..]))
  }

  /** Python's int(s): surrounding whitespace is ignored, then an optional sign and digits. */
  function ParseInt(s: string): (r: Option<int>)
    ensures r.Some? <==> IsIntLiteral(Strip(s))
  {
    var t := Strip(s);
    if AllDigits(t) then Some(DigitsValue(t))
    else if t != [] && IsSign(t[0]) && AllDigits(t[1..]) then
      var n: int := DigitsValue(t[1..]);
      Some(if t[0] == '-' then -n else n)
    else None
  }

  /** The digits before the '.' of a decimal literal (all of it when there is no '.'). */
  function IntPart(t: string): string {
    t[..CharIndex(t, '.')]
  }

  /** The digits after the first '.' of a decimal literal (none when there is no '.'). */
  function FracPart(t: string): string {
    var k := CharIndex(t, '.');
    if k < |t| then t[k + 1..] else ""
  }

  predicate DigitsOnly(s: string) {
    forall i :: 0 <= i < |s| ==> IsDigit(s[i])
  }

  /** The unsigned text of a decimal float literal: digits, optionally one '.', and at least one digit. */
  predicate IsDecimalBody(t: string) {
    DigitsOnly(IntPart(t)) && DigitsOnly(FracPart(t)) && |IntPart(t)| + |FracPart(t)| >= 1
  }

  function DecimalValue(t: string): real
    requires IsDecimalBody(t)
  {
    var b := FracPart(t);
    (DigitsValue(IntPart(t)) as real) + (DigitsValue(b) as real) / (Pow10(|b|) as real)
  }

  /** The text of a float literal as the model of Python's float() reads it. */
  predicate IsFloatLiteral(t: string) {
    IsDecimalBody(t) || (t != [] && IsSign(t[0]) && IsDecimalBody(t[1..]))
  }

  /** Python's float(s) on decimal literals (exponents, inf and nan are not modelled). */
  function ParseFloat(s: string): (r: Option<real>)
    ensures r.Some? <==> IsFloatLiteral(Strip(s))
  {
    var t := Strip(s);
    if IsDecimalBody(t) then Some(DecimalValue(t))
    else if t != [] && IsSign(t[0]) && IsDecimalBody(t[1..]) then
      var x := DecimalValue(t[1..]);
      Some(if t[0] == '-' then -x else x)
    else None
  }

  /** infer_type: an int if int(s) succeeds, else a float if float(s) succeeds, else s unchanged. */
  function InferType(s: string): (v: Value)
    ensures v.I? <==> ParseInt(s).Some?
    ensures v.I? ==> v.i == ParseInt(s).value
    ensures v.F? <==> ParseInt(s).None? && ParseFloat(s).Some?
    ensures v.F? ==> v.r == ParseFloat(s).value
    ensures v.S? ==> v.s == s && ParseInt(s).None? && ParseFloat(s).None?
  {
    match ParseInt(s)
    case Some(n) => I(n)
    case None =>
      match ParseFloat(s)
      case Some(x) => F(x)
      case None => S(s)
  }

  /** A stripped token that starts with neither a digit, a sign nor a point stays a string. */
  lemma InferTypeWord(s: string)
    requires s != [] && IsStripped(s)
    requires !IsDigit(s[0]) && !IsSign(s[0]) && s[0] != '.'
    ensures InferType(s) == S(s)
  {
    StripStripped(s);
    assert !AllDigits(s);
    assert CharIndex(s, '.') > 0;
    assert !DigitsOnly(IntPart(s)) by {
      assert IntPart(s)[0] == s[0];
    }
  }

  /** _int_or_float: int only for digit strings, everything else through float(), which may fail. */
  function IntOrFloat(s: string): (r: Result<Value>)
    ensures AllDigits(s) ==> r == Ok(I(DigitsValue(s)))
    ensures !AllDigits(s) ==> (r.Ok? <==> ParseFloat(s).Some?)
    ensures !AllDigits(s) && r.Ok? ==> r.value == F(ParseFloat(s).value)
    ensures r.Err? ==> r.error.ValueError?
  {
    if AllDigits(s) then Ok(I(DigitsValue(s)))
    else match ParseFloat(s)
      case Some(x) => Ok(F(x))
      case None => Err(ValueError("could not convert string to float"))
  }

  /** str(v) of an int as Python writes it. */
  function NatToString(n: nat): (s: string)
    ensures AllDigits(s)
    ensures DigitsValue(s) == n
  {
    var d := [(('0' as int) + n % 10) as char];
    if n < 10 then d
    else
      var s := NatToString(n / 10) + d;
      assert s[..|s| - 1] == NatToString(n / 10);
      s
  }

  function IntToString(n: int): string {
    if n < 0 then "-" + NatToString(-n) else NatToString(n)
  }

  /** str(v) for a typed value; the text Python gives a float is the parameter fmt. */
  function Show(v: Value, fmt: real -> string): string {
    match v
    case I(n) => IntToString(n)
    case F(x) => fmt(x)
    case S(s) => s
  }

  /** A value whose printed form is one token that infer_type reads back as the same value. */
  predicate ReadsBack(v: Value, fmt: real -> string) {
    var t := Show(v, fmt);
    t != [] && NoSpace(t) && InferType(t) == v
  }

  lemma AllDigitsNoSpace(s: string)
    requires AllDigits(s)
    ensures NoSpace(s) && IsStripped(s)
  {
  }

  /** Every integer is printed as a single token that infer_type reads back as the same integer. */
  lemma IntReadsBack(n: int, fmt: real -> string)
    ensures ReadsBack(I(n), fmt)
  {
    var t := IntToString(n);
    if n < 0 {
      var u := NatToString(-n);
      AllDigitsNoSpace(u);
      assert t[1..] == u;
      assert !AllDigits(t) by { assert !IsDigit(t[0]); }
      assert NoSpace(t) && IsStripped(t);
      StripStripped(t);
    } else {
      AllDigitsNoSpace(t);
      StripStripped(t);
    }
  }

  /** numpy's conversion of a value stored into a float array; a string cannot be converted. */
  function ToReal(v: Value): (r: Option<real>)
    ensures r.None? <==> v.S?
  {
    match v
    case I(n) => Some(n as real)
    case F(x) => Some(x)
    case S(_) => None
  }
}
