/** JavaScript values, thrown errors and the string helpers the game backend relies on.

    The backend is written in JavaScript and validates its arguments at run time
    (`typeof`, `Number.isInteger`, truthiness).  To model those checks the
    arguments are values of `JsValue` rather than already-typed Dafny values. */
module Js {

  /** A JavaScript primitive as it reaches the backend.  `Num` is an
      integer-valued number; `Fraction` is every other number (non-integer,
      NaN or an infinity), carrying the text `String(x)` would produce. */
  datatype JsValue =
    | Undefined
    | Null
    | Bool(b: bool)
    | Num(n: int)
    | Fraction(text: string)
    | Str(s: string)

  /** A JavaScript computation either returns a value or throws an error with a message. */
  datatype Outcome<+T> = Returned(value: T) | Threw(error: string)

  datatype Option<+T> = None | Some(value: T)

  /** `Number.isInteger(v) && v > 0` */
  predicate IsPositiveInteger(v: JsValue) {
    v.Num? && v.n > 0
  }

  /** `!!v && typeof v === 'string'`: a non-empty string. */
  predicate IsNonEmptyString(v: JsValue) {
    v.Str? && v.s != ""
  }

  /** JavaScript truthiness. */
  predicate Truthy(v: JsValue) {
    match v
    case Undefined => false
    case Null => false
    case Bool(b) => b
    case Num(n) => n != 0
    case Fraction(t) => t != "NaN"
    case Str(s) => s != ""
  }

  // ---------------------------------------------------------------------------
  // Decimal text of integers
  // ---------------------------------------------------------------------------

  function DigitChar(d: nat): (c: char)
    requires d < 10
    ensures '0' <= c <= '9'
  {
    "0123456789"[d]
  }

  predicate IsDigit(c: char) {
    '0' <= c <= '9'
  }

  function DigitValue(c: char): (d: nat)
    requires IsDigit(c)
    ensures d < 10
  {
    (c as int) - ('0' as int)
  }

  /** Decimal digits of `n`, most significant first, without leading zeros. */
  function NatToString(n: nat): (s: string)
    ensures |s| > 0
    ensures forall i :: 0 <= i < |s| ==> IsDigit(s[i])
    ensures |s| > 1 ==> s[0] != '0'
  {
    if n < 10 then [DigitChar(n)] else NatToString(n / 10) + [DigitChar(n % 10)]
  }

  /** `String(n)` for an integer-valued number. */
  function IntToString(n: int): string {
    if n < 0 then "-" + NatToString(-n) else NatToString(n)
  }

  /** `obj[key]` on a plain object: a missing key reads as `undefined`. */
  function Field(obj: map<string, JsValue>, key: string): (v: JsValue)
    ensures key !in obj ==> v.Undefined?
  {
    if key in obj then obj[key] else Undefined
  }

  /** Value of a string of decimal digits. */
  function ParseDigits(s: string): nat
    requires forall i :: 0 <= i < |s| ==> IsDigit(s[i])
  {
    if |s| == 0 then 0 else ParseDigits(s[..|s| - 1]) * 10 + DigitValue(s[|s| - 1])
  }

  predicate AllDigits(s: string) {
    |s| > 0 && forall i :: 0 <= i < |s| ==> IsDigit(s[i])
  }

  /** `Number(v)` (the conversion the money tools apply to their argument).
      A string converts when it is empty (to 0) or an optionally signed run
      of decimal digits; any other string gives NaN. */
  function ToNumber(v: JsValue): JsValue {
    match v
    case Undefined => Fraction("NaN")
    case Null => Num(0)
    case Bool(b) => Num(if b then 1 else 0)
    case Num(n) => v
    case Fraction(_) => v
    case Str(s) =>
      if s == "" then Num(0)
      else if AllDigits(s) then Num(ParseDigits(s))
      else if s[0] == '-' && AllDigits(s[1..]) then Num(-(ParseDigits(s[1..]) as int))
      else Fraction("NaN")
  }

  /** `String(v)`, as used by template literals. */
  function ToString(v: JsValue): string {
    match v
    case Undefined => "undefined"
    case Null => "null"
    case Bool(b) => if b then "true" else "false"
    case Num(n) => IntToString(n)
    case Fraction(t) => t
    case Str(s) => s
  }

  lemma {:induction false} ParseNatToString(n: nat)
    ensures ParseDigits(NatToString(n)) == n
  {
    if n >= 10 {
      var s := NatToString(n);
      ParseNatToString(n / 10);
      assert s[..|s| - 1] == NatToString(n / 10);
    }
  }

  /** `Number(String(n))` gives back `n`: the text the tools print for a
      number is read back as the same number. */
  lemma ToNumberOfToString(n: int)
    ensures ToNumber(Str(ToString(Num(n)))) == Num(n)
  {
    if n < 0 {
      NegativeTextReadsBack(-n);
    } else {
      DigitsReadBack(n);
    }
  }

  lemma DigitsReadBack(n: nat)
    ensures ToNumber(Str(NatToString(n))) == Num(n)
  {
    ParseNatToString(n);
  }

  lemma NegativeTextReadsBack(m: nat)
    requires m > 0
    ensures ToNumber(Str("-" + NatToString(m))) == Num(-(m as int))
  {
    var s := "-" + NatToString(m);
    assert s[0] == '-' && !IsDigit(s[0]);
    assert s[1..] == NatToString(m);
    ParseNatToString(m);
  }

  // ---------------------------------------------------------------------------
  // String helpers
  // ---------------------------------------------------------------------------

  /** `s.startsWith(prefix)` */
  predicate StartsWith(s: string, prefix: string) {
    |prefix| <= |s| && s[..|prefix|] == prefix
  }

  /** `toLowerCase` restricted to ASCII letters. */
  function LowerChar(c: char): char {
    if 'A' <= c <= 'Z' then (c as int + 32) as char else c
  }

  function ToLowerAscii(s: string): (r: string)
    ensures |r| == |s|
    ensures forall i :: 0 <= i < |s| ==> r[i] == LowerChar(s[i])
  {
    if |s| == 0 then "" else [LowerChar(s[0])] + ToLowerAscii(s[1..])
  }

  /** `parts.join(sep)` */
  function Join(parts: seq<string>, sep: string): string {
    if |parts| == 0 then ""
    else if |parts| == 1 then parts[0]
    else parts[0] + sep + Join(parts[1..], sep)
  }
}
