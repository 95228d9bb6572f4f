/**
 * JavaScript values as the normalisers receive them from the remote
 * extraction services (parsed JSON plus `undefined`), with the language's
 * truthiness, `||`, `??`, optional property access and the `String()` and
 * `Number()` coercions the source applies to them.
 */
module Js {
  import opened Text

  /** An IEEE double seen as an exact real, NaN or an infinity. */
  datatype Num = Finite(r: real) | NaN | Infinity(positive: bool)

  datatype JsValue =
    | Undefined
    | Null
    | Bool(b: bool)
    | Number(n: Num)
    | Str(s: string)
    | Arr(items: seq<JsValue>)
    | Obj(fields: map<string, JsValue>)

  predicate Truthy(v: JsValue) {
    match v
    case Undefined => false
    case Null => false
    case Bool(b) => b
    case Number(n) => n.Infinity? || (n.Finite? && n.r != 0.0)
    case Str(s) => s != ""
    case Arr(_) => true
    case Obj(_) => true
  }

  predicate Nullish(v: JsValue) {
    v.Undefined? || v.Null?
  }

  /** `a || b` */
  function Or(a: JsValue, b: JsValue): JsValue {
    if Truthy(a) then a else b
  }

  /** `a ?? b` */
  function Coalesce(a: JsValue, b: JsValue): JsValue {
    if Nullish(a) then b else a
  }

  /** `v?.key`: a missing property, or a property read on a non-object, is `undefined`. */
  function Get(v: JsValue, key: string): JsValue {
    if v.Obj? && key in v.fields then v.fields[key] else Undefined
  }

  /** `key in v` for an object. */
  predicate Has(v: JsValue, key: string) {
    v.Obj? && key in v.fields
  }

  /** `v?.[i]`: array element, string character, or the object property named by `i`. */
  function At(v: JsValue, i: nat): JsValue {
    match v
    case Arr(items) => if i < |items| then items[i] else Undefined
    case Str(s) => if i < |s| then Str([s[i]]) else Undefined
    case Obj(_) => Get(v, NatToStr(i))
    case _ => Undefined
  }

  function DigitChar(d: nat): (c: char)
    requires d < 10
    ensures '0' <= c <= '9'
  {
    ('0' as int + d) as char
  }

  function DigitValue(c: char): (d: nat)
    requires '0' <= c <= '9'
    ensures d < 10
  {
    (c as int - '0' as int)
  }

  predicate IsDigit(c: char) { '0' <= c <= '9' }

  predicate AllDigits(s: string) {
    forall i :: 0 <= i < |s| ==> IsDigit(s[i])
  }

  /** Decimal rendering of a natural number. */
  function NatToStr(n: nat): (s: string)
    ensures |s| > 0 && AllDigits(s)
  {
    if n < 10 then [DigitChar(n)] else NatToStr(n / 10) + [DigitChar(n % 10)]
  }

  /** Value of a string of decimal digits. */
  function DigitsValue(s: string): nat
    requires AllDigits(s)
  {
    if s == [] then 0 else DigitsValue(s[..|s| - 1]) * 10 + DigitValue(s[|s| - 1])
  }

  lemma {:induction false} NatToStrValue(n: nat)
    ensures DigitsValue(NatToStr(n)) == n
  {
    if n >= 10 {
      NatToStrValue(n / 10);
      var s := NatToStr(n / 10) + [DigitChar(n % 10)];
      assert s[..|s| - 1] == NatToStr(n / 10);
    }
  }

  /** Value of the digits after a decimal point. */
  function FracValue(s: string): real
    requires AllDigits(s)
  {
    if s == [] then 0.0 else (DigitValue(s[0]) as real + FracValue(s[1..])) / 10.0
  }

  /** Up to `fuel` digits of the fraction `f` in [0, 1), stopping once it is exhausted. */
  function FracDigits(f: real, fuel: nat): (s: string)
    requires 0.0 <= f < 1.0
    ensures AllDigits(s)
    decreases fuel
  {
    if fuel == 0 || f == 0.0 then ""
    else
      var d := (f * 10.0).Floor;
      [DigitChar(d)] + FracDigits(f * 10.0 - d as real, fuel - 1)
  }

  function DropTrailingZeros(s: string): (r: string)
    ensures AllDigits(s) ==> AllDigits(r)
  {
    if s != [] && s[|s| - 1] == '0' then DropTrailingZeros(s[..|s| - 1]) else s
  }

  /**
   * `String(n)` for a number: integers print exactly; a fraction prints its
   * decimal expansion, cut after 20 digits.
   */
  function NumToStr(n: Num): string {
    match n
    case NaN => "NaN"
    case Infinity(pos) => if pos then "Infinity" else "-Infinity"
    case Finite(r) =>
      var sign := if r < 0.0 then "-" else "";
      var a := if r < 0.0 then -r else r;
      var whole := a.Floor;
      var frac := a - whole as real;
      if frac == 0.0 then sign + NatToStr(whole)
      else sign + NatToStr(whole) + "." + DropTrailingZeros(FracDigits(frac, 20))
  }

  /** `String(v)` */
  function ToStr(v: JsValue): string {
    match v
    case Undefined => "undefined"
    case Null => "null"
    case Bool(b) => if b then "true" else "false"
    case Number(n) => NumToStr(n)
    case Str(s) => s
    case Arr(items) =>
      Join(seq(|items|, i requires 0 <= i < |items| =>
        if Nullish(items[i]) then "" else ToStr(items[i])), ",")
    case Obj(_) => "[object Object]"
  }

  /** The decimal literal `digits [ "." digits ]` (at least one digit) without a sign. */
  function ParseUnsignedDecimal(t: string): Num {
    if t == "Infinity" then Infinity(true)
    else if AllDigits(t) then
      (if t == "" then NaN else Finite(DigitsValue(t) as real))
    else if '.' in t then
      var i := IndexOfChar(t, '.');
      var whole, frac := t[..i], t[i + 1..];
      if AllDigits(whole) && AllDigits(frac) && (whole != "" || frac != "")
      then Finite(DigitsValue(whole) as real + FracValue(frac))
      else NaN
    else NaN
  }

  /** `Number(s)` for a string: blank is 0, otherwise an optionally signed decimal literal. */
  function ParseNumber(s: string): Num {
    var t := Trim(s);
    if t == "" then Finite(0.0)
    else if t[0] == '-' then
      match ParseUnsignedDecimal(t[1..])
      case Finite(r) => Finite(-r)
      case Infinity(_) => Infinity(false)
      case NaN => NaN
    else if t[0] == '+' then ParseUnsignedDecimal(t[1..])
    else ParseUnsignedDecimal(t)
  }

  /** `Number(v)` */
  function ToNumber(v: JsValue): Num {
    match v
    case Undefined => NaN
    case Null => Finite(0.0)
    case Bool(b) => Finite(if b then 1.0 else 0.0)
    case Number(n) => n
    case Str(s) => ParseNumber(s)
    case Arr(_) => ParseNumber(ToStr(v))
    case Obj(_) => NaN
  }

  /** Decimal literals read back the integers they print. */
  lemma ParseNatToStr(n: nat)
    ensures ParseNumber(NatToStr(n)) == Finite(n as real)
  {
    var s := NatToStr(n);
    NatToStrValue(n);
    assert IsDigit(s[0]) && IsDigit(s[|s| - 1]);
    TrimNoSpace(s);
    assert s != "Infinity" by { assert IsDigit(s[0]); }
    assert ParseUnsignedDecimal(s) == Finite(n as real);
  }
}
