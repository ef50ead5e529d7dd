/**
  The JavaScript values the health display inspects, and the few JavaScript
  operations on them it relies on: truthiness (`if (x)`, `a || b`), `typeof x
  === 'number'`, the `Number(x)` conversion and the formatting of a whole
  number inside a template literal.

  Numbers are finite reals: NaN and the infinities are never inputs. NaN only
  appears as the result of `Number(x)`, where it is written `None`.
 */
module JsValues {

  datatype Option<+T> = None | Some(value: T)

  /** A JavaScript value; `Obj` stands for any object, array or function. */
  datatype JsValue = Undefined | Null | Bool(b: bool) | Num(x: real) | Str(s: string) | Obj

  /** ECMAScript ToBoolean: the value makes `if (v)` take its branch. */
  predicate Truthy(v: JsValue)
  {
    match v
    case Undefined => false
    case Null => false
    case Bool(b) => b
    case Num(x) => x != 0.0
    case Str(s) => s != ""
    case Obj => true
  }

  /** `a || b`: the first operand when it is truthy, the second otherwise. */
  function Or(a: JsValue, b: JsValue): (r: JsValue)
    ensures Truthy(a) ==> r == a
    ensures !Truthy(a) ==> r == b
    ensures Truthy(r) <==> Truthy(a) || Truthy(b)
  {
    if Truthy(a) then a else b
  }

  predicate IsDigit(c: char)
  {
    '0' <= c <= '9'
  }

  predicate IsDigits(s: string)
  {
    forall i :: 0 <= i < |s| ==> IsDigit(s[i])
  }

  /** The value of a string of decimal digits, most significant first. */
  function DigitsValue(s: string): nat
    requires IsDigits(s)
    decreases |s|
  {
    if s == [] then 0
    else DigitsValue(s[..|s| - 1]) * 10 + (s[|s| - 1] as int - '0' as int)
  }

  /**
    `Number(v)`; `None` is NaN. Strings are converted only when empty (0) or
    made of decimal digits alone; every other string is read as NaN.
   */
  function ToNumber(v: JsValue): (r: Option<real>)
    ensures v.Num? ==> r == Some(v.x)
    ensures v.Undefined? || v.Obj? ==> r.None?
    ensures v.Str? && IsDigits(v.s) ==> r.Some? && r.value >= 0.0
  {
    match v
    case Undefined => None
    case Null => Some(0.0)
    case Bool(b) => Some(if b then 1.0 else 0.0)
    case Num(x) => Some(x)
    case Str(s) =>
      if s == "" then Some(0.0)
      else if IsDigits(s) then Some(DigitsValue(s) as real)
      else None
    case Obj => None
  }

  /** `Number(v) || d`: NaN and zero are falsy and give way to `d`. */
  function NumberOr(v: JsValue, d: real): (r: real)
    ensures ToNumber(v).Some? && ToNumber(v).value != 0.0 ==> r == ToNumber(v).value
    ensures ToNumber(v).None? || ToNumber(v).value == 0.0 ==> r == d
  {
    match ToNumber(v)
    case Some(n) => if n != 0.0 then n else d
    case None => d
  }

  function DigitChar(d: nat): (c: char)
    requires d < 10
    ensures IsDigit(c) && c as int - '0' as int == d
  {
    ('0' as int + d) as char
  }

  /** The decimal digits of `n` without leading zeros, as JavaScript prints a whole number. */
  function NatToString(n: nat): (r: string)
    ensures 1 <= |r| && IsDigits(r)
    ensures r[0] == '0' ==> n == 0
    ensures n < 10 <==> |r| == 1
  {
    if n < 10 then [DigitChar(n)]
    else NatToString(n / 10) + [DigitChar(n % 10)]
  }

  /** Reading back what `NatToString` wrote gives the number again. */
  lemma {:induction false} NatToStringRoundTrip(n: nat)
    ensures DigitsValue(NatToString(n)) == n
  {
    var r := NatToString(n);
    if n >= 10 {
      NatToStringRoundTrip(n / 10);
      assert r[..|r| - 1] == NatToString(n / 10);
    }
  }

  /** A printed whole number converts back to itself under `Number`. */
  lemma NatToStringNumberRoundTrip(n: nat)
    ensures ToNumber(Str(NatToString(n))) == Some(n as real)
  {
    NatToStringRoundTrip(n);
  }

  /** A non-negative real with no fractional part. */
  predicate IsWhole(x: real)
  {
    x >= 0.0 && x.Floor as real == x
  }

  /**
    2^53: below it every whole number is exactly representable and a template
    literal prints its exact decimal digits. From there on JavaScript prints
    the shortest digits that read back to the same double (2^64 prints as
    18446744073709552000), which is not modelled.
   */
  const EXACT_WHOLE_LIMIT: real := 9007199254740992.0

  /** The text of a whole number below 2^53 in a template literal. */
  function WholeToString(x: real): (r: string)
    requires IsWhole(x) && x < EXACT_WHOLE_LIMIT
    ensures ToNumber(Str(r)) == Some(x)
  {
    NatToStringNumberRoundTrip(x.Floor);
    NatToString(x.Floor)
  }
}
