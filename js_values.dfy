/**
 * JavaScript values and the two operators the middleware leans on:
 * truthiness (`if (x)`, `!x`, `a || b`) and template-literal conversion (`${x}`).
 */
module JsValues {

  datatype Option<T> = None | Some(value: T)

  /**
   * A JavaScript value, cut down to what the modelled code inspects. Request fields are taken as
   * single values: the arrays and objects a repeated or bracketed form or query key produces are
   * not represented.
   * Numbers are integers: the code only ever handles ids, counts and limits.
   */
  datatype Value = Undefined | Null | Bool(b: bool) | Num(n: int) | Str(s: string)

  /** ECMAScript ToBoolean: undefined, null, false, 0 and "" are the falsy values. */
  predicate Truthy(v: Value)
  {
    match v
    case Undefined => false
    case Null => false
    case Bool(b) => b
    case Num(n) => n != 0
    case Str(s) => s != ""
  }

  /** The value of the expression `a || b`. */
  function Or(a: Value, b: Value): Value
  {
    if Truthy(a) then a else b
  }

  /** A string-valued operand as a JavaScript value (`undefined` when absent). */
  function FromOption(o: Option<string>): Value
  {
    match o
    case None => Undefined
    case Some(s) => Str(s)
  }

  function DigitChar(d: nat): (c: char)
    requires d < 10
    ensures '0' <= c <= '9' && c as int - '0' as int == d
  {
    ('0' as int + d) as char
  }

  /** Decimal digits of a natural number, most significant first, no leading zero. */
  function NatToDecimal(n: nat): (r: string)
    ensures r != []
    ensures forall k | 0 <= k < |r| :: '0' <= r[k] <= '9'
    ensures |r| > 1 ==> r[0] != '0'
  {
    if n < 10 then [DigitChar(n)] else NatToDecimal(n / 10) + [DigitChar(n % 10)]
  }

  /** ECMAScript ToString, as used by template literals `${v}`. */
  function ToText(v: Value): string
  {
    match v
    case Undefined => "undefined"
    case Null => "null"
    case Bool(b) => if b then "true" else "false"
    case Num(n) => if n < 0 then "-" + NatToDecimal(-n) else NatToDecimal(n)
    case Str(s) => s
  }
}
