/** JavaScript value coercions used by the request handlers: optional values,
    truthiness of payload fields, `a || b` defaulting, `parseInt`/`Math.round`
    and the truncating remainder operator. */
module Values {

  datatype Option<+T> = None | Some(value: T)

  /** `x ?? d` for a nullable column read with `x || d`, when `d` is the falsy
      value of the type (so a stored falsy value and null give the same result). */
  function OrZero(x: Option<int>): int
  {
    if x.Some? then x.value else 0
  }

  function OrZeroReal(x: Option<real>): real
  {
    if x.Some? then x.value else 0.0
  }

  /** `s || null` for a text field: a missing or empty string is stored as
      null, any other string as itself. */
  function TextOrNull(s: Option<string>): (r: Option<string>)
    ensures r.None? <==> s.None? || s.value == ""
    ensures r.Some? ==> r == s
  {
    if s.Some? && s.value != "" then s else None
  }

  /** A field of a JSON body or query string as the handlers see it:
      missing (`undefined`), a JSON number, or a non-empty string whose
      `parseFloat`/`new Date` reading is `value`. */
  datatype Raw = Absent | Number(value: real) | NumericText(value: real)

  /** JavaScript truthiness: `undefined` and the number 0 are falsy,
      every non-empty string is truthy (so the text "0" is truthy). */
  predicate Truthy(r: Raw)
  {
    match r
    case Absent => false
    case Number(v) => v != 0.0
    case NumericText(_) => true
  }

  /** `a || b`: the left operand when it is truthy, otherwise the right one. */
  function Or(a: Raw, b: Raw): (r: Raw)
    ensures Truthy(a) ==> r == a
    ensures !Truthy(a) ==> r == b
    ensures Truthy(r) <==> Truthy(a) || Truthy(b)
  {
    if Truthy(a) then a else b
  }

  /** Truncation toward zero, as `parseInt` applied to a number and as the
      conversion of a millisecond number to a `Date`. */
  function Trunc(x: real): (r: int)
    ensures x >= 0.0 ==> r as real <= x < r as real + 1.0
    ensures x < 0.0 ==> r as real - 1.0 < x <= r as real
  {
    if x >= 0.0 then x.Floor else -((-x).Floor)
  }

  /** `parseFloat(v)` of a present field. */
  function ParseFloat(r: Raw): real
    requires !r.Absent?
  {
    r.value
  }

  /** `parseInt(v)` of a present field. */
  function ParseInt(r: Raw): int
    requires !r.Absent?
  {
    Trunc(r.value)
  }

  /** `Math.round(x)`: the nearest integer, halves rounded toward +infinity. */
  function Round(x: real): (r: int)
    ensures x - 0.5 < r as real <= x + 0.5
  {
    (x + 0.5).Floor
  }

  /** `Math.round(x * 100) / 100`: rounding to two decimal places. */
  function Round2(x: real): (r: real)
    ensures x - 0.005 < r <= x + 0.005
  {
    Round(x * 100.0) as real / 100.0
  }

  /** JavaScript `a % b` on integers: the remainder takes the sign of the
      dividend (truncated division), unlike Dafny's Euclidean `%`. */
  function JsRem(a: int, b: int): (r: int)
    requires b > 0
    ensures a >= 0 ==> r == a % b
    ensures a < 0 ==> -b < r <= 0
  {
    if a >= 0 then a % b else -((-a) % b)
  }
}
