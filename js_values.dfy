// JavaScript values and built-ins that the backtest code relies on: optional
// fields, the truthiness behind `x || default`, and the `Math` functions it calls.

module JsValues {

  /** A field that may be absent (`undefined` or `null`). */
  datatype Option<T> = None | Some(value: T)

  /** A string field is truthy when it is present and not the empty string. */
  predicate TruthyString(v: Option<string>) {
    v.Some? && v.value != ""
  }

  /** A numeric field is truthy when it is present and not zero (NaN is not modelled). */
  predicate TruthyNumber(v: Option<real>) {
    v.Some? && v.value != 0.0
  }

  /** `v || d` on a string field. */
  function StringOr(v: Option<string>, d: string): (r: string)
    ensures TruthyString(v) ==> r == v.value
    ensures !TruthyString(v) ==> r == d
  {
    if TruthyString(v) then v.value else d
  }

  /** `v || d` on a numeric field. */
  function NumberOr(v: Option<real>, d: real): (r: real)
    ensures TruthyNumber(v) ==> r == v.value
    ensures !TruthyNumber(v) ==> r == d
  {
    if TruthyNumber(v) then v.value else d
  }

  /** `Math.round`: the nearest integer, halves rounded up (towards +infinity). */
  function MathRound(x: real): (n: int)
    ensures x - 0.5 < n as real <= x + 0.5
  {
    (x + 0.5).Floor
  }

  /** `Math.max` of two integers. */
  function MathMax(a: int, b: int): (m: int)
    ensures m >= a && m >= b
    ensures m == a || m == b
  {
    if a >= b then a else b
  }

  /** `Math.abs` of a number. */
  function MathAbs(x: real): (m: real)
    ensures m >= 0.0
    ensures m == x || m == -x
  {
    if x >= 0.0 then x else -x
  }

  /** The whole number of hundredths nearest to `y`, a tie rounded up. */
  function Hundredths(y: real): (n: int)
    ensures y * 100.0 - 0.5 < n as real <= y * 100.0 + 0.5
  {
    (y * 100.0 + 0.5).Floor
  }

  /**
    * `Number(x.toFixed(2))`: `x` rounded to hundredths, a tie going to the
    * larger magnitude (toFixed rounds the magnitude and then restores the sign).
    */
  function ToFixed2(x: real): (r: real)
    ensures x >= 0.0 ==> -0.005 < r - x <= 0.005
    ensures x < 0.0 ==> -0.005 <= r - x < 0.005
    ensures r * 100.0 == (r * 100.0).Floor as real
    ensures x >= 0.0 ==> r >= 0.0
    ensures x <= 0.0 ==> r <= 0.0
  {
    var n := if x >= 0.0 then Hundredths(x) else -Hundredths(-x);
    assert n as real / 100.0 * 100.0 == n as real;
    n as real / 100.0
  }
}
