/** The few JavaScript `Math` functions the page's animation code relies on,
    over Dafny's unbounded reals (NaN, infinities and -0 do not arise here). */
module JsMath {

  datatype Option<+T> = None | Some(value: T)

  /** Math.abs */
  function Abs(x: real): (r: real)
    ensures r >= 0.0 && (r == x || r == -x)
  {
    if x < 0.0 then -x else x
  }

  /** Math.min of two numbers */
  function Min(a: real, b: real): (r: real)
    ensures r <= a && r <= b && (r == a || r == b)
  {
    if a <= b then a else b
  }

  /** Math.max of two numbers */
  function Max(a: real, b: real): (r: real)
    ensures a <= r && b <= r && (r == a || r == b)
  {
    if a <= b then b else a
  }

  /** Math.sign: the unit number pointing the same way as `x`, or 0. */
  function Sign(x: real): (r: real)
    ensures r * x == Abs(x)
    ensures -1.0 <= r <= 1.0
    ensures r == 0.0 <==> x == 0.0
  {
    if x > 0.0 then 1.0 else if x < 0.0 then -1.0 else 0.0
  }

  /** Math.round: the nearest integer, halves rounded towards +infinity. */
  function Round(x: real): (n: int)
    ensures x - 0.5 < n as real <= x + 0.5
  {
    (x + 0.5).Floor
  }

  /** b to the power n */
  function Pow(b: real, n: nat): (r: real)
  {
    if n == 0 then 1.0 else b * Pow(b, n - 1)
  }
}
