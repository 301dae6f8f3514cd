/**
 * Rounding of exact reals as Python and NumPy perform it: `math.floor`,
 * `np.ceil`, `x % 1` and the truncating `int(x)`.
 */
module Numbers {

  /** The greatest integer not above `x`. */
  function Floor(x: real): (n: int)
    ensures n as real <= x < n as real + 1.0
  {
    x.Floor
  }

  /** The least integer not below `x` (`np.ceil`). */
  function Ceil(x: real): (n: int)
    ensures n as real - 1.0 < x <= n as real
  {
    -Floor(-x)
  }

  /** `x % 1` on a float: the fractional part, in `[0, 1)`. */
  function Frac(x: real): (f: real)
    ensures 0.0 <= f < 1.0
    ensures (x - f).Floor as real == x - f
  {
    x - Floor(x) as real
  }

  /** Python's `int(x)`: rounds toward zero. */
  function Trunc(x: real): (n: int)
    ensures x >= 0.0 ==> 0 <= n && n as real <= x < n as real + 1.0
    ensures x < 0.0 ==> n <= 0 && n as real - 1.0 < x <= n as real
  {
    if x >= 0.0 then Floor(x) else Ceil(x)
  }
}
