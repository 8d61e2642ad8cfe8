/** The two JavaScript `Math` built-ins the scoring engine relies on, over
    exact reals: `Math.max(0, v)` and `Math.round(x)`. */
module JsMath {

  /** `Math.max(0.0, v)`: the larger of zero and `v`. */
  function MaxZero(v: real): (m: real)
    ensures m >= 0.0 && m >= v
    ensures m == 0.0 || m == v
  {
    if v > 0.0 then v else 0.0
  }

  /** `Math.round(x)`: the nearest integer, a tie going up (towards +infinity). */
  function Round(x: real): (n: int)
    ensures x - 0.5 < n as real <= x + 0.5
  {
    (x + 0.5).Floor
  }
}
