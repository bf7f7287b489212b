/** Real-valued helpers for the comparisons and the rounding the tracker performs. */
module Numeric {

  function Abs(x: real): (r: real)
    ensures r >= 0.0
    ensures r == x || r == -x
  {
    if x < 0.0 then -x else x
  }

  function Min(a: real, b: real): (r: real)
    ensures r <= a && r <= b
    ensures r == a || r == b
  {
    if a <= b then a else b
  }

  function Max(a: real, b: real): (r: real)
    ensures r >= a && r >= b
    ensures r == a || r == b
  {
    if a >= b then a else b
  }

  /**
   * Python's `round(x, 1)`, taken on exact reals as rounding to the nearest
   * tenth with halves going up. Every property of the tracker relies only on
   * the bounds below, not on how ties are broken.
   */
  function Round1(x: real): (r: real)
    ensures x - 0.05 < r <= x + 0.05
    ensures x >= 0.0 ==> r >= 0.0
    ensures x == 0.0 ==> r == 0.0
  {
    (x * 10.0 + 0.5).Floor as real / 10.0
  }
}
