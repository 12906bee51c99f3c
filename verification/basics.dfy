/** Small shared vocabulary: an optional value and the real-valued
    `Math.max` / `Math.min` the canvas code leans on. */
module Basics {

  /** A value that may be absent: a culled point draws nothing. */
  datatype Option<+T> = None | Some(value: T)

  /** `Math.max` on reals. */
  function Max(a: real, b: real): (r: real)
    ensures r >= a && r >= b
    ensures r == a || r == b
  {
    if a >= b then a else b
  }

  /** `Math.min` on reals. */
  function Min(a: real, b: real): (r: real)
    ensures r <= a && r <= b
    ensures r == a || r == b
  {
    if a <= b then a else b
  }
}
