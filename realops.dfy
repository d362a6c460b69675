/** The `Math.min` and `Math.max` of the source, over exact reals. */
module RealOps {
  function Min(a: real, b: real): (m: real)
    ensures m <= a && m <= b && (m == a || m == b)
  {
    if a <= b then a else b
  }

  function Max(a: real, b: real): (m: real)
    ensures a <= m && b <= m && (m == a || m == b)
  {
    if a >= b then a else b
  }
}
