/** Java's integer operators where they differ from Dafny's. */
module JavaMath {

  /** `a / b` on Java `int`/`long` for a positive divisor: the quotient
      truncated towards zero. The quotient is the multiple of `b` nearest
      `a` on the side of zero, and its sign follows `a`. */
  function JavaDiv(a: int, b: int): (q: int)
    requires b > 0
    ensures a >= 0 ==> 0 <= q && q * b <= a < q * b + b
    ensures a < 0 ==> q <= 0 && q * b - b < a <= q * b
  {
    if a >= 0 then a / b else -((-a) / b)
  }

  /** For a negative dividend Java truncates where Dafny's Euclidean `/`
      floors: -150 / 100 is -1 in Java and -2 in Dafny. */
  lemma JavaDivTruncates()
    ensures JavaDiv(-150, 100) == -1
    ensures -150 / 100 == -2
  {
  }

  function Max(a: int, b: int): (m: int)
    ensures m >= a && m >= b && (m == a || m == b)
  {
    if a >= b then a else b
  }
}
