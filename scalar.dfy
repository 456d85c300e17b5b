/** Real products kept as terms of their own, and the facts about them
    that the matrix and error lemmas use. Writing a product as Mul(x, y)
    lets sums of products be handled as linear combinations; the lemmas
    here unfold Mul where the arithmetic itself matters. */
module Scalar {
  function Mul(x: real, y: real): real {
    x * y
  }

  /** d·d is never negative, and is zero only when d is. */
  function Square(d: real): (r: real)
    ensures r >= 0.0
    ensures r == 0.0 <==> d == 0.0
  {
    ProductSign(d, d);
    d * d
  }

  /** The sign rules Square relies on, for two independent factors. */
  lemma ProductSign(x: real, y: real)
    ensures x == y ==> x * y >= 0.0
    ensures x * y == 0.0 <==> x == 0.0 || y == 0.0
  {
  }

  lemma MulZero(x: real)
    ensures Mul(x, 0.0) == 0.0 && Mul(0.0, x) == 0.0
  {
  }

  lemma MulNegate(x: real, y: real)
    ensures Mul(x, -y) == -Mul(x, y)
  {
  }

  lemma MulCommutes(x: real, y: real)
    ensures Mul(x, y) == Mul(y, x)
  {
  }

  /** k = 1/d is the multiplicative inverse of d. */
  lemma InverseOfDet(d: real, k: real)
    requires d != 0.0 && k == 1.0 / d
    ensures Mul(k, d) == 1.0
  {
  }
}
