/** Products and quotients of reals, kept apart from the facts they are used for. */
module Reals {
  lemma Divided(x: real, y: real) returns (q: real)
    requires y > 0.0 && x >= 0.0
    ensures q == x / y && q * y == x && q >= 0.0
  {
    q := x / y;
    assert q * y == x;
    if q < 0.0 { MulNegative(q, y); }
  }

  lemma MulNonNegative(x: real, y: real)
    requires x >= 0.0 && y >= 0.0
    ensures x * y >= 0.0
  {
  }

  lemma MulNegative(x: real, y: real)
    requires x < 0.0 && y > 0.0
    ensures x * y < 0.0
  {
  }

  lemma MulMonotone(x: real, y: real, z: real)
    requires x <= y && z >= 0.0
    ensures x * z <= y * z
  {
    MulNonNegative(y - x, z);
  }

  lemma MulStrictly(x: real, y: real, z: real)
    requires x < y && z > 0.0
    ensures x * z < y * z
  {
    MulNegative(x - y, z);
  }

  lemma MulThree(x: real, y: real, z: real)
    ensures x * y * z == x * (y * z)
  {
  }

  lemma Commute(x: real, y: real)
    ensures x * y == y * x
  {
  }

  lemma SameSign(x: real, y: real, product: real)
    requires y > 0.0 && product == x * y
    ensures x <= 0.0 <==> product <= 0.0
  {
    if x <= 0.0 { MulMonotone(x, 0.0, y); } else { MulStrictly(0.0, x, y); }
  }
}
