/** Laws of real multiplication used by the numeric models. */
module Reals {

  /** Products are named, so that the proofs can treat them as terms and use
      only the laws below. */
  function Mul(x: real, y: real): real { x * y }

  lemma MulAdd(x: real, y: real, z: real)
    ensures Mul(x, y + z) == Mul(x, y) + Mul(x, z)
  {
  }

  lemma MulSub(x: real, y: real, z: real)
    ensures Mul(x, y - z) == Mul(x, y) - Mul(x, z)
  {
  }

  lemma MulComm(x: real, y: real)
    ensures Mul(x, y) == Mul(y, x)
  {
  }

  lemma MulAssoc(x: real, y: real, z: real)
    ensures Mul(Mul(x, y), z) == Mul(x, Mul(y, z))
  {
  }

  lemma MulSign(x: real, y: real)
    ensures x == 0.0 || y == 0.0 ==> Mul(x, y) == 0.0
    ensures (x > 0.0 && y > 0.0) || (x < 0.0 && y < 0.0) ==> Mul(x, y) > 0.0
  {
    var p := x * y;
    assert (x > 0.0 && y > 0.0) || (x < 0.0 && y < 0.0) ==> p > 0.0;
  }

  lemma MulDiv(x: real, y: real)
    requires y != 0.0
    ensures Mul(x / y, y) == x
  {
  }

  lemma MulOrder(x: real, y: real, z: real)
    requires x >= 0.0 && y <= z
    ensures Mul(x, y) <= Mul(x, z)
  {
    hide Mul;
    MulSub(x, z, y);
    MulSign(x, z - y);
  }

  lemma MulOne(x: real)
    ensures Mul(x, 1.0) == x
  {
  }
}
