/** The few facts about products and quotients that the contracts' arithmetic needs. */
module Arithmetic {
  lemma MulNonNegative(x: int, y: int)
    requires 0 <= x && 0 <= y
    ensures 0 <= x * y
  {
  }

  lemma MulMonotone(x: int, y: int, z: int)
    requires x <= y && 0 <= z
    ensures x * z <= y * z
  {
    MulNonNegative(y - x, z);
    assert (y - x) * z == y * z - x * z;
  }

  lemma DivMod(a: int, b: int)
    requires b > 0
    ensures a == (a / b) * b + a % b && 0 <= a % b < b
  {
  }

  lemma DivUnique(a: int, b: int, q: int, r: int)
    requires b > 0 && a == q * b + r && 0 <= r < b
    ensures a / b == q && a % b == r
  {
    DivMod(a, b);
    var p := a / b;
    assert (p + 1) * b == p * b + b && (q + 1) * b == q * b + b;
    if p < q {
      MulMonotone(p + 1, q, b);
    } else if q < p {
      MulMonotone(q + 1, p, b);
    }
  }

  lemma DivNonNegative(a: int, b: int)
    requires 0 <= a && 0 < b
    ensures 0 <= a / b
  {
    DivMod(a, b);
    if a / b < 0 {
      MulMonotone(a / b, -1, b);
    }
  }

  lemma DivAtMost(a: int, b: int)
    requires 0 <= a && 0 < b
    ensures 0 <= a / b <= a
  {
    DivMod(a, b);
    DivNonNegative(a, b);
    MulMonotone(1, b, a / b);
  }
}
