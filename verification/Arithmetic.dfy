/** The few nonlinear facts the scheduling proofs rest on. */
module Arithmetic {

  lemma MulPositive(x: int, y: int)
    requires x > 0 && y > 0
    ensures x * y >= x && x * y >= y
  {
  }

  lemma MulMonotone(x: int, y: int, z: int)
    requires x <= y && z >= 0
    ensures x * z <= y * z
  {
    assert (y - x) * z >= 0;
  }

  lemma MulAssoc(x: int, y: int, z: int)
    ensures x * (y * z) == (x * y) * z == y * (x * z)
  {
  }

  lemma CancelFactor(x: int, y: int, g: int)
    requires g > 0 && x * g == y * g
    ensures x == y
  {
    if x < y {
      MulPositive(y - x, g);
      assert false;
    } else if y < x {
      MulPositive(x - y, g);
      assert false;
    }
  }

  lemma MulSymmetric(x: int, y: int)
    ensures x * y == y * x
  {
  }

  lemma MulNext(q: int, k: int)
    ensures (q + 1) * k == q * k + k
  {
  }

  lemma MulMinus(q: int, n: int, c: int)
    ensures q * (n - c) == q * n - q * c
  {
  }

  lemma SmallMod(a: int, n: int)
    requires 0 <= a < n
    ensures a % n == a
  {
  }

  lemma DivisionUnique(n: int, d: int, q: int, r: int)
    requires d > 0 && 0 <= r < d && n == q * d + r
    ensures n / d == q && n % d == r
  {
    var p := n / d;
    assert (p - q) * d == r - n % d;
    if p > q {
      MulPositive(p - q, d);
      assert false;
    } else if p < q {
      MulPositive(q - p, d);
      assert false;
    }
  }

  lemma ModShift(a: int, n: int)
    requires n > 0
    ensures (a + n) % n == a % n
  {
    DivisionUnique(a + n, n, a / n + 1, a % n);
  }

  /** Reducing one summand first does not change a remainder. */
  lemma ModAdd(a: int, b: int, n: int)
    requires n > 0
    ensures (a % n + b) % n == (a + b) % n
  {
    var q := (a % n + b) / n;
    assert (q + a / n) * n == q * n + (a / n) * n;
    DivisionUnique(a + b, n, q + a / n, (a % n + b) % n);
  }

  /** ceil(a / b). */
  function CeilDiv(a: nat, b: nat): nat
    requires b > 0
  {
    (a + b - 1) / b
  }

  lemma CeilDivBounds(a: nat, b: nat)
    requires b > 0
    ensures CeilDiv(a, b) * b >= a
    ensures a > 0 ==> CeilDiv(a, b) >= 1 && (CeilDiv(a, b) - 1) * b < a
  {
    var q := CeilDiv(a, b);
    assert (q - 1) * b == q * b - b;
    if a > 0 && q < 1 {
      assert false;
    }
  }
}
