/** Facts about Euclidean division and remainder used by the machine proofs. */
module Arith {
  /** Euclidean division is unique: x = q * n + r with 0 <= r < n fixes both. */
  lemma ModUnique(x: int, n: int, q: int, r: int)
    requires n > 0 && 0 <= r < n && x == q * n + r
    ensures x % n == r && x / n == q
  {
    var d := q - x / n;
    assert x == x / n * n + x % n;
    assert d * n == x % n - r;
    SmallMultiple(d, n);
  }

  /**
   * A value already below the modulus is its own remainder; named so that
   * callers state which `%` term to simplify instead of leaving the search to
   * the solver.
   */
  lemma SmallModulo(x: int, n: int)
    requires 0 <= x < n
    ensures x % n == x
  {
  }

  /** The product of two values below n is below n * n. */
  lemma ProductBelow(a: int, b: int, n: int)
    requires 0 <= a < n && 0 <= b < n
    ensures 0 <= a * b < n * n
  {
    assert a * b <= a * n;
    assert a * n < n * n;
  }

  lemma SmallMultiple(d: int, n: int)
    requires n > 0 && -n < d * n < n
    ensures d == 0
  {
  }

  /** a - b is a multiple of n exactly when a and b agree modulo n. */
  lemma DifferenceModulo(a: int, b: int, n: int)
    requires n > 0
    ensures (a - b) % n == 0 <==> a % n == b % n
  {
    var qa, ra := a / n, a % n;
    var qb, rb := b / n, b % n;
    assert a == qa * n + ra && b == qb * n + rb;
    if ra >= rb {
      assert a - b == (qa - qb) * n + (ra - rb);
      ModUnique(a - b, n, qa - qb, ra - rb);
    } else {
      assert a - b == (qa - qb - 1) * n + (ra - rb + n);
      ModUnique(a - b, n, qa - qb - 1, ra - rb + n);
    }
  }

  /** Taking one modulus away does not change the remainder. */
  lemma SubtractModulus(x: int, n: int)
    requires n > 0
    ensures (x - n) % n == x % n
  {
    assert x == x / n * n + x % n;
    assert x - n == (x / n - 1) * n + x % n;
    ModUnique(x - n, n, x / n - 1, x % n);
  }
}
