/** Facts about Euclidean remainder that the ring and round-robin proofs rely on. */
module ModArith {

  /** A product of a positive factor with a positive modulus is at least the modulus. */
  lemma MulAtLeast(d: int, n: int)
    requires d >= 1 && n >= 1
    ensures d * n >= n
  {
    assert d * n == (d - 1) * n + n;
  }

  /** Quotient and remainder are determined by any decomposition with a remainder in range. */
  lemma Unique(y: int, q: int, r: int, n: int)
    requires n >= 1 && 0 <= r < n
    requires y == q * n + r
    ensures y % n == r && y / n == q
  {
    var q', r' := y / n, y % n;
    assert y == q' * n + r';
    assert (q - q') * n == r' - r;
    if q - q' >= 1 {
      MulAtLeast(q - q', n);
    } else if q' - q >= 1 {
      MulAtLeast(q' - q, n);
    }
  }

  /** Adding the modulus does not change the remainder. */
  lemma Period(a: int, n: int)
    requires n >= 1
    ensures (a + n) % n == a % n
  {
    var q, r := a / n, a % n;
    assert a == q * n + r;
    assert a + n == (q + 1) * n + r;
    Unique(a + n, q + 1, r, n);
  }

  /** Reducing the left summand first gives the same remainder. */
  lemma ReduceLeft(a: int, m: int, n: int)
    requires n >= 1
    ensures (a % n + m) % n == (a + m) % n
  {
    var q, r := a / n, a % n;
    assert a == q * n + r;
    var q2, r2 := (r + m) / n, (r + m) % n;
    assert r + m == q2 * n + r2;
    assert a + m == (q + q2) * n + r2;
    Unique(a + m, q + q2, r2, n);
  }

  /** Two positions fewer than `n` steps apart land on different residues. */
  lemma Distinct(a: int, b: int, n: int)
    requires n >= 1
    requires a < b < a + n
    ensures a % n != b % n
  {
    var q, r := a / n, a % n;
    assert a == q * n + r;
    if r + (b - a) < n {
      Unique(b, q, r + (b - a), n);
    } else {
      assert b == (q + 1) * n + (r + (b - a) - n);
      Unique(b, q + 1, r + (b - a) - n, n);
    }
  }
}
