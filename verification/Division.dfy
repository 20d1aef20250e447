/** Facts of multiplication and division that the solver needs spelled out. */
module Division {

  lemma OneMore(n: int, size: int)
    ensures (n + 1) * size == n * size + size
    ensures size * (n + 1) == size * n + size
  {
  }

  lemma SumTimes(a: int, b: int, sum: int, n: int)
    requires sum == a + b
    ensures sum * n == a * n + b * n
  {
  }

  lemma {:induction false} AtLeastOnce(p: int, x: int)
    requires p > 0 && x > 0
    ensures p * x >= p
    decreases x
  {
    if x > 1 {
      AtLeastOnce(p, x - 1);
      assert p * x == p * (x - 1) + p;
    }
  }

  lemma Negated(p: int, x: int)
    ensures p * -x == -(p * x)
  {
  }

  lemma DivisionUnique(n: int, p: int, q: int, r: int)
    requires p > 0 && n == p * q + r && 0 <= r < p
    ensures n % p == r && n / p == q
  {
    var d := q - n / p;
    assert n == p * (n / p) + n % p;
    assert p * d == p * q - p * (n / p);
    if d > 0 {
      AtLeastOnce(p, d);
    }
    if d < 0 {
      AtLeastOnce(p, -d);
      Negated(p, d);
    }
  }

  lemma Congruent(n: int, p: int, k: int)
    requires p > 0
    ensures (n + p * k) % p == n % p
  {
    var q, r := n / p, n % p;
    assert n == p * q + r;
    assert n + p * k == p * (q + k) + r;
    DivisionUnique(n + p * k, p, q + k, r);
  }

  /** A positive number of whole blocks leaves room for one block, and whole blocks after it. */
  lemma BlockStep(n: int, p: int)
    requires p > 0 && n >= 0
    ensures n < p ==> n % p == n
    ensures n >= p ==> n % p == (n - p) % p
  {
    if n < p {
      DivisionUnique(n, p, 0, n);
    } else {
      assert p * -1 == -p;
      Congruent(n, p, -1);
    }
  }

  lemma WholeBlocks(k: int, p: int)
    requires p > 0
    ensures (p * k) % p == 0
  {
    DivisionUnique(p * k, p, k, 0);
  }

  lemma {:induction false} ProductGrows(p: int, x: int, y: int)
    requires p >= 0 && x <= y
    ensures p * x <= p * y
    decreases y - x
  {
    if x < y {
      ProductGrows(p, x, y - 1);
      assert p * y == p * (y - 1) + p;
    }
  }
}
