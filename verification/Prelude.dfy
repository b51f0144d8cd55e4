/** A value that may be absent. */
module Prelude {
  datatype Option<+T> = None | Some(value: T)
}

/** Quotients and remainders by a positive number. */
module Arithmetic {
  lemma MulMono(a: int, b: int, p: nat)
    ensures a <= b ==> a * p <= b * p
  {
  }

  lemma DivideOut(a: int, p: nat, r: nat)
    requires r < p
    ensures (a * p + r) / p == a && (a * p + r) % p == r
  {
    var q := (a * p + r) / p;
    assert q * p <= a * p + r < q * p + p;
    MulMono(q + 1, a, p);
    MulMono(a + 1, q, p);
  }

  lemma DivideMultiple(n: int, p: nat, k: int)
    requires p > 0
    ensures (n + p * k) / p == n / p + k
  {
    assert n == n / p * p + n % p;
    assert n + p * k == (n / p + k) * p + n % p;
    DivideOut(n / p + k, p, n % p);
  }

  lemma SameResidue(n: int, m: nat, k: int)
    requires m > 0
    ensures (n + m * k) % m == n % m
  {
    DivideMultiple(n, m, k);
    assert n + m * k == (n + m * k) / m * m + (n + m * k) % m;
    assert (n / m + k) * m == n / m * m + m * k;
  }
}
