/** Multiples and remainders, for the solver's sake in one place. */
module Arith {

  lemma {:induction false} Multiple(k: int, p: nat)
    requires k >= 1
    ensures k * p >= p
  {
    assert (k - 1) * p >= 0;
  }

  lemma {:induction false} DivMod(q: nat, r: nat, p: nat)
    requires r < p
    ensures (q * p + r) % p == r && (q * p + r) / p == q
  {
    var x := q * p + r;
    var d, e := x / p, x % p;
    assert x == d * p + e;
    assert (q - d) * p == e - r;
    if q > d {
      Multiple(q - d, p);
    } else if q < d {
      assert (d - q) * p == r - e;
      Multiple(d - q, p);
    }
  }

  lemma {:induction false} MultipleBelow(i: nat, n: nat, p: nat)
    requires i < n
    ensures i * p + p <= n * p
  {
    assert (n - i - 1) * p >= 0;
    assert n * p == i * p + p + (n - i - 1) * p;
  }

  /** x/p and x%p put x together again, and a quotient below n means x below n*p. */
  lemma {:induction false} Split(x: nat, p: nat, n: nat)
    requires p > 0
    ensures x == (x / p) * p + x % p
    ensures x < n * p ==> x / p < n
  {
    if n <= x / p {
      MultipleBelow(n, x / p + 1, p);
    }
  }
}
