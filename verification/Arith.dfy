/** Small arithmetic: division facts the solver does not find by itself, minimum, maximum. */
module Arith {
  /** A quotient is determined by its remainder's range. */
  lemma {:induction false} DivUnique(n: int, d: nat, q: int, r: int)
    requires 0 <= r < d && n == d * q + r
    ensures n / d == q && n % d == r
  {
    var q', r' := n / d, n % d;
    assert n == d * q' + r';
    assert d * (q - q') == d * q - d * q';
    SmallMultiple(d, q - q');
  }

  lemma {:induction false} SmallMultiple(d: nat, k: int)
    requires 0 < d + d * k && d * k < d
    ensures k == 0
  {
    if k >= 1 {
      MulAtLeast(d, k);
    } else if k <= -1 {
      MulAtLeast(d, -k);
    }
  }

  lemma {:induction false} MulAtLeast(d: nat, k: int)
    requires 1 <= k
    ensures d <= d * k
  {
  }

  lemma {:induction false} DivStep(n: int, d: nat)
    requires 0 < d
    ensures (n - d) / d == n / d - 1
    ensures (n + d) / d == n / d + 1
  {
    var q, r := n / d, n % d;
    assert d * (q - 1) == d * q - d && d * (q + 1) == d * q + d;
    DivUnique(n - d, d, q - 1, r);
    DivUnique(n + d, d, q + 1, r);
  }

  lemma {:induction false} MulMonotone(a: int, b: int, d: nat)
    requires a <= b
    ensures a * d <= b * d
  {
  }

  /** `k * d <= x` exactly when `k` is at most the quotient. */
  lemma {:induction false} QuotientBound(x: int, d: nat, k: int)
    requires 0 < d
    ensures k * d <= x <==> k <= x / d
  {
    var q := x / d;
    assert x == q * d + x % d;
    if k <= q {
      MulMonotone(k, q, d);
    } else {
      MulMonotone(q + 1, k, d);
      assert (q + 1) * d == q * d + d;
    }
  }

  function MinInt(a: int, b: int): int {
    if a < b then a else b
  }

  function MaxInt(a: int, b: int): int {
    if a < b then b else a
  }

  function MinReal(a: real, b: real): real {
    if a < b then a else b
  }

  function MaxReal(a: real, b: real): real {
    if a < b then b else a
  }
}
