/** Facts about products and quotients the solver does not find on its own. */
module Arithmetic {
  lemma ProductsSpread(a: nat, b: nat, d: nat)
    ensures a < b ==> a * d + d <= b * d
    ensures a <= b ==> a * d <= b * d
  {
    if a < b {
      assert (a + 1) * d <= b * d;
    }
  }

  lemma DivisionUnique(q: nat, d: nat, r: nat)
    requires r < d
    ensures (q * d + r) / d == q && (q * d + r) % d == r
  {
    var x := q * d + r;
    ProductsSpread(x / d, q, d);
    ProductsSpread(q, x / d, d);
    assert x == x / d * d + x % d;
  }

  lemma DivisionMonotone(a: nat, b: nat, d: nat)
    requires d > 0 && a <= b
    ensures a / d <= b / d
  {
    assert a == a / d * d + a % d && b == b / d * d + b % d;
    ProductsSpread(b / d, a / d, d);
  }

  /** `x % n` */
  function Wrapped(x: nat, n: nat): (r: nat)
    requires n > 0
    ensures r < n && r <= x
  {
    RemainderBounds(x, n);
    x % n
  }

  lemma RemainderBounds(x: nat, n: nat)
    requires n > 0
    ensures 0 <= x % n < n && x % n <= x
  {
    assert x == x / n * n + x % n;
    assert x / n >= 0 && x / n * n >= 0;
  }

  lemma WrappedOnce(x: nat, n: nat)
    requires 0 < n && x < 2 * n
    ensures Wrapped(x, n) == if x < n then x else x - n
  {
    if x < n {
      DivisionUnique(0, n, x);
    } else {
      DivisionUnique(1, n, x - n);
    }
  }
}
