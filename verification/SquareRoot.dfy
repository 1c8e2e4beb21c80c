/** Newton's integer square root. */
module SquareRoot {
  import opened Primitives

  /** One Newton step from above: `(x + n / x) / 2`. */
  function Improved(x: nat, n: nat): nat
    requires x > 0
  {
    (x + n / x) / 2
  }

  /** The mean of a factor and a cofactor is at least their geometric mean. */
  lemma MeanBound(a: nat, b: nat, y: nat)
    requires 2 * y + 2 >= a + b
    ensures (y + 1) * (y + 1) >= a * b
  {
    var s, d := a + b, a - b;
    assert s * s == 4 * (a * b) + d * d && d * d >= 0;
    assert (2 * y + 2) * (2 * y + 2) >= s * s;
    assert (2 * y + 2) * (2 * y + 2) == 4 * ((y + 1) * (y + 1));
  }

  lemma QuotientBounds(n: nat, x: nat)
    requires x > 0
    ensures x * (n / x) <= n < x * (n / x + 1)
  {
    assert n == n / x * x + n % x;
  }

  /** A step never falls below the root. */
  lemma StepStaysAbove(x: nat, n: nat)
    requires x > 0
    ensures n < (Improved(x, n) + 1) * (Improved(x, n) + 1)
  {
    QuotientBounds(n, x);
    MeanBound(x, n / x + 1, Improved(x, n));
  }

  /** Where steps stop improving, the value is no larger than the root. */
  lemma FixedPointIsBelow(x: nat, n: nat)
    requires x > 0 && Improved(x, n) >= x
    ensures x * x <= n
  {
    QuotientBounds(n, x);
    assert n / x >= x;
    assert x * (n / x) >= x * x;
  }

  lemma StepStaysPositive(x: nat, n: nat)
    requires 0 < x <= n
    ensures 0 < Improved(x, n) <= n
  {
    QuotientRange(n, x);
  }

  lemma QuotientRange(n: nat, x: nat)
    requires 0 < x <= n
    ensures 1 <= n / x <= n
  {
    QuotientBounds(n, x);
    Multiples(x, n / x);
  }

  lemma Multiples(x: nat, q: nat)
    requires x > 0
    ensures q <= x * q && (q == 0 ==> x * (q + 1) == x)
  {
  }

  /** The largest `x` with `x * x <= n`, for every 64-bit `n`. */
  method IntegerSquareRoot(n: U64) returns (x: U64)
    ensures x * x <= n < (x + 1) * (x + 1)
  {
    hide Improved;
    if n == U64_MAX {
      return 0xFFFF_FFFF;
    }
    x := n;
    var y: U64 := (n + 1) / 2;
    if n > 0 {
      FirstStep(n);
    }
    while y < x
      invariant n == 0 ==> x == y == 0
      invariant n > 0 ==> 0 < x <= n && y == Improved(x, n)
      invariant n < (x + 1) * (x + 1)
      decreases x
    {
      StepStaysAbove(x, n);
      StepStaysPositive(x, n);
      x := y;
      StepStaysPositive(x, n);
      y := Midpoint(x, n);
    }
    if n > 0 {
      FixedPointIsBelow(x, n);
    }
  }

  /** `x.midpoint(n / x)`, which cannot overflow. */
  function Midpoint(x: nat, n: U64): (y: U64)
    requires 0 < x <= n
    ensures y == Improved(x, n)
  {
    StepStaysPositive(x, n);
    (x + n / x) / 2
  }

  lemma FirstStep(n: nat)
    requires n > 0
    ensures (n + 1) / 2 == Improved(n, n) && n < (n + 1) * (n + 1)
  {
    assert n / n == 1;
  }
}
