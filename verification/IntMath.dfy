/** Facts about products and quotients of natural numbers. */
module IntMath {

  function Min(a: int, b: int): int {
    if a < b then a else b
  }

  /** A product, named so that proofs can treat it as given. */
  function Mul(a: nat, b: nat): nat {
    a * b
  }

  lemma MulNext(n: nat, m: nat)
    ensures Mul(n + 1, m) == Mul(n, m) + m
  {
  }

  lemma MulMonotone(i: nat, j: nat, k: nat)
    requires i <= j
    ensures Mul(i, k) <= Mul(j, k)
  {
  }

  lemma Commute(a: nat, b: nat)
    ensures a * b == b * a
  {
  }

  lemma Spread(d: nat, a: nat, b: nat)
    ensures d * (a + b) == d * a + d * b
  {
  }

  lemma NonNegative(a: nat, b: nat)
    ensures 0 <= a * b
  {
  }

  lemma Ahead(d: nat, a: nat, b: nat)
    requires a < b
    ensures d * a + d <= d * b
  {
    var k := b - a - 1;
    Spread(d, a, 1 + k);
    Spread(d, 1, k);
    NonNegative(d, k);
  }

  /** Quotient and remainder are determined by their bounds. */
  lemma Unique(y: nat, d: nat, x: nat)
    requires 0 < d && d * x <= y < d * x + d
    ensures y / d == x && y % d == y - d * x
  {
    var q := y / d;
    assert y == d * q + y % d;
    if q < x { Ahead(d, q, x); } else if x < q { Ahead(d, x, q); }
  }

  /** Adding less than n to a multiple of n. */
  lemma ModShift(base: nat, k: nat, n: nat)
    requires 0 < n && base % n == 0 && k < n
    ensures (base + k) % n == k
  {
    assert base == n * (base / n);
    Unique(base + k, n, base / n);
  }

  lemma ModFull(base: nat, n: nat)
    requires 0 < n && base % n == 0
    ensures (base + n) % n == 0
  {
    assert base == n * (base / n);
    Spread(n, base / n, 1);
    Unique(base + n, n, base / n + 1);
  }

  /** Filling up to the next multiple. */
  lemma ModFill(size: nat, n: nat)
    requires 0 < n && size % n != 0
    ensures (size + (n - size % n)) % n == 0
  {
    assert size == n * (size / n) + size % n;
    Spread(n, size / n, 1);
    Unique(size + (n - size % n), n, size / n + 1);
  }
}
