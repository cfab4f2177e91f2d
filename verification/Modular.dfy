/** Arithmetic of ring indices: positions counted without bound, stored modulo n. */
module Modular {

  lemma MultipleSpread(n: nat, d: int)
    requires 0 < n
    ensures d >= 1 ==> n * d >= n
    ensures d <= -1 ==> n * d + n <= 0
  {
  }

  /** Within a window of n consecutive positions the stored index is unique. */
  lemma SameIndex(a: nat, b: nat, n: nat)
    requires 0 < n && a <= b < a + n
    ensures a % n == b % n <==> a == b
  {
    if a % n == b % n {
      var qa, qb := a / n, b / n;
      assert a == n * qa + a % n && b == n * qb + b % n;
      assert b - a == n * (qb - qa);
      MultipleSpread(n, qb - qa);
    }
  }

  /** The index after x's index is the index of x + 1. */
  lemma NextIndex(x: nat, n: nat)
    requires 0 < n
    ensures (x % n + 1) % n == (x + 1) % n
  {
    var q := x / n;
    assert x == n * q + x % n;
    if x % n + 1 < n {
      Quotient(x + 1, n, q, x % n + 1);
    } else {
      assert x + 1 == n * q + n == n * (q + 1) + 0;
      Quotient(x + 1, n, q + 1, 0);
      Quotient(n, n, 1, 0);
    }
  }

  lemma Quotient(x: nat, n: nat, q: int, r: nat)
    requires 0 < n && x == n * q + r && r < n
    ensures x % n == r
  {
    var q', r' := x / n, x % n;
    assert n * (q - q') == r' - r;
    MultipleSpread(n, q - q');
  }

  lemma WrapOnce(x: nat, n: nat)
    requires 0 < n
    ensures (x + n) % n == x % n
  {
    var q := x / n;
    assert x + n == n * q + n + x % n == n * (q + 1) + x % n;
    Quotient(x + n, n, q + 1, x % n);
  }
}
