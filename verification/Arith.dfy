// Multiples and quotients, kept away from the solver's non-linear arithmetic.
module Arith {

  // n buckets of size b.
  function Buckets(n: nat, b: real): real {
    if n == 0 then 0.0 else Buckets(n - 1, b) + b
  }

  lemma {:induction false} BucketsProduct(n: nat, b: real)
    ensures Buckets(n, b) == n as real * b
  {
    if n > 0 {
      BucketsProduct(n - 1, b);
      var m := (n - 1) as real;
      assert n as real == m + 1.0;
      assert (m + 1.0) * b == m * b + b;
    }
  }

  lemma {:induction false} BucketsSum(x: nat, y: nat, b: real)
    ensures Buckets(x + y, b) == Buckets(x, b) + Buckets(y, b)
  {
    if y > 0 {
      BucketsSum(x, y - 1, b);
    }
  }

  lemma {:induction false} BucketsPositive(n: nat, b: real)
    requires b >= 0.0
    ensures Buckets(n, b) >= 0.0
    ensures n > 0 ==> Buckets(n, b) >= b
  {
    if n > 0 {
      BucketsPositive(n - 1, b);
    }
  }

  lemma BucketsMonotone(x: nat, y: nat, b: real)
    requires b >= 0.0 && x <= y
    ensures Buckets(x, b) <= Buckets(y, b)
    ensures x < y ==> Buckets(x, b) + b <= Buckets(y, b)
  {
    BucketsSum(x, y - x, b);
    BucketsPositive(y - x, b);
  }

  lemma QuotientBound(f: nat, m: nat, n: nat)
    requires m > 0 && f * m <= n
    ensures f <= n / m
  {
    var q := n / m;
    assert n == q * m + n % m;
    Product(q + 1, f, m);
    assert (q + 1) * m == q * m + m;
  }

  lemma Product(x: int, y: int, m: nat)
    ensures x <= y ==> x * m <= y * m
  {
    assert y * m == x * m + (y - x) * m;
  }

  // Of k bins t are roomy and bounded together; the others hold m of the n items each.
  lemma SplitBound(k: nat, t: nat, n: nat, m: nat, b: real, bound: real)
    requires m > 0 && t <= k && (k - t) * m <= n && b >= 0.0
    requires Buckets(t, b) <= b + bound
    ensures Buckets(k, b) <= Buckets(n / m + 1, b) + bound
  {
    QuotientBound(k - t, m, n);
    BucketsMonotone(k, n / m + t, b);
    BucketsSum(n / m, t, b);
  }

  lemma AtMostTwice(k: nat, q: nat, b: real, total: real)
    requires b > 0.0 && Buckets(k, b) <= 2.0 * total && total <= Buckets(q, b)
    ensures k <= 2 * q
  {
    BucketsSum(q, q, b);
    if k > 2 * q {
      BucketsMonotone(2 * q, k, b);
      assert false;
    }
  }

  lemma OneMoreFull(f: nat, m: nat, n: nat, c: nat)
    requires f * m <= n && c >= m
    ensures (f + 1) * m <= n + c
  {
    assert (f + 1) * m == f * m + m;
  }
}
