/** Absolute value, and facts about Euclidean division and remainder that the solver does not find alone. */
module Arithmetic {

  function Abs(x: real): (r: real)
    ensures r >= 0.0 && (r == x || r == -x)
  {
    if x < 0.0 then -x else x
  }

  lemma DivDiv(n: int, k: int, m: int)
    requires n >= 0 && k > 0 && m > 0
    ensures n / (k * m) == (n / k) / m
  {
    var q, r := n / k, n % k;
    var q2, r2 := q / m, q % m;
    assert n == q * k + r;
    assert q == q2 * m + r2;
    assert q * k == q2 * (k * m) + r2 * k by {
      assert (q2 * m + r2) * k == q2 * m * k + r2 * k;
    }
    assert r2 * k <= (m - 1) * k by {
      MulMonotone(r2, m - 1, k);
    }
    assert (m - 1) * k == k * m - k;
    DivUnique(n, k * m, q2, r2 * k + r);
  }

  lemma MulMonotone(a: int, b: int, k: int)
    requires 0 <= a <= b && k >= 0
    ensures a * k <= b * k
  {
    assert b * k == a * k + (b - a) * k;
  }

  lemma DivUnique(n: int, b: int, a: int, c: int)
    requires b > 0 && n == a * b + c && 0 <= c < b
    ensures n / b == a
  {
    var q, r := n / b, n % b;
    assert (q - a) * b == c - r;
    if q > a {
      MulMonotone(1, q - a, b);
    } else if q < a {
      MulMonotone(1, a - q, b);
    }
  }

  lemma ModUnique(n: int, b: int, a: int, c: int)
    requires b > 0 && n == a * b + c && 0 <= c < b
    ensures n % b == c
  {
    DivUnique(n, b, a, c);
  }

  /** Taking the remainder before adding one changes nothing. */
  lemma ModSucc(x: int, n: int)
    requires n > 0
    ensures (x % n + 1) % n == (x + 1) % n
  {
    var q, r := x / n, x % n;
    if r + 1 < n {
      ModUnique(x + 1, n, q, r + 1);
      ModUnique(r + 1, n, 0, r + 1);
    } else {
      assert x + 1 == (q + 1) * n;
      ModUnique(x + 1, n, q + 1, 0);
      ModUnique(r + 1, n, 1, 0);
    }
  }

  /** Taking the remainder before subtracting one changes nothing. */
  lemma ModPred(x: int, n: int)
    requires n > 0
    ensures (x % n - 1 + n) % n == (x - 1) % n
  {
    var q, r := x / n, x % n;
    if r >= 1 {
      ModUnique(x - 1, n, q, r - 1);
      ModUnique(r - 1 + n, n, 1, r - 1);
    } else {
      assert x - 1 == (q - 1) * n + (n - 1);
      ModUnique(x - 1, n, q - 1, n - 1);
      ModUnique(n - 1, n, 0, n - 1);
    }
  }
}
