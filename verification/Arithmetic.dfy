/** Facts of integer and real arithmetic that the solver is not left to find. */
module Arithmetic {
  lemma MulBound(n: int, q: int)
    requires n > 0
    ensures q >= 1 ==> n * q >= n
    ensures q >= 2 ==> n * q >= 2 * n
    ensures q <= -1 ==> n * q <= -n
  {
    if q >= 2 {
      assert n * (q - 2) >= 0;
    } else if q <= -1 {
      assert n * (-1 - q) >= 0;
    }
  }

  lemma UniqueMod(a: int, q: int, r: int, n: int)
    requires n > 0 && 0 <= r < n && a == n * q + r
    ensures a % n == r
  {
    assert a == n * (a / n) + a % n;
    assert n * (a / n - q) == n * (a / n) - n * q;
    MulBound(n, a / n - q);
  }

  lemma ModShift(a: int, q: int, n: int)
    requires n > 0
    ensures (a + n * q) % n == a % n
  {
    assert a == n * (a / n) + a % n;
    assert n * (a / n + q) == n * (a / n) + n * q;
    UniqueMod(a + n * q, a / n + q, a % n, n);
  }

  /** Numbers congruent to n + k are n + k itself or at least one round further. */
  lemma ModGap(v: int, n: int, k: int, nb: int)
    requires 0 <= k < nb && n <= v && v % nb == (n % nb + k) % nb
    ensures v == n + k || v == n + k + nb || v >= n + k + 2 * nb
  {
    var a, b, e := v / nb, n / nb, (n % nb + k) / nb;
    assert v == nb * a + v % nb;
    assert n == nb * b + n % nb;
    assert n % nb + k == nb * e + (n % nb + k) % nb;
    assert nb * (a - b - e) == nb * a - nb * b - nb * e;
    assert v - n - k == nb * (a - b - e);
    MulBound(nb, a - b - e);
  }

  lemma SameStep(n: int, j: int, nb: int)
    requires nb > 0
    ensures (n + j) % nb == (n % nb + j) % nb == (n + j + nb) % nb
  {
    var q := n / nb;
    assert n == nb * q + n % nb;
    ModShift(n % nb + j, q, nb);
    ModShift(n + j, 1, nb);
  }

  lemma Quotient(t: real, y: real, w: real)
    requires w > 0.0 && t == y * w
    ensures t / w == y
  {
    assert (t / w - y) * w == 0.0;
  }

  lemma MulSign(n: real, a: real)
    requires n > 0.0
    ensures n * a < 0.0 <==> a < 0.0
    ensures n * a > 0.0 <==> a > 0.0
  {
  }

  /** Going round a ring of n places returns to the start after exactly n steps. */
  lemma RingReturns(start: int, k: int, n: int)
    requires 0 <= start < n && 0 <= k <= n
    ensures (start + k) % n == if start + k < n then start + k else if k == n then start else start + k - n
  {
    if start + k >= n {
      UniqueMod(start + k, 1, start + k - n, n);
    }
  }
}
