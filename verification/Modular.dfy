/** Remainders by a variable divisor. */
module Modular {

  lemma MulAtLeast(a: int, n: int)
    requires n > 0
    ensures a >= 1 ==> a * n >= n
    ensures a <= -1 ==> a * n <= -n
  {}

  /** The remainder is determined by any decomposition. */
  lemma ModUnique(x: int, n: int, q: int, r: int)
    requires n > 0 && x == q * n + r && 0 <= r < n
    ensures x % n == r
  {
    var p, t := x / n, x % n;
    assert x == p * n + t;
    MulAtLeast(p - q, n);
    assert (p - q) * n == r - t by {
      assert (p - q) * n == p * n - q * n;
    }
  }

  lemma AddMultiple(q: int, r: int, n: int)
    requires n > 0
    ensures (q * n + r) % n == r % n
  {
    var x, t := r / n, r % n;
    assert r == x * n + t;
    assert q * n + r == (q + x) * n + t;
    ModUnique(q * n + r, n, q + x, t);
  }

  lemma SmallMod(d: int, n: int)
    requires 0 <= d < n
    ensures d % n == d
  {
    ModUnique(d, n, 0, d);
  }

  /** Numbers with equal remainders differ by a multiple. */
  lemma SameMod(u: int, v: int, n: int) returns (q: int)
    requires n > 0 && u % n == v % n
    ensures v - u == q * n
  {
    q := v / n - u / n;
    assert u == (u / n) * n + u % n && v == (v / n) * n + v % n;
    assert q * n == (v / n) * n - (u / n) * n;
  }
}
