/** Facts about Euclidean `%` used by the index arithmetic of the frame caches. */
module ModArith {

  /** `%` and `/` are determined by any quotient/remainder decomposition. */
  lemma ModUnique(a: int, n: int, q: int, r: int)
    requires n > 0 && 0 <= r < n && a == q * n + r
    ensures a % n == r && a / n == q
  {
    var d := a / n - q;
    MulSign(d, n);
    assert d * n == (a / n) * n - q * n;
  }

  lemma MulSign(x: int, n: int)
    requires n > 0
    ensures x >= 1 ==> x * n >= n
    ensures x <= -1 ==> x * n <= -n
  {
  }

  lemma ModOfSmall(a: int, n: int)
    requires 0 <= a < n
    ensures a % n == a
  {
    ModUnique(a, n, 0, a);
  }

  lemma ModOfSmallPlusN(a: int, n: int)
    requires n <= a < 2 * n
    ensures a % n == a - n
  {
    ModUnique(a, n, 1, a - n);
  }

  /** Reducing an addend first does not change the result: `((a % n) + b) % n == (a + b) % n`. */
  lemma ModAddMod(a: int, b: int, n: int)
    requires n > 0
    ensures ((a % n) + b) % n == (a + b) % n
  {
    var q := a / n;
    var s := (a % n) + b;
    ModUnique(s, n, s / n, s % n);
    ModUnique(a + b, n, q + s / n, s % n);
  }
}
