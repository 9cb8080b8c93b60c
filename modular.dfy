// Facts about Dafny's % with a positive divisor, which agrees with Python's %
// (the remainder is never negative), as np.roll's index arithmetic uses it.

module Modular {

  /** x mod n in [0, n), as Python computes x % n for n > 0. */
  function Mod(x: int, n: int): (r: int)
    requires n > 0
    ensures 0 <= r < n
    ensures r == x - n * (x / n)
  {
    x % n
  }

  /** The remainder is the unique r in [0, n) with x == q * n + r. */
  lemma ModUnique(x: int, n: int, q: int, r: int)
    requires n > 0 && 0 <= r < n && x == q * n + r
    ensures Mod(x, n) == r
  {
    var q', r' := x / n, x % n;
    assert x == q' * n + r';
    var d := q - q';
    assert d * n == r' - r by {
      assert q * n - q' * n == (q - q') * n;
    }
  }

  /** Reducing an intermediate index modulo n does not change the final index. */
  lemma ModAbsorb(a: int, b: int, n: int)
    requires n > 0
    ensures Mod(Mod(a, n) + b, n) == Mod(a + b, n)
  {
    var q1, q2 := a / n, (a % n + b) / n;
    var r := (a % n + b) % n;
    assert a % n + b == q2 * n + r;
    assert a + b == (q1 + q2) * n + r by {
      assert a == q1 * n + a % n;
      assert (q1 + q2) * n == q1 * n + q2 * n;
    }
    ModUnique(a + b, n, q1 + q2, r);
  }
}
