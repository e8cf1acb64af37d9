/** Products and remainders. */
module Arithmetic {
  lemma MulMono(x: nat, y: nat, z: nat)
    requires y <= z
    ensures 0 <= x * y <= x * z
  {
    assert x * (z - y) >= 0;
  }

  lemma MulGap(d: int, n: int)
    requires n > 0
    ensures d >= 1 ==> d * n >= n
    ensures d <= -1 ==> d * n <= -n
  {
  }

  function Pow2(k: nat): (p: nat)
    ensures p > 0
  {
    if k == 0 then 1 else 2 * Pow2(k - 1)
  }

  lemma {:induction false} PowAdd(j: nat, k: nat)
    ensures Pow2(j + k) == Pow2(j) * Pow2(k)
  {
    if k == 0 {
    } else {
      PowAdd(j, k - 1);
      assert 2 * (Pow2(j) * Pow2(k - 1)) == Pow2(j) * (2 * Pow2(k - 1));
    }
  }

  lemma Halve(b: nat, k: nat)
    ensures b / Pow2(k) / 2 == b / Pow2(k + 1)
  {
    var p := Pow2(k);
    var q, r := b / p / 2, b / p % 2;
    assert b == (2 * q + r) * p + b % p;
    assert (2 * q + r) * p == q * (2 * p) + r * p;
    DivModUnique(b, 2 * p, q, r * p + b % p);
  }

  lemma DivModUnique(a: int, n: int, q: int, r: int)
    requires 0 <= r < n && a == q * n + r
    ensures a / n == q && a % n == r
  {
    var d := a / n - q;
    assert d * n == r - a % n;
    MulGap(d, n);
  }

  lemma EvenQuotient(m: nat, p: nat, r: nat)
    requires p > 0 && r > 0 && p * (2 * r) > 0 && m % (p * (2 * r)) == 0
    ensures m / p % 2 == 0
  {
    var n := p * (2 * r);
    var q := m / n;
    assert m == n * q;
    assert p * (2 * r) * q == 2 * (r * q) * p;
    DivModUnique(m, p, 2 * (r * q), 0);
  }
}
