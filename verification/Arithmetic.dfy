/** Division, remainder and powers. */
module Arithmetic {

  function Pow(b: nat, e: nat): (p: nat)
    ensures b > 0 ==> p > 0
  {
    if e == 0 then 1 else
      var p := Pow(b, e - 1);
      assert b > 0 ==> b * p > 0;
      b * p
  }

  const U64: nat := 0x1_0000_0000_0000_0000

  /** A uint64_t holds its value modulo 2^64. */
  function Wrap64(x: nat): (r: nat)
    ensures r < U64
  {
    x % U64
  }

  function Mul64(x: nat, y: nat): (r: nat) {
    Wrap64(x * y)
  }

  function Add64(x: nat, y: nat): (r: nat) {
    Wrap64(x + y)
  }

  lemma MulMonotone(m: int, a: int, c: int)
    requires m > 0
    ensures a <= c ==> m * a <= m * c
    ensures a < c ==> m * a + m <= m * c
  {
    if a < c {
      var k := c - a - 1;
      assert m * k >= 0;
      assert m * c == m * (a + (1 + k)) == m * a + m * (1 + k);
      assert m * (1 + k) == m + m * k;
    }
  }

  lemma DivModUnique(x: int, m: int, q: int, r: int)
    requires m > 0 && 0 <= r < m && x == m * q + r
    ensures x / m == q && x % m == r
  {
    assert x == m * (x / m) + x % m;
    MulMonotone(m, q, x / m);
    MulMonotone(m, x / m, q);
  }

  /** Reducing a factor first does not change the reduced product. */
  lemma ModProduct(x: nat, k: nat, m: nat)
    requires m > 0
    ensures ((x % m) * k) % m == (x * k) % m
  {
    var q, r := x / m, x % m;
    var q', r' := (r * k) / m, (r * k) % m;
    assert x * k == (m * q + r) * k == m * (q * k) + r * k;
    assert r * k == m * q' + r';
    assert x * k == m * (q * k + q') + r';
    DivModUnique(x * k, m, q * k + q', r');
  }

  lemma MulWraps(x: nat, k: nat)
    ensures Mul64(Wrap64(x), k) == Wrap64(x * k)
  {
    ModProduct(x, k, U64);
  }

  lemma AddWraps(x: nat, k: nat)
    ensures Add64(Wrap64(x), k) == Wrap64(x + k)
  {
  }

  /** Two multiples of p are at least p apart, and the next multiple after r is r + p. */
  lemma Multiples(r: nat, q: nat, p: nat)
    requires p > 0 && r % p == 0 && q % p == 0 && q > r
    ensures q >= r + p && (r + p) % p == 0
  {
    var a, c := r / p, q / p;
    assert r == p * a && q == p * c;
    MulMonotone(p, c, a);
    MulMonotone(p, a, c);
    assert p * (a + 1) == p * a + p;
    DivModUnique(r + p, p, a + 1, 0);
  }
}
