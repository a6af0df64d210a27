/** Facts about remainders that the solver does not find alone. */
module Modulo {
  lemma ModAdd(x: nat, y: nat, m: nat)
    requires m > 0
    ensures (x % m + y) % m == (x + y) % m
  {
    var q := x / m;
    assert x == m * q + x % m;
    ModShift(x % m + y, q, m);
  }

  lemma {:induction false} ModShift(z: nat, q: nat, m: nat)
    requires m > 0
    ensures (z + m * q) % m == z % m
    decreases q
  {
    if q > 0 {
      ModShift(z, q - 1, m);
      assert z + m * q == (z + m * (q - 1)) + m;
      ModOnce(z + m * (q - 1), m);
    }
  }

  lemma ModOnce(z: nat, m: nat)
    requires m > 0
    ensures (z + m) % m == z % m
  {
    var q, r := z / m, z % m;
    assert z + m == m * (q + 1) + r;
    ModUnique(z + m, m, q + 1, r);
  }

  lemma ModUnique(z: nat, m: nat, q: nat, r: nat)
    requires m > 0 && z == m * q + r && r < m
    ensures z % m == r
  {
    var p := z / m;
    assert m * (p - q) == r - z % m;
    NoMultiple(m, p - q);
  }

  lemma DivUnique(z: nat, m: nat, q: nat, r: nat)
    requires m > 0 && z == m * q + r && r < m
    ensures z / m == q
  {
    var p := z / m;
    assert m * (p - q) == r - z % m;
    NoMultiple(m, p - q);
  }

  /** No multiple of `m` but zero is this small. */
  lemma NoMultiple(m: int, x: int)
    requires m > 0 && -m < m * x < m
    ensures x == 0
  {}
}
