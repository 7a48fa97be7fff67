/** Arithmetic modulo a variable, for circular buffers. */
module Modular {

  lemma SmallMultiple(d: int, m: int)
    requires m > 0 && -m < d * m < m
    ensures d == 0
  {
    if d >= 1 { Grows(d, m); }
    if d <= -1 { Grows(-d, m); }
  }

  lemma Grows(d: int, m: int)
    requires d >= 1 && m > 0
    ensures d * m >= m
  {
    assert d * m == (d - 1) * m + m;
  }

  lemma RemainderIsUnique(x: int, m: int, k: int, r: int)
    requires m > 0 && x == k * m + r && 0 <= r < m
    ensures x % m == r
  {
    var k' := Split(x, m);
    assert (k - k') * m == k * m - k' * m;
    SmallMultiple(k - k', m);
  }

  lemma Split(x: int, m: int) returns (k: int)
    requires m > 0
    ensures x == k * m + x % m && 0 <= x % m < m
  {
    k := x / m;
  }

  /** Reducing a summand first changes nothing. */
  lemma AddReduced(x: int, y: int, m: int)
    requires m > 0
    ensures (x % m + y) % m == (x + y) % m
  {
    var k := Split(x, m);
    var l := Split(x + y, m);
    assert (l - k) * m == l * m - k * m;
    RemainderIsUnique(x % m + y, m, l - k, (x + y) % m);
  }

  lemma Congruent(x: int, y: int, z: int, m: int)
    requires m > 0 && x % m == y % m
    ensures (x + z) % m == (y + z) % m
  {
    AddReduced(x, z, m);
    AddReduced(y, z, m);
  }

  lemma MultipleAdded(x: int, k: int, m: int)
    requires m > 0
    ensures (x + k * m) % m == x % m
  {
    var l := Split(x, m);
    assert (l + k) * m == l * m + k * m;
    RemainderIsUnique(x + k * m, m, l + k, x % m);
  }

  /** Reducing modulo `2m` first changes nothing modulo `m`. */
  lemma Halved(x: int, m: int)
    requires m > 0
    ensures (x % (2 * m)) % m == x % m
  {
    var k := Split(x, 2 * m);
    assert x == x % (2 * m) + (2 * k) * m;
    MultipleAdded(x % (2 * m), 2 * k, m);
  }

  /** Congruent numbers less than `m` apart are equal. */
  lemma CloseAndCongruent(x: int, y: int, m: int)
    requires m > 0 && x % m == y % m && -m < x - y < m
    ensures x == y
  {
    var k := Split(x, m);
    var l := Split(y, m);
    assert (k - l) * m == k * m - l * m;
    SmallMultiple(k - l, m);
  }
}
