/** Bitwise operations on naturals, bit by bit, and the facts about them that the queue relies on. */
module Bits {
  import opened Modular

  function Pow2(k: nat): (p: nat)
    ensures p >= 1
  {
    if k == 0 then 1 else 2 * Pow2(k - 1)
  }

  function Xor(a: nat, b: nat): nat
    decreases a + b
  {
    if a == 0 && b == 0 then 0 else 2 * Xor(a / 2, b / 2) + (a + b) % 2
  }

  function Or(a: nat, b: nat): nat
    decreases a + b
  {
    if a == 0 && b == 0 then 0
    else 2 * Or(a / 2, b / 2) + (if a % 2 == 1 || b % 2 == 1 then 1 else 0)
  }

  function And(a: nat, b: nat): nat
    decreases a + b
  {
    if a == 0 && b == 0 then 0
    else 2 * And(a / 2, b / 2) + (if a % 2 == 1 && b % 2 == 1 then 1 else 0)
  }

  /** `a >> k`. */
  function ShiftRight(a: nat, k: nat): (r: nat) {
    if k == 0 then a else ShiftRight(a / 2, k - 1)
  }

  lemma {:induction false} XorCancels(a: nat, b: nat)
    ensures Xor(Xor(a, b), b) == a
    decreases a + b
  {
    if a != 0 || b != 0 {
      XorCancels(a / 2, b / 2);
      var c := Xor(a, b);
      XorParts(a, b);
      XorParts(c, b);
      ParityCancels(a, b, c);
      Parts(Xor(c, b), a);
    }
  }

  lemma XorParts(a: nat, b: nat)
    ensures Xor(a, b) / 2 == Xor(a / 2, b / 2) && Xor(a, b) % 2 == (a + b) % 2
  {}

  lemma ParityCancels(a: nat, b: nat, c: nat)
    requires c % 2 == (a + b) % 2
    ensures (c + b) % 2 == a % 2
  {}

  lemma Parts(x: nat, y: nat)
    requires x / 2 == y / 2 && x % 2 == y % 2
    ensures x == y
  {}

  /** Bits below position `k` do not disturb those from `k` upwards. */
  lemma {:induction false} XorKeepsHighBits(a: nat, b: nat, k: nat)
    requires b < Pow2(k)
    ensures ShiftRight(Xor(a, b), k) == ShiftRight(a, k)
    decreases k
  {
    if k == 0 {
      XorZero(a);
    } else {
      XorParts(a, b);
      XorKeepsHighBits(a / 2, b / 2, k - 1);
    }
  }

  lemma {:induction false} XorZero(a: nat)
    ensures Xor(a, 0) == a
  {
    if a != 0 { XorZero(a / 2); }
  }

  lemma OrHalf(a: nat, b: nat)
    ensures Or(a, b) / 2 == Or(a / 2, b / 2)
  {}

  lemma {:induction false} OrShift(a: nat, b: nat, k: nat)
    ensures ShiftRight(Or(a, b), k) == Or(ShiftRight(a, k), ShiftRight(b, k))
    decreases k
  {
    if k != 0 {
      OrHalf(a, b);
      OrShift(a / 2, b / 2, k - 1);
    }
  }

  lemma {:induction false} ShiftShift(a: nat, j: nat, k: nat)
    ensures ShiftRight(ShiftRight(a, j), k) == ShiftRight(a, j + k)
    decreases j
  {
    if j != 0 { ShiftShift(a / 2, j - 1, k); }
  }

  /** A right shift bounds: `a >> k` is below `2^m` exactly when `a` is below `2^(k+m)`. */
  lemma {:induction false} ShiftBound(a: nat, k: nat, m: nat)
    ensures ShiftRight(a, k) < Pow2(m) <==> a < Pow2(k + m)
    decreases k
  {
    if k != 0 { ShiftBound(a / 2, k - 1, m); }
  }

  /** And with `k` ones keeps exactly the `k` lowest bits. */
  lemma {:induction false} AndLowOnes(a: nat, k: nat)
    ensures And(a, Pow2(k) - 1) == a % Pow2(k)
    decreases k
  {
    if k == 0 {
      AndZero(a);
    } else {
      AndLowOnes(a / 2, k - 1);
      AndDoubled(a, Pow2(k - 1), Pow2(k));
    }
  }

  lemma {:induction false} AndZero(a: nat)
    ensures And(a, 0) == 0
  {
    if a != 0 { AndZero(a / 2); }
  }

  lemma AndDoubled(a: nat, p: nat, m: nat)
    requires p > 0 && m == 2 * p && And(a / 2, p - 1) == a / 2 % p
    ensures And(a, m - 1) == a % m
  {
    AndOdd(a, p - 1, m - 1);
    LowBits(a, p, m);
  }

  lemma AndOdd(a: nat, b: nat, c: nat)
    requires c == 2 * b + 1
    ensures And(a, c) == 2 * And(a / 2, b) + a % 2
  {
    assert c / 2 == b && c % 2 == 1;
  }

  /** The remainder by `2p` is the lowest bit with the remainder of the others by `p`. */
  lemma LowBits(a: nat, p: nat, m: nat)
    requires p > 0 && m == 2 * p
    ensures a % m == 2 * (a / 2 % p) + a % 2
  {
    var k := Split(a / 2, p);
    assert a == 2 * (k * p + a / 2 % p) + a % 2;
    assert 2 * (k * p) == k * m;
    RemainderIsUnique(a, m, k, 2 * (a / 2 % p) + a % 2);
  }

  lemma {:induction false} OrZero(a: nat)
    ensures Or(a, 0) == a && Or(0, a) == a
  {
    if a != 0 { OrZero(a / 2); }
  }

  /** All ones above position `k`, joined with `k` ones, is all ones. */
  lemma {:induction false} OnesMeetOnes(a: nat, k: nat, m: nat)
    requires ShiftRight(a, k) == Pow2(m) - 1
    ensures Or(a, Pow2(k) - 1) == Pow2(k + m) - 1
    decreases k
  {
    if k == 0 {
      OrZero(a);
    } else {
      OnesMeetOnes(a / 2, k - 1, m);
    }
  }

  lemma {:induction false} ShiftOnes(k: nat, m: nat)
    requires k <= m
    ensures ShiftRight(Pow2(m) - 1, k) == Pow2(m - k) - 1
    decreases k
  {
    if k != 0 {
      assert (Pow2(m) - 1) / 2 == Pow2(m - 1) - 1;
      ShiftOnes(k - 1, m - 1);
    }
  }

  lemma {:induction false} Pow2Splits(j: nat, k: nat)
    ensures Pow2(j + k) == Pow2(j) * Pow2(k)
  {
    if j != 0 {
      Pow2Splits(j - 1, k);
      assert 2 * (Pow2(j - 1) * Pow2(k)) == (2 * Pow2(j - 1)) * Pow2(k);
    }
  }

  lemma {:induction false} Pow2Monotone(j: nat, k: nat)
    requires j <= k
    ensures Pow2(j) <= Pow2(k)
    ensures j < k ==> 2 * Pow2(j) <= Pow2(k)
    decreases k
  {
    if j < k { Pow2Monotone(j, k - 1); }
  }

  /** The width in bits of a positive number. */
  lemma {:induction false} Width(x: nat) returns (w: nat)
    requires x >= 1
    ensures w >= 1 && Pow2(w - 1) <= x < Pow2(w)
  {
    if x == 1 { w := 1; } else { var v := Width(x / 2); w := v + 1; }
  }

  /** Only 0 shifts to 0 beyond its width. */
  lemma {:induction false} TopBit(x: nat, w: nat)
    requires w >= 1 && Pow2(w - 1) <= x < Pow2(w)
    ensures ShiftRight(x, w - 1) == 1
    decreases w
  {
    if w > 1 { TopBit(x / 2, w - 1); }
  }

  /** The `m` topmost of `w` bits of `x` are ones, and there are no more than `w` bits. */
  predicate TopOnes(x: nat, w: nat, m: nat) {
    m <= w && ShiftRight(x, w - m) == Pow2(m) - 1
  }

  /** One smearing step, `x |= x >> m`, doubles the run of ones at the top. */
  lemma Smear(x: nat, w: nat, m: nat)
    requires TopOnes(x, w, m)
    ensures TopOnes(Or(x, ShiftRight(x, m)), w, if 2 * m <= w then 2 * m else w)
  {
    var m' := if 2 * m <= w then 2 * m else w;
    var low := w - m';
    var u := ShiftRight(x, low);
    OrShift(x, ShiftRight(x, m), low);
    ShiftShift(x, m, low);
    ShiftShift(x, low, m);
    ShiftShift(x, low, m' - m);
    ShiftShift(u, m' - m, m - (m' - m));
    ShiftOnes(m - (m' - m), m);
    assert ShiftRight(u, m' - m) == Pow2(m) - 1;
    assert ShiftRight(u, m) == Pow2(m' - m) - 1;
    OnesMeetOnes(u, m' - m, m);
  }
}
