/**
  The 64-bit arithmetic underneath the queue: the wrap-around comparison of counters, the thread-id
  hash finaliser and rounding up to a power of two.
 */
module MachineArithmetic {
  import opened Bits
  import opened Modular

  const TWO_63: int := 0x8000_0000_0000_0000
  const TWO_64: int := 0x1_0000_0000_0000_0000

  /** The 64-bit register holding the counter `x`. */
  function Residue(x: int): (r: nat)
    ensures r < TWO_64
  {
    x % TWO_64
  }

  // ---------------------------------------------------------------- circular_less_than

  /** `circular_less_than<std::uint64_t>`: the wrapped difference exceeds half the range. */
  predicate CircularLessThan(a: nat, b: nat)
    requires a < TWO_64 && b < TWO_64
  {
    Residue(a - b) > TWO_63
  }

  lemma ResidueOfDifference(a: int, b: int)
    ensures Residue(Residue(a) - Residue(b)) == Residue(a - b)
  {
    var k := a / TWO_64 - b / TWO_64;
    var d := Residue(a) - Residue(b);
    assert a - b == d + k * TWO_64;
    if d >= 0 {
      assert d < TWO_64;
      RemainderIsUnique(a - b, TWO_64, k, d);
      RemainderIsUnique(d, TWO_64, 0, d);
    } else {
      RemainderIsUnique(a - b, TWO_64, k - 1, d + TWO_64);
      RemainderIsUnique(d, TWO_64, -1, d + TWO_64);
    }
  }

  /**
    On counters less than 2^64 apart the comparison of the registers is the comparison of the
    counters exactly when neither is ahead by too much; the two bounds are not symmetric.
   */
  lemma CircularLessThanIsExact(a: int, b: int)
    requires -TWO_64 < a - b < TWO_64
    ensures (CircularLessThan(Residue(a), Residue(b)) <==> a < b) <==> -TWO_63 < a - b <= TWO_63
  {
    ResidueOfDifference(a, b);
    if a < b {
      RemainderIsUnique(a - b, TWO_64, -1, a - b + TWO_64);
    } else {
      RemainderIsUnique(a - b, TWO_64, 0, a - b);
    }
  }

  /** The form used by the queue: counters less than 2^63 apart compare as unbounded numbers do. */
  lemma CircularLessThanRefinesLess(a: int, b: int)
    requires -TWO_63 < a - b < TWO_63
    ensures CircularLessThan(Residue(a), Residue(b)) <==> a < b
  {
    CircularLessThanIsExact(a, b);
  }

  /** The comparison of a difference of two registers with a third, as `dequeue` writes it. */
  lemma DifferenceComparesExactly(count: int, over: int, tail: int)
    requires -TWO_63 < count - over - tail < TWO_63
    ensures CircularLessThan(Residue(Residue(count) - Residue(over)), Residue(tail)) <==> count - over < tail
  {
    ResidueOfDifference(count, over);
    CircularLessThanRefinesLess(count - over, tail);
  }

  // ---------------------------------------------------------------- hash finaliser

  const FIRST: nat := 0xff51_afd7_ed55_8ccd
  const SECOND: nat := 0xc4ce_b9fe_1a85_ec53
  const FIRST_INVERSE: nat := 0x4f74_430c_22a5_4005
  const SECOND_INVERSE: nat := 0x9cb4_b2f8_1293_37db

  /** `h ^= h >> 33`. */
  function ShiftXor(h: nat): nat {
    Xor(h, ShiftRight(h, 33))
  }

  /** Multiplication in a 64-bit register. */
  function Times(h: nat, factor: nat): (r: nat)
    ensures r < TWO_64
  {
    (h * factor) % TWO_64
  }

  /** The MurmurHash3 finaliser applied to 64-bit thread ids. */
  function Finalise(h: nat): nat {
    ShiftXor(Times(ShiftXor(Times(ShiftXor(h), FIRST)), SECOND))
  }

  /** Undoes `Finalise`. */
  function Unfinalise(h: nat): nat {
    ShiftXor(Times(ShiftXor(Times(ShiftXor(h), SECOND_INVERSE)), FIRST_INVERSE))
  }

  lemma TwoTo64()
    ensures Pow2(64) == TWO_64 && Pow2(31) == 0x8000_0000
  {
    assert Pow2(8) == 0x100;
    assert Pow2(16) == 0x1_0000;
    assert Pow2(24) == 0x100_0000;
    assert Pow2(31) == 0x8000_0000;
    assert Pow2(40) == 0x100_0000_0000;
    assert Pow2(48) == 0x1_0000_0000_0000;
    assert Pow2(56) == 0x100_0000_0000_0000;
  }

  lemma ShiftXorTwice(h: nat)
    requires h < TWO_64
    ensures ShiftXor(h) < TWO_64 && ShiftXor(ShiftXor(h)) == h
  {
    var high := ShiftRight(h, 33);
    TwoTo64();
    ShiftBound(h, 33, 31);
    Pow2Monotone(31, 33);
    XorKeepsHighBits(h, high, 33);
    ShiftBound(Xor(h, high), 33, 31);
    XorCancels(h, high);
  }

  /** Multiplying by `f` and then by its inverse modulo 2^64 changes nothing. */
  lemma TimesInverts(h: nat, f: nat, g: nat, k: nat)
    requires h < TWO_64 && f * g == 1 + k * TWO_64
    ensures Times(Times(h, f), g) == h
  {
    var q := (h * f) / TWO_64;
    var r := Times(h, f);
    assert h * f == q * TWO_64 + r;
    calc {
      r * g;
      (h * f - q * TWO_64) * g;
      h * f * g - q * TWO_64 * g;
      { assert h * f * g == h * (f * g); assert q * TWO_64 * g == (q * g) * TWO_64; }
      h * (1 + k * TWO_64) - (q * g) * TWO_64;
      { assert h * (1 + k * TWO_64) == h + (h * k) * TWO_64; }
      h + (h * k) * TWO_64 - (q * g) * TWO_64;
      (h * k - q * g) * TWO_64 + h;
    }
    RemainderIsUnique(r * g, TWO_64, h * k - q * g, h);
  }

  lemma FactorsInvert(h: nat)
    requires h < TWO_64
    ensures Times(Times(h, FIRST), FIRST_INVERSE) == h && Times(Times(h, FIRST_INVERSE), FIRST) == h
    ensures Times(Times(h, SECOND), SECOND_INVERSE) == h && Times(Times(h, SECOND_INVERSE), SECOND) == h
  {
    TimesInverts(h, FIRST, FIRST_INVERSE, FIRST * FIRST_INVERSE / TWO_64);
    TimesInverts(h, FIRST_INVERSE, FIRST, FIRST * FIRST_INVERSE / TWO_64);
    TimesInverts(h, SECOND, SECOND_INVERSE, SECOND * SECOND_INVERSE / TWO_64);
    TimesInverts(h, SECOND_INVERSE, SECOND, SECOND * SECOND_INVERSE / TWO_64);
  }

  lemma FinaliseRoundTrip(h: nat)
    requires h < TWO_64
    ensures Finalise(h) < TWO_64 && Unfinalise(Finalise(h)) == h
    ensures Unfinalise(h) < TWO_64 && Finalise(Unfinalise(h)) == h
  {
    ShiftXorTwice(h);
    var a := Times(ShiftXor(h), FIRST);
    ShiftXorTwice(a);
    var b := Times(ShiftXor(a), SECOND);
    ShiftXorTwice(b);
    FactorsInvert(ShiftXor(h));
    FactorsInvert(ShiftXor(a));
    var c := Times(ShiftXor(h), SECOND_INVERSE);
    ShiftXorTwice(c);
    var d := Times(ShiftXor(c), FIRST_INVERSE);
    ShiftXorTwice(d);
    FactorsInvert(ShiftXor(c));
  }

  /** The finaliser permutes the 64-bit values: distinct thread ids keep distinct hashes. */
  lemma FinaliseIsInjective(g: nat, h: nat)
    requires g < TWO_64 && h < TWO_64
    ensures Finalise(g) == Finalise(h) <==> g == h
  {
    FinaliseRoundTrip(g);
    FinaliseRoundTrip(h);
  }

  // ---------------------------------------------------------------- masks

  lemma TwoPowersDivide(k: nat) returns (p: nat)
    requires k <= 64
    ensures TWO_64 == p * Pow2(k)
  {
    p := Pow2(64 - k);
    Pow2Splits(64 - k, k);
    TwoTo64();
  }

  /** A register masked with `2^k - 1` is the remainder of the counter, negative ones included. */
  lemma MaskIsRemainder(x: int, k: nat)
    requires k <= 64
    ensures And(Residue(x), Pow2(k) - 1) == x % Pow2(k)
  {
    AndLowOnes(Residue(x), k);
    var p := TwoPowersDivide(k);
    var q := Split(x, TWO_64);
    assert x == q * TWO_64 + Residue(x);
    assert q * (p * Pow2(k)) == (q * p) * Pow2(k);
    MultipleAdded(Residue(x), q * p, Pow2(k));
  }

  /** The register without the masked bits is that of the counter rounded down to a multiple of `2^k`. */
  lemma MaskRoundsDown(x: int, k: nat)
    requires k <= 64
    ensures Residue(x) - And(Residue(x), Pow2(k) - 1) == Residue(x - x % Pow2(k))
  {
    MaskIsRemainder(x, k);
    AndLowOnes(Residue(x), k);
    var q := Split(x, TWO_64);
    RemainderAtMost(Residue(x), Pow2(k));
    RemainderIsUnique(x - x % Pow2(k), TWO_64, q, Residue(x) - x % Pow2(k));
  }

  lemma RemainderAtMost(x: nat, m: nat)
    requires m > 0
    ensures x % m <= x
  {
    var q := x / m;
    if q < 1 { assert x == x % m; }
  }

  /** The slot of `get_block_index_index_for_index`, from an offset that is negative as a number. */
  lemma MaskedSlot(tail: nat, offset: int, k: nat)
    requires k <= 64
    ensures And(Residue(tail + Residue(offset)), Pow2(k) - 1) == (tail + offset) % Pow2(k)
  {
    AddReduced(offset, tail, TWO_64);
    assert Residue(tail + Residue(offset)) == Residue(tail + offset);
    MaskIsRemainder(tail + offset, k);
  }

  // ---------------------------------------------------------------- ceil_to_pow_2

  ghost predicate IsLeastPower(x: nat, r: nat) {
    exists k: nat :: r == Pow2(k) && x <= r && forall j: nat :: x <= Pow2(j) ==> k <= j
  }

  /**
    `ceil_to_pow_2<std::uint64_t>`: the least power of two not below `x` when that fits in 64 bits,
    and 0, by wrap-around, in the remaining cases.
   */
  method CeilToPow2(x: nat) returns (r: nat)
    requires x < TWO_64
    ensures if 1 <= x <= TWO_63 then IsLeastPower(x, r) else r == 0
  {
    var y := Residue(x - 1);
    ghost var y0 := y;
    ghost var w := StartSmear(y);
    y := OrShifted(y, 1, w);
    y := OrShifted(y, 2, w);
    y := OrShifted(y, 4, w);
    var i := 1;
    while i < 8
      invariant i == 1 || i == 2 || i == 4 || i == 8
      invariant TopOnes(y, w, AtMost(8 * i, w))
    {
      y := OrShifted(y, 8 * i, w);
      i := 2 * i;
    }
    r := Residue(y + 1);
    LeastPower(x, y0, w);
  }

  /** `y |= y >> s`. */
  method OrShifted(y: nat, s: nat, ghost w: nat) returns (z: nat)
    requires TopOnes(y, w, AtMost(s, w))
    ensures TopOnes(z, w, AtMost(2 * s, w))
  {
    SmearTo(y, w, s);
    z := Or(y, ShiftRight(y, s));
  }

  lemma TwoTo63()
    ensures Pow2(63) == TWO_63
  {
    TwoTo64();
  }

  lemma StartSmear(y: nat) returns (w: nat)
    requires y < TWO_64
    ensures if y == 0 then w == 0 else w >= 1 && Pow2(w - 1) <= y < Pow2(w)
    ensures w <= 64 && TopOnes(y, w, AtMost(1, w))
  {
    if y == 0 {
      w := 0;
    } else {
      w := Width(y);
      TopBit(y, w);
      TwoTo64();
      if w > 64 { Pow2Monotone(64, w - 1); }
    }
  }

  function AtMost(a: nat, b: nat): nat { if a <= b then a else b }

  /** A smearing step by `s` when at least `s`, or all, of the top bits are ones already. */
  lemma SmearTo(y: nat, w: nat, s: nat)
    requires TopOnes(y, w, AtMost(s, w))
    ensures TopOnes(Or(y, ShiftRight(y, s)), w, AtMost(2 * s, w))
  {
    if s <= w {
      Smear(y, w, s);
    } else {
      assert y == Pow2(w) - 1;
      Pow2Monotone(w, s);
      ShiftBound(y, s, 0);
      OrZero(y);
    }
  }

  lemma LeastPower(x: nat, y: nat, w: nat)
    requires x < TWO_64 && y == Residue(x - 1) && w <= 64
    requires if y == 0 then w == 0 else w >= 1 && Pow2(w - 1) <= y < Pow2(w)
    ensures if 1 <= x <= TWO_63 then IsLeastPower(x, Residue(Pow2(w))) else Residue(Pow2(w)) == 0
  {
    TwoTo63();
    if 1 <= x <= TWO_63 {
      assert y == x - 1;
      if w == 64 { assert false; }
      Pow2Monotone(w, 63);
      forall j: nat | x <= Pow2(j) ensures w <= j {
        if j < w { Pow2Monotone(j, w - 1); }
      }
    } else {
      assert y >= TWO_63;
      if w < 64 { Pow2Monotone(w, 63); }
      TwoTo64();
    }
  }
}
