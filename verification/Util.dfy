/** The two power-of-two roundings of src/util.c. */
module Util {
  import opened Bits

  const MAX_SIZE: nat := 0x4000_0000 // 1 << (8 * sizeof(int) - 2)

  /** Reference definition: round up to a power of two by halving upwards. */
  function CeilPow2(n: nat): nat {
    if n <= 1 then 1 else 2 * CeilPow2((n + 1) / 2)
  }

  /** `CeilPow2(n)` is a power of two, at least `n`, and at most every power of two that is. */
  lemma {:induction false} CeilPow2Least(n: nat, k: nat)
    ensures IsPow2(CeilPow2(n)) && n <= CeilPow2(n)
    ensures n <= Pow2(k) ==> CeilPow2(n) <= Pow2(k)
  {
    if n > 1 {
      CeilPow2Least((n + 1) / 2, if k > 0 then k - 1 else 0);
    }
  }

  /** Characterisation used to recognise the answer: p/2 < n <= p for a power p. */
  lemma {:induction false} CeilPow2Unique(n: nat, k: nat)
    requires n <= Pow2(k) && (k == 0 || Pow2(k - 1) < n)
    ensures CeilPow2(n) == Pow2(k)
  {
    if k > 0 { CeilPow2Unique((n + 1) / 2, k - 1); }
  }

  /** Rounding is idempotent; this is why clearing a connection map keeps its mask. */
  lemma {:induction false} CeilPow2Idempotent(n: nat)
    ensures CeilPow2(CeilPow2(n)) == CeilPow2(n)
  {
    CeilPow2Least(n, 0);
    var k := Exponent(CeilPow2(n));
    CeilPow2Unique(Pow2(k), k);
  }

  /** The top `s` of the low `k` bits of `x` are set and nothing is set above them. */
  ghost predicate TopOnes(x: nat, k: nat, s: nat) {
    x < Pow2(k) && forall i: nat :: i < k <= i + s ==> Bit(x, i)
  }

  lemma {:induction false} TopBit(x: nat, k: nat)
    requires k > 0 && Pow2(k - 1) <= x < Pow2(k)
    ensures Bit(x, k - 1)
  {
    if k > 1 { TopBit(x / 2, k - 1); }
  }

  /** One smear `x |= x >> s` doubles the run of ones at the top. */
  lemma SmearDoubles(x: nat, k: nat, s: nat)
    requires TopOnes(x, k, s)
    ensures TopOnes(Or(x, Shr(x, s)), k, 2 * s)
  {
    ShrLess(x, s);
    OrBound(x, Shr(x, s), k);
    forall i: nat | i < k <= i + 2 * s ensures Bit(Or(x, Shr(x, s)), i) {
      BitOr(x, Shr(x, s), i);
      BitShr(x, s, i);
    }
  }

  lemma {:induction false} BitLength(x: nat, w: nat) returns (k: nat)
    requires 0 < x < Pow2(w)
    ensures 0 < k <= w && Pow2(k - 1) <= x < Pow2(k)
  {
    if Pow2(w - 1) <= x { k := w; } else { k := BitLength(x, w - 1); }
  }

  lemma Pow2Values()
    ensures Pow2(8) == 0x100 && Pow2(31) == 0x8000_0000 && Pow2(30) == MAX_SIZE
    ensures Pow2(63) == TWO_63 && Pow2(64) == TWO_64
  {
    assert Pow2(8) == 0x100;
    assert Pow2(16) == 0x1_0000;
    assert Pow2(24) == 0x100_0000;
    assert Pow2(30) == MAX_SIZE;
    assert Pow2(32) == 0x1_0000_0000;
    assert Pow2(40) == 0x100_0000_0000;
    assert Pow2(48) == 0x1_0000_0000_0000;
    assert Pow2(56) == 0x100_0000_0000_0000;
  }

  /** `near_pwr2_64`: six smears between a decrement and an increment, both modulo 2^64.
      The least power of two at or above `n` when that fits in 64 bits, zero otherwise. */
  method NearPwr2_64(n: nat) returns (r: nat)
    requires n < TWO_64
    ensures r == if 1 <= n <= TWO_63 then CeilPow2(n) else 0
  {
    hide Or, Shr, Bit, CeilPow2, Pow2;
    Pow2Values();
    var x := if n == 0 then TWO_64 - 1 else n - 1;
    ghost var k := 0;
    if x > 0 {
      k := BitLength(x, 64);
      TopBit(x, k);
    }
    SmearDoubles(x, k, 1);
    x := Or(x, Shr(x, 1));
    SmearDoubles(x, k, 2);
    x := Or(x, Shr(x, 2));
    SmearDoubles(x, k, 4);
    x := Or(x, Shr(x, 4));
    SmearDoubles(x, k, 8);
    x := Or(x, Shr(x, 8));
    SmearDoubles(x, k, 16);
    x := Or(x, Shr(x, 16));
    SmearDoubles(x, k, 32);
    x := Or(x, Shr(x, 32));
    AllOnes(x, k);
    r := (x + 1) % TWO_64;
    if 1 <= n <= TWO_63 {
      if k == 64 { assert false; }
      Pow2Mono(k, 63);
      CeilPow2Unique(n, k);
    } else {
      if k < 64 { Pow2Mono(k, 63); assert false; }
    }
  }

  /** `near_pwr2`, the doubling loop on a C `int`: agrees with `NearPwr2_64` for
      1 <= n <= 2^30, gives 1 below and saturates at 2^30 above. */
  method NearPwr2(n: int) returns (r: nat)
    requires -0x8000_0000 <= n < 0x8000_0000
    ensures r == if n < 1 then 1 else if n <= MAX_SIZE then CeilPow2(n) else MAX_SIZE
  {
    Pow2Values();
    if n < 1 { return 1; }
    PowerOfTwoTest(n);
    if And(n, n - 1) == 0 {
      ghost var k := Exponent(n);
      CeilPow2Unique(n, k);
      if k >= 31 { Pow2Mono(31, k); assert false; }
      Pow2Mono(k, 30);
      return n;
    }
    if n > MAX_SIZE { return MAX_SIZE; }
    var p := 1;
    ghost var k := 0;
    while p < n
      invariant p == Pow2(k) && (k == 0 || Pow2(k - 1) < n)
      invariant k <= 30
      decreases 30 - k
    {
      if k == 30 { assert false; }
      p := 2 * p;
      k := k + 1;
    }
    CeilPow2Unique(n, k);
    r := p;
  }
}
