/** Bitwise operators on naturals, and the facts about them that the masks and
    shifts of src/util.c and src/connmap.c rest on. A C unsigned operator is the
    operator here on naturals below the type's bound; wrap-around is written at
    the place where it can happen. */
module Bits {
  const TWO_63: nat := 0x8000_0000_0000_0000
  const TWO_64: nat := 0x1_0000_0000_0000_0000

  function Pow2(k: nat): (p: nat)
    ensures 1 <= p
  {
    if k == 0 then 1 else 2 * Pow2(k - 1)
  }

  predicate IsPow2(n: nat) {
    n == 1 || (n > 0 && n % 2 == 0 && IsPow2(n / 2))
  }

  /** The exponent of a power of two. */
  lemma {:induction false} Exponent(n: nat) returns (k: nat)
    requires IsPow2(n)
    ensures n == Pow2(k)
  {
    if n == 1 {
      k := 0;
    } else {
      k := Exponent(n / 2);
      k := k + 1;
    }
  }

  lemma {:induction false} Pow2IsPow2(k: nat)
    ensures IsPow2(Pow2(k))
  {
    if k > 0 { Pow2IsPow2(k - 1); }
  }

  /** Bit `i` of `n`, counted from the low end. */
  predicate Bit(n: nat, i: nat) {
    if i == 0 then n % 2 == 1 else Bit(n / 2, i - 1)
  }

  function Shr(n: nat, s: nat): nat {
    if s == 0 then n else Shr(n / 2, s - 1)
  }

  function Or(a: nat, b: nat): nat {
    if a == 0 && b == 0 then 0
    else 2 * Or(a / 2, b / 2) + (if a % 2 == 1 || b % 2 == 1 then 1 else 0)
  }

  function And(a: nat, b: nat): nat {
    if a == 0 || b == 0 then 0
    else 2 * And(a / 2, b / 2) + (if a % 2 == 1 && b % 2 == 1 then 1 else 0)
  }

  function Xor(a: nat, b: nat): nat {
    if a == 0 && b == 0 then 0
    else 2 * Xor(a / 2, b / 2) + (if a % 2 != b % 2 then 1 else 0)
  }

  lemma {:induction false} BitZero(i: nat)
    ensures !Bit(0, i)
  {
    if i > 0 { BitZero(i - 1); }
  }

  lemma {:induction false} BitOr(a: nat, b: nat, i: nat)
    ensures Bit(Or(a, b), i) == (Bit(a, i) || Bit(b, i))
  {
    if a == 0 && b == 0 {
      BitZero(i);
    } else if i > 0 {
      BitOr(a / 2, b / 2, i - 1);
    }
  }

  lemma {:induction false} BitShr(n: nat, s: nat, i: nat)
    ensures Bit(Shr(n, s), i) == Bit(n, i + s)
  {
    if s > 0 { BitShr(n / 2, s - 1, i); }
  }

  lemma {:induction false} ShrLess(n: nat, s: nat)
    ensures Shr(n, s) <= n
  {
    if s > 0 { ShrLess(n / 2, s - 1); }
  }

  lemma {:induction false} OrBound(a: nat, b: nat, k: nat)
    requires a < Pow2(k) && b < Pow2(k)
    ensures Or(a, b) < Pow2(k)
  {
    if k > 0 && !(a == 0 && b == 0) { OrBound(a / 2, b / 2, k - 1); }
  }

  /** A number whose low `k` bits are all set, and no other, is 2^k - 1. */
  lemma {:induction false} AllOnes(n: nat, k: nat)
    requires n < Pow2(k)
    requires forall i: nat :: i < k ==> Bit(n, i)
    ensures n == Pow2(k) - 1
  {
    if k > 0 {
      forall i: nat | i < k - 1 ensures Bit(n / 2, i) {
        assert Bit(n, i + 1);
      }
      AllOnes(n / 2, k - 1);
      assert Bit(n, 0);
    }
  }

  lemma {:induction false} Pow2Mono(j: nat, k: nat)
    requires j <= k
    ensures Pow2(j) <= Pow2(k)
    ensures j < k ==> Pow2(j) < Pow2(k)
  {
    if j < k { Pow2Mono(j, k - 1); }
  }

  /** Masking with 2^k - 1 is the remainder modulo 2^k. */
  lemma {:induction false} AndMask(x: nat, k: nat)
    ensures And(x, Pow2(k) - 1) == x % Pow2(k)
  {
    if k > 0 {
      AndMask(x / 2, k - 1);
      var p := Pow2(k - 1);
      assert (Pow2(k) - 1) / 2 == p - 1;
      ModHalf(x, p);
      if x == 0 { assert x % Pow2(k) == 0; }
    }
  }

  lemma ModHalf(x: nat, p: nat)
    requires p >= 1
    ensures x % (2 * p) == 2 * ((x / 2) % p) + x % 2
  {
    var q, r := (x / 2) / p, (x / 2) % p;
    assert x == (2 * p) * q + (2 * r + x % 2);
    ModUnique(x, 2 * p, q, 2 * r + x % 2);
  }

  lemma ModUnique(x: int, m: nat, q: int, r: nat)
    requires 0 < m && r < m && x == m * q + r
    ensures x % m == r && x / m == q
  {
    var d := x / m - q;
    assert m * d == r - x % m;
    assert d >= 1 ==> m * d >= m;
    assert d <= -1 ==> m * d <= m * -1;
  }

  /** Masking with the complement of 2^k - 1 in a `w`-bit word clears the low `k` bits. */
  lemma {:induction false} AndNotMask(x: nat, k: nat, w: nat)
    requires k <= w && x < Pow2(w)
    ensures Pow2(k) <= Pow2(w)
    ensures And(x, Pow2(w) - Pow2(k)) == Cleared(x, Pow2(k))
  {
    hide And, Pow2, Cleared;
    Pow2Mono(k, w);
    if k == 0 {
      AndFull(x, w);
      ClearedNone(x);
    } else {
      Pow2Half(k);
      Pow2Half(w);
      AndNotMask(x / 2, k - 1, w - 1);
      NotMaskStep(x, Pow2(k - 1), Pow2(w - 1));
    }
  }

  /** `x` without its remainder modulo `m`. */
  function Cleared(x: nat, m: nat): int
    requires m > 0
  {
    x - x % m
  }

  lemma ClearedNone(x: nat)
    ensures Pow2(0) == 1 && Cleared(x, 1) == x
  { }

  lemma Pow2Half(k: nat)
    requires k > 0
    ensures Pow2(k) == 2 * Pow2(k - 1) && Pow2(k - 1) >= 1
  { }

  lemma NotMaskStep(x: nat, p: nat, q: nat)
    requires 1 <= p <= q && And(x / 2, q - p) == Cleared(x / 2, p)
    ensures And(x, 2 * q - 2 * p) == Cleared(x, 2 * p)
  {
    hide And;
    ModHalf(x, p);
    AndEven(x, q - p);
  }

  lemma {:induction false} AndEven(x: nat, y: nat)
    ensures And(x, 2 * y) == 2 * And(x / 2, y)
  {
    assert (2 * y) / 2 == y && (2 * y) % 2 == 0;
  }

  lemma {:induction false} AndFull(x: nat, w: nat)
    requires x < Pow2(w)
    ensures And(x, Pow2(w) - 1) == x
  {
    hide And;
    AndMask(x, w);
    ModUnique(x, Pow2(w), 0, x);
  }

  /** Exclusive-or of a low part and a high part is their sum. */
  lemma {:induction false} XorDisjoint(low: nat, high: nat, k: nat)
    requires low < Pow2(k) && high % Pow2(k) == 0
    ensures Xor(low, high) == low + high
  {
    if k == 0 {
      XorZero(high);
    } else {
      ModHalf(high, Pow2(k - 1));
      XorDisjoint(low / 2, high / 2, k - 1);
    }
  }

  lemma {:induction false} XorZero(x: nat)
    ensures Xor(0, x) == x
  {
    if x > 0 { XorZero(x / 2); }
  }

  /** `n & (n - 1)` is zero exactly for powers of two. */
  lemma {:induction false} PowerOfTwoTest(n: nat)
    requires n >= 1
    ensures And(n, n - 1) == 0 <==> IsPow2(n)
  {
    if n % 2 == 1 {
      AndSelf(n / 2);
      assert (n - 1) / 2 == n / 2;
    } else {
      assert (n - 1) / 2 == n / 2 - 1;
      PowerOfTwoTest(n / 2);
    }
  }

  lemma {:induction false} AndSelf(x: nat)
    ensures And(x, x) == x
  {
    if x > 0 { AndSelf(x / 2); }
  }
}
