/** Integers as octet strings, and the variable-length integers of src/pack.c, which are
    written low octet first and read high octet first. */
module Octets {
  type Octet = x: int | 0 <= x < 256

  function Pow256(k: nat): (p: nat)
    ensures 1 <= p
  {
    if k == 0 then 1 else 256 * Pow256(k - 1)
  }

  /** The low `k` octets of `n`, high octet first. */
  function BE(n: nat, k: nat): (s: seq<Octet>)
    ensures |s| == k
  {
    if k == 0 then [] else BE(n / 256, k - 1) + [n % 256]
  }

  /** The low `k` octets of `n`, low octet first. */
  function LE(n: nat, k: nat): (s: seq<Octet>)
    ensures |s| == k
  {
    if k == 0 then [] else [n % 256] + LE(n / 256, k - 1)
  }

  /** The number an octet string denotes, high octet first. */
  function FromBE(s: seq<Octet>): nat {
    if s == [] then 0 else 256 * FromBE(s[..|s| - 1]) + s[|s| - 1]
  }

  function Reverse(s: seq<Octet>): (r: seq<Octet>)
    ensures |r| == |s|
  {
    if s == [] then [] else Reverse(s[1..]) + [s[0]]
  }

  lemma {:induction false} FromBEofBE(n: nat, k: nat)
    requires n < Pow256(k)
    ensures FromBE(BE(n, k)) == n
  {
    if k > 0 {
      FromBEofBE(n / 256, k - 1);
      assert BE(n, k)[..k - 1] == BE(n / 256, k - 1);
    }
  }

  lemma {:induction false} BEofFromBE(s: seq<Octet>)
    ensures FromBE(s) < Pow256(|s|) && BE(FromBE(s), |s|) == s
  {
    if s != [] {
      var front, last := s[..|s| - 1], s[|s| - 1];
      BEofFromBE(front);
      assert FromBE(s) / 256 == FromBE(front) && FromBE(s) % 256 == last;
      assert s == front + [last];
    }
  }

  lemma {:induction false} LEisReversedBE(n: nat, k: nat)
    ensures LE(n, k) == Reverse(BE(n, k))
  {
    if k > 0 {
      LEisReversedBE(n / 256, k - 1);
      ReverseSnoc(BE(n / 256, k - 1), n % 256);
    }
  }

  lemma {:induction false} ReverseSnoc(s: seq<Octet>, x: Octet)
    ensures Reverse(s + [x]) == [x] + Reverse(s)
  {
    if s != [] {
      ReverseSnoc(s[1..], x);
      assert (s + [x])[1..] == s[1..] + [x];
    } else {
      assert s + [x] == [x] && [x][1..] == [];
    }
  }

  /** Number of octets of `n`; `_trip_uvar_len`. */
  function UvarLen(n: nat): nat {
    if n == 0 then 0 else 1 + UvarLen(n / 256)
  }

  /** `UvarLen(n)` is the least k with n < 256^k. */
  lemma {:induction false} UvarLenLeast(n: nat, k: nat)
    ensures n < Pow256(k) <==> UvarLen(n) <= k
  {
    if n > 0 && k > 0 { UvarLenLeast(n / 256, k - 1); }
  }

  method ComputeUvarLen(n: nat) returns (len: nat)
    ensures forall k: nat :: n < Pow256(k) <==> len <= k
  {
    var m := n;
    len := 0;
    while m > 0
      invariant len + UvarLen(m) == UvarLen(n)
    {
      len := len + 1;
      m := m / 256;
    }
    forall k: nat ensures n < Pow256(k) <==> len <= k { UvarLenLeast(n, k); }
  }

  /** What the reader makes of the variable-length octets the writer produced for `n`. */
  function RevOctets(n: nat): nat {
    FromBE(LE(n, UvarLen(n)))
  }

  /** The variable-integer law: reading back a written integer reverses its octets, so the
      round trip is the identity exactly for integers whose octets read the same both ways. */
  lemma {:induction false} VarIntLaw(n: nat)
    ensures var k := UvarLen(n);
            && n < Pow256(k) && RevOctets(n) < Pow256(k)
            && BE(RevOctets(n), k) == Reverse(BE(n, k))
            && (RevOctets(n) == n <==> BE(n, k) == Reverse(BE(n, k)))
  {
    var k := UvarLen(n);
    UvarLenLeast(n, k);
    LEisReversedBE(n, k);
    BEofFromBE(LE(n, k));
    FromBEofBE(n, k);
  }

  /** Every integer below 256 survives; 256 does not: it is read back as 1. */
  lemma SmallVarInt(n: nat)
    requires n < 256
    ensures RevOctets(n) == n && RevOctets(256) == 1
  {
    if n > 0 {
      assert UvarLen(n) == 1 && LE(n, 1) == [n];
      assert [n][..0] == [];
    }
    assert UvarLen(256) == 2 && LE(256, 2) == [0, 1] by { assert UvarLen(1) == 1; assert LE(1, 1) == [1]; }
    assert [0, 1][..1] == [0] && [0][..0] == [];
    assert FromBE([0]) == 0 && FromBE([0, 1]) == 1;
  }
}
