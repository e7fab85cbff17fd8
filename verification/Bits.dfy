/** Machine words, shifts and masks, and numbers and bytes as bit strings, most significant bit first. */
module Bits {
  type byte = x: int | 0 <= x < 256
  type bits = seq<bool>

  const WORD := 0x1_0000_0000

  function Pow2(n: nat): (p: nat)
    ensures p > 0
  {
    if n == 0 then 1 else 2 * Pow2(n - 1)
  }

  /** `v << n` */
  function Shl(v: nat, n: nat): nat {
    if n == 0 then v else 2 * Shl(v, n - 1)
  }

  /** `v >> n` */
  function Shr(v: nat, n: nat): nat {
    if n == 0 then v else Shr(v / 2, n - 1)
  }

  /** `v & ((1 << n) - 1)` */
  function Low(v: nat, n: nat): (r: nat)
    ensures r < Pow2(n)
  {
    if n == 0 then 0 else 2 * Low(v / 2, n - 1) + v % 2
  }

  lemma Pow2Consts()
    ensures Pow2(1) == 2 && Pow2(3) == 8 && Pow2(5) == 32 && Pow2(8) == 256 && Pow2(15) == 0x8000
    ensures Pow2(24) == 0x100_0000 && Pow2(32) == WORD
  {
    assert Pow2(4) == 16;
    assert Pow2(12) == 0x1000;
    assert Pow2(20) == 0x10_0000;
    assert Pow2(28) == 0x1000_0000;
  }

  lemma {:induction false} Pow2Mono(a: nat, b: nat)
    requires a <= b
    ensures Pow2(a) <= Pow2(b)
  {
    if a < b {
      Pow2Mono(a, b - 1);
    }
  }

  lemma {:induction false} ShlPow2(n: nat)
    ensures Shl(1, n) == Pow2(n)
  {
    if n > 0 {
      ShlPow2(n - 1);
    }
  }

  lemma {:induction false} ShlBound(v: nat, n: nat, m: nat)
    requires v < Pow2(m)
    ensures Shl(v, n) < Pow2(m + n)
  {
    if n > 0 {
      ShlBound(v, n - 1, m);
    }
  }

  lemma {:induction false} ShrBound(v: nat, n: nat, m: nat)
    requires v < Pow2(m + n)
    ensures Shr(v, n) < Pow2(m)
  {
    if n > 0 {
      ShrBound(v / 2, n - 1, m);
    }
  }

  /** `n` zero bits. */
  function Zeros(n: nat): (b: bits)
    ensures |b| == n && forall i :: 0 <= i < n ==> !b[i]
  {
    seq(n, i => false)
  }

  /** The low `n` bits of `v`. */
  function NatBits(n: nat, v: nat): (b: bits)
    ensures |b| == n
  {
    if n == 0 then [] else NatBits(n - 1, v / 2) + [v % 2 == 1]
  }

  function BitsNat(b: bits): (v: nat)
    ensures v < Pow2(|b|)
  {
    if b == [] then 0 else 2 * BitsNat(b[..|b| - 1]) + (if b[|b| - 1] then 1 else 0)
  }

  lemma {:induction false} NatOfNatBits(n: nat, v: nat)
    requires v < Pow2(n)
    ensures BitsNat(NatBits(n, v)) == v
  {
    if n > 0 {
      NatOfNatBits(n - 1, v / 2);
      assert NatBits(n, v)[..n - 1] == NatBits(n - 1, v / 2);
    }
  }

  lemma {:induction false} BitsOfBitsNat(b: bits)
    ensures NatBits(|b|, BitsNat(b)) == b
  {
    if b != [] {
      BitsOfBitsNat(b[..|b| - 1]);
    }
  }

  lemma {:induction false} NatBitsZero(n: nat)
    ensures NatBits(n, 0) == Zeros(n)
  {
    if n > 0 {
      NatBitsZero(n - 1);
    }
  }

  /** A wider word's leading bits are those of the word shifted right. */
  lemma {:induction false} ShrBits(w: nat, v: nat, d: nat)
    requires d <= w
    ensures NatBits(w - d, Shr(v, d)) == NatBits(w, v)[..w - d]
  {
    if d > 0 {
      ShrBits(w - 1, v / 2, d - 1);
      assert NatBits(w, v)[..w - d] == NatBits(w - 1, v / 2)[..w - d];
    }
  }

  /** Narrowing keeps the trailing bits. */
  lemma {:induction false} NarrowBits(w: nat, n: nat, v: nat)
    requires n <= w
    ensures NatBits(n, v) == NatBits(w, v)[w - n..]
  {
    if n > 0 {
      NarrowBits(w - 1, n - 1, v / 2);
      assert NatBits(w, v)[w - n..] == NatBits(w - 1, v / 2)[w - n..] + [v % 2 == 1];
    } else {
      assert NatBits(w, v)[w..] == [];
    }
  }

  lemma {:induction false} LowBits(n: nat, v: nat)
    ensures NatBits(n, Low(v, n)) == NatBits(n, v)
  {
    if n > 0 {
      LowBits(n - 1, v / 2);
    }
  }

  lemma {:induction false} ShlBits(n: nat, v: nat, s: nat)
    ensures NatBits(n + s, Shl(v, s)) == NatBits(n, v) + Zeros(s)
  {
    if s > 0 {
      ShlBits(n, v, s - 1);
      assert Zeros(s) == Zeros(s - 1) + [false];
    } else {
      assert NatBits(n, v) + Zeros(0) == NatBits(n, v);
    }
  }

  /** Adding into low bits that are all zero (a bitwise "or") writes them. */
  lemma {:induction false} AddIntoZeros(w: nat, a: nat, n: nat, v: nat)
    requires n <= w && v < Pow2(n)
    requires NatBits(w, a)[w - n..] == Zeros(n)
    ensures NatBits(w, a + v) == NatBits(w, a)[..w - n] + NatBits(n, v)
  {
    var A := NatBits(w, a);
    if n == 0 {
      assert A[..w] + [] == A;
    } else {
      assert A[w - 1] == A[w - n..][n - 1];
      var B := NatBits(w - 1, a / 2);
      assert B[w - n..] == A[w - n..][..n - 1] == Zeros(n - 1);
      AddIntoZeros(w - 1, a / 2, n - 1, v / 2);
      assert B[..w - n] == A[..w - n];
      assert (a + v) / 2 == a / 2 + v / 2 && (a + v) % 2 == v % 2;
    }
  }

  function ByteBits(s: seq<byte>): (b: bits)
    ensures |b| == 8 * |s|
  {
    if s == [] then [] else ByteBits(s[..|s| - 1]) + NatBits(8, s[|s| - 1])
  }

  lemma ByteBitsOne(c: byte)
    ensures ByteBits([c]) == NatBits(8, c)
  {
    assert [c][..0] == [];
  }

  lemma {:induction false} ByteBitsConcat(a: seq<byte>, b: seq<byte>)
    ensures ByteBits(a + b) == ByteBits(a) + ByteBits(b)
  {
    if b == [] {
      assert a + b == a;
    } else {
      hide NatBits;
      ByteBitsConcat(a, b[..|b| - 1]);
      assert (a + b)[..|a + b| - 1] == a + b[..|b| - 1];
    }
  }
}
