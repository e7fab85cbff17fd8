/** The 32-bit checksums of blocks and streams. */
module Crc {
  import opened Bits

  type word = w: int | 0 <= w < WORD

  const POLY := 0x04c1_1db7

  function Xor(a: nat, b: nat): nat
    decreases a + b
  {
    if a == 0 && b == 0 then 0 else (a % 2 + b % 2) % 2 + 2 * Xor(a / 2, b / 2)
  }

  lemma {:induction false} XorBound(a: nat, b: nat, n: nat)
    requires a < Pow2(n) && b < Pow2(n)
    ensures Xor(a, b) < Pow2(n)
  {
    if n > 0 {
      XorBound(a / 2, b / 2, n - 1);
    }
  }

  function XorWord(a: word, b: word): word {
    Pow2Consts();
    XorBound(a, b, 32);
    Xor(a, b)
  }

  const WIDTH := 32

  const BYTE_WIDTH := 8

  /** `w << n` in 32 bits. */
  function Left(w: word, n: nat): word {
    Pow2Consts();
    Low(Shl(w, n), WIDTH)
  }

  /** Entry `i` of the checksum table, as the polynomial division it tabulates. */
  function Divide(w: word, rounds: nat): word
    decreases rounds
  {
    if rounds == 0 then w
    else Divide(if w >= WORD / 2 then XorWord(Left(w, 1), POLY) else Left(w, 1), rounds - 1)
  }

  /** `BZ_UPDATE_CRC` */
  function Update(crc: word, c: byte): word {
    var i := Low(Xor(Shr(crc, WIDTH - BYTE_WIDTH), c), BYTE_WIDTH);
    XorWord(Left(crc, BYTE_WIDTH), Divide(Left(i, WIDTH - BYTE_WIDTH), BYTE_WIDTH))
  }

  const INITIAL: word := WORD - 1

  /** `BZ_FINALISE_CRC` */
  function Finalise(crc: word): word {
    WORD - 1 - crc
  }

  /** The running checksum after more bytes. */
  function Updates(crc: word, s: seq<byte>): word {
    if s == [] then crc else Update(Updates(crc, s[..|s| - 1]), s[|s| - 1])
  }

  lemma UpdatesOne(crc: word, c: byte)
    ensures Updates(crc, [c]) == Update(crc, c)
  {
    assert [c][..0] == [];
  }

  lemma {:induction false} UpdatesConcat(crc: word, s: seq<byte>, t: seq<byte>)
    ensures Updates(crc, s + t) == Updates(Updates(crc, s), t)
  {
    if t == [] {
      assert s + t == s;
    } else {
      hide Update;
      UpdatesConcat(crc, s, t[..|t| - 1]);
      assert (s + t)[..|s + t| - 1] == s + t[..|t| - 1];
    }
  }

  /** The checksum stored for a block holding `s`. */
  function BlockCrc(s: seq<byte>): word {
    Finalise(Updates(INITIAL, s))
  }

  /** `(crc << 1) | (crc >> 31)`, then the block's checksum. */
  function Combine(crc: word, block: word): word {
    XorWord(Rotate(crc), block)
  }

  function Rotate(crc: word): word {
    if crc >= WORD / 2 then 2 * crc - WORD + 1 else 2 * crc
  }

  /** The combined checksum of a stream with these block checksums. */
  function CombineAll(crcs: seq<word>): word {
    if crcs == [] then 0 else Combine(CombineAll(crcs[..|crcs| - 1]), crcs[|crcs| - 1])
  }

  // Words bit by bit, the most significant bit first.

  /** Bit by bit, `Xor` is "differs". */
  lemma {:induction false} XorBits(n: nat, a: nat, b: nat, i: nat)
    requires i < n
    ensures NatBits(n, Xor(a, b))[i] <==> NatBits(n, a)[i] != NatBits(n, b)[i]
  {
    assert Xor(a, b) % 2 == (a % 2 + b % 2) % 2 && Xor(a, b) / 2 == Xor(a / 2, b / 2);
    if i < n - 1 { XorBits(n - 1, a / 2, b / 2, i); }
  }

  lemma {:induction false} TopBit(n: nat, a: nat)
    requires n > 0 && a < Pow2(n)
    ensures NatBits(n, a)[0] <==> a >= Pow2(n - 1)
  {
    if n > 1 { TopBit(n - 1, a / 2); }
  }

  lemma {:induction false} BitsAbove(n: nat, a: nat)
    ensures NatBits(n, a + Pow2(n)) == NatBits(n, a)
  {
    if n > 0 {
      BitsAbove(n - 1, a / 2);
      assert (a + Pow2(n)) / 2 == a / 2 + Pow2(n - 1) && (a + Pow2(n)) % 2 == a % 2;
    }
  }

  /** Bits move up one place, and the first comes in at the end. */
  lemma RotateBits(a: word, i: nat)
    requires i < WIDTH
    ensures NatBits(WIDTH, Rotate(a))[i] <==> NatBits(WIDTH, a)[(i + 1) % WIDTH]
  {
    hide NatBits;
    Pow2Consts();
    assert Pow2(WIDTH - 1) == WORD / 2;
    RotateIn(WIDTH, a, i);
  }

  lemma RotateIn(n: nat, a: nat, i: nat)
    requires i < n && a < Pow2(n)
    ensures var half := Pow2(n - 1);
      NatBits(n, if a >= half then 2 * a - 2 * half + 1 else 2 * a)[i] <==>
        NatBits(n, a)[if i == n - 1 then 0 else i + 1]
  {
    var half, m := Pow2(n - 1), n - 1;
    TopBit(n, a);
    NarrowBits(n, m, a);
    var low := if a >= half then a - half else a;
    if a >= half { BitsAbove(m, a - half); }
    var r := 2 * low + if a >= half then 1 else 0;
    assert r / 2 == low && NatBits(n, r) == NatBits(m, low) + [r % 2 == 1];
    if i < m { assert NatBits(n, a)[1..][i] == NatBits(n, a)[i + 1]; }
  }

  /**
   * How many of the first `n` checksums have a bit set in the place that ends up as bit `i` when all are combined: the
   * last one's bit `i`, the next bit of the one before, and so on around.
   */
  function BitsSet(crcs: seq<word>, i: nat, n: nat): nat
    requires n <= |crcs|
  {
    if n == 0 then 0
    else
      var k := n - 1;
      BitsSet(crcs, i, k) + if NatBits(WIDTH, crcs[k])[(i + |crcs| - 1 - k) % WIDTH] then 1 else 0
  }

  lemma {:induction false} BitsSetInit(crcs: seq<word>, i: nat, n: nat)
    requires i < WIDTH && n < |crcs|
    ensures BitsSet(crcs, i, n) == BitsSet(crcs[..|crcs| - 1], (i + 1) % WIDTH, n)
  {
    hide NatBits;
    if n > 0 {
      BitsSetInit(crcs, i, n - 1);
      Around(i, |crcs| - 1 - n);
    }
  }

  lemma Around(i: nat, j: nat)
    ensures (i + 1 + j) % WIDTH == ((i + 1) % WIDTH + j) % WIDTH
  {
  }

  /** Bit `i` of the combined checksum is a parity over all blocks. */
  lemma {:induction false} CombinedBit(crcs: seq<word>, i: nat)
    requires i < WIDTH
    ensures NatBits(WIDTH, CombineAll(crcs))[i] <==> BitsSet(crcs, i, |crcs|) % 2 == 1
  {
    hide NatBits, Xor, Rotate;
    if crcs == [] {
      NatBitsZero(WIDTH);
    } else {
      var init, crc := crcs[..|crcs| - 1], crcs[|crcs| - 1];
      CombinedBit(init, (i + 1) % WIDTH);
      BitsSetInit(crcs, i, |init|);
      RotateBits(CombineAll(init), i);
      XorBits(WIDTH, Rotate(CombineAll(init)), crc, i);
    }
  }
}
