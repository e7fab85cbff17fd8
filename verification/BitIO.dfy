/** The bit buffer of the compressor and the one of the decompressor. */
module BitIO {
  import opened Bits

  /** The width of the bit buffers. */
  const BUFFER_WIDTH := 32

  /** A 32-bit register as its bits. */
  ghost function Word(b: nat): (w: bits)
    ensures |w| == 32
  {
    NatBits(BUFFER_WIDTH, b)
  }

  /** `b <<= 8` drops the first byte of a word and brings in zeros. */
  lemma ShiftLeft8(b: nat)
    ensures Word(Low(Shl(b, 8), 32)) == Word(b)[8..] + Zeros(8)
  {
    var c := Shl(b, 8);
    ShlBits(32, b, 8);
    NarrowBits(40, 32, c);
    LowBits(32, c);
    assert (Word(b) + Zeros(8))[8..] == Word(b)[8..] + Zeros(8);
  }

  lemma TopByte(b: nat)
    requires b < WORD
    ensures Shr(b, 24) < 256 && NatBits(8, Shr(b, 24)) == Word(b)[..8]
  {
    Pow2Consts();
    ShrBits(32, b, 24);
    ShrBound(b, 24, 8);
  }

  /** `b |= v << (32 - live - n)` writes `v` after the first `live` bits when the rest are zero. */
  lemma OrInto(b: nat, live: nat, n: nat, v: nat)
    requires live + n <= 32 && v < Pow2(n) && b < WORD
    requires Word(b)[live..] == Zeros(32 - live)
    ensures Word(b + Shl(v, 32 - live - n)) == Word(b)[..live] + NatBits(n, v) + Zeros(32 - live - n)
  {
    var s := 32 - live - n;
    ShlBound(v, s, n);
    AddIntoZeros(32, b, n + s, Shl(v, s));
    ShlBits(n, v, s);
  }

  /** Adding below a word whose low bits are zero cannot carry out of it. */
  lemma OrFits(b: nat, live: nat, v: nat)
    requires live <= 32 && b < WORD && v < Pow2(32 - live)
    requires Word(b)[live..] == Zeros(32 - live)
    ensures b + v < WORD
  {
    Pow2Consts();
    OrFitsPow(32, b, 32 - live, v);
  }

  lemma {:induction false} OrFitsPow(w: nat, a: nat, n: nat, v: nat)
    requires n <= w && v < Pow2(n) && a < Pow2(w)
    requires NatBits(w, a)[w - n..] == Zeros(n)
    ensures a + v < Pow2(w)
  {
    if n > 0 {
      var A, B := NatBits(w, a), NatBits(w - 1, a / 2);
      assert A[w - 1] == A[w - n..][n - 1];
      assert B[w - n..] == A[w - n..][..n - 1] == Zeros(n - 1);
      OrFitsPow(w - 1, a / 2, n - 1, v / 2);
    }
  }

  /** `b = (b << 8) | c` keeps the low `live` bits and appends the byte. */
  lemma AppendByte(b: nat, live: nat, c: byte)
    requires live <= 24
    ensures Low(Shl(b, 8), 32) + c < WORD
    ensures Word(Low(Shl(b, 8), 32) + c)[24 - live..] == Word(b)[32 - live..] + NatBits(8, c)
  {
    hide NatBits, Shl, Low;
    var d := Low(Shl(b, 8), 32);
    Pow2Consts();
    ShiftLeft8(b);
    assert Word(d)[24..] == Zeros(8);
    AddIntoZeros(32, d, 8, c);
    OrFits(d, 24, c);
    assert Word(d)[..24] == Word(b)[8..];
    assert (Word(b)[8..] + NatBits(8, c))[24 - live..] == Word(b)[8..][24 - live..] + NatBits(8, c);
  }

  /** `(b >> (live - n)) & ((1 << n) - 1)` is the number on the first `n` of the low `live` bits. */
  lemma TakeField(w: nat, b: nat, live: nat, n: nat)
    requires n <= live <= w
    ensures Low(Shr(b, live - n), n) == BitsNat(NatBits(w, b)[w - live..][..n])
  {
    var d := live - n;
    var f := Shr(b, d);
    var v := Low(f, n);
    ShrBits(w, b, d);
    NarrowBits(w - d, n, f);
    LowBits(n, f);
    NatOfNatBits(n, v);
    assert NatBits(w, b)[..w - d][w - d - n..] == NatBits(w, b)[w - live..][..n];
  }

  /** Taking the first byte out of a buffer with `live` bits in use. */
  lemma TopByteOut(b: nat, live: nat)
    requires b < WORD && 8 <= live <= 32 && Word(b)[live..] == Zeros(32 - live)
    ensures var c := Low(Shl(b, 8), 32);
      && c < WORD && Word(c)[live - 8..] == Zeros(40 - live) && Shr(b, 24) < 256
      && NatBits(8, Shr(b, 24)) + Word(c)[..live - 8] == Word(b)[..live]
  {
    var w := Word(b);
    TopByte(b);
    ShiftLeft8(b);
    Pow2Consts();
    assert w[..live] == w[..8] + w[8..][..live - 8];
    assert w[8..][live - 8..] == w[live..];
    assert (w[8..] + Zeros(8))[live - 8..] == w[8..][live - 8..] + Zeros(8);
  }

  lemma StreamMoves(z: seq<byte>, c: byte, rest: bits, whole: bits)
    requires NatBits(8, c) + rest == whole
    ensures ByteBits(z + [c]) + rest == ByteBits(z) + whole
  {
    ByteBitsOne(c);
    ByteBitsConcat(z, [c]);
    assert ByteBits(z) + NatBits(8, c) + rest == ByteBits(z) + (NatBits(8, c) + rest);
  }

  lemma StreamPulls(kept: bits, c: byte, input: seq<byte>, next: nat)
    requires next < |input| && input[next] == c
    ensures kept + ByteBits(input[next..]) == (kept + NatBits(8, c)) + ByteBits(input[next + 1..])
  {
    var rest := input[next + 1..];
    assert input[next..] == [c] + rest;
    ByteBitsConcat([c], rest);
    ByteBitsOne(c);
    assert kept + (NatBits(8, c) + ByteBits(rest)) == (kept + NatBits(8, c)) + ByteBits(rest);
  }

  /** How many of `total` bits stay in the buffer when the last field written has `tail` of them. */
  function LiveBits(total: nat, tail: nat): nat {
    if tail <= total then (total - tail) % 8 + tail else total % 8
  }

  /** The writing half of `EState`: bits not yet bytes are the first `bsLive` bits of `bsBuff`, the rest is zero. */
  class BitWriter {
    var bsBuff: nat
    var bsLive: int
    var zbits: seq<byte>

    ghost predicate Valid()
      reads this
    {
      0 <= bsLive <= 31 && bsBuff < WORD && Word(bsBuff)[bsLive..] == Zeros(32 - bsLive)
    }

    /** Every bit written so far. */
    ghost function Stream(): bits
      reads this
      requires 0 <= bsLive <= 32
    {
      ByteBits(zbits) + Word(bsBuff)[..bsLive]
    }

    /** `BZ2_bsInitWrite` */
    constructor ()
      ensures Valid() && zbits == [] && Stream() == []
    {
      bsBuff, bsLive, zbits := 0, 0, [];
      new;
      NatBitsZero(32);
    }

    /** `BZ2_bzCompressRestoreOutputState`: takes over another writer's unfinished bits. */
    constructor Restore(buff: nat, live: nat)
      requires live <= 31 && buff < WORD && Word(buff)[live..] == Zeros(32 - live)
      ensures Valid() && zbits == [] && bsBuff == buff && bsLive == live
    {
      bsBuff, bsLive, zbits := buff, live, [];
    }

    /** One round of the loop of `bsNEEDW`. */
    method EmitByte()
      requires Valid() && bsLive >= 8
      modifies this
      ensures Valid() && bsLive == old(bsLive) - 8 && Stream() == old(Stream())
      ensures |zbits| == old(|zbits|) + 1 && old(zbits) <= zbits
    {
      TopByteOut(bsBuff, bsLive);
      var c, b := Shr(bsBuff, 24), Low(Shl(bsBuff, 8), 32);
      StreamMoves(zbits, c, Word(b)[..bsLive - 8], Word(bsBuff)[..bsLive]);
      zbits, bsBuff, bsLive := zbits + [c], b, bsLive - 8;
    }

    /** `bsNEEDW`: less than a byte stays in the buffer. */
    method Drain()
      requires Valid()
      modifies this
      ensures Valid() && Stream() == old(Stream()) && bsLive == |Stream()| % 8 && old(zbits) <= zbits
    {
      while bsLive >= 8
        invariant Valid() && Stream() == old(Stream()) && old(zbits) <= zbits
        decreases bsLive
      {
        EmitByte();
      }
    }

    /** `bsW`: appends the `n` bits of `v`. */
    method Write(n: nat, v: nat)
      requires Valid() && n <= 24 && v < Pow2(n)
      modifies this
      ensures Valid() && Stream() == old(Stream()) + NatBits(n, v) && bsLive == LiveBits(|Stream()|, n)
      ensures old(zbits) <= zbits
    {
      hide NatBits, Shl, ByteBits;
      Drain();
      ghost var s := 32 - bsLive - n;
      OrInto(bsBuff, bsLive, n, v);
      ShlBound(v, s, n);
      OrFits(bsBuff, bsLive, Shl(v, s));
      bsBuff := bsBuff + Shl(v, 32 - bsLive - n);
      bsLive := bsLive + n;
    }

    /** `bsFinishWrite`: pads with zero bits up to a byte boundary. */
    method Finish()
      requires Valid()
      modifies this
      ensures |zbits| == (|old(Stream())| + 7) / 8 && old(zbits) <= zbits
      ensures ByteBits(zbits) == old(Stream()) + Zeros(8 * |zbits| - |old(Stream())|)
    {
      Drain();
      if bsLive > 0 {
        // the byte is completed by the zero bits below the live ones
        ghost var w, l := Word(bsBuff), bsLive;
        TopByte(bsBuff);
        ByteBitsOne(Shr(bsBuff, 24));
        ByteBitsConcat(zbits, [Shr(bsBuff, 24)]);
        assert w[..8] == w[..l] + w[l..][..8 - l];
        zbits := zbits + [Shr(bsBuff, 24)];
        bsBuff := Low(Shl(bsBuff, 8), 32);
        bsLive := bsLive - 8;
      }
    }
  }

  /** The reading half of `DState`: unread bits are the last `bsLive` bits of `bsBuff`, then `input[next..]`. */
  class BitReader {
    var bsBuff: nat
    var bsLive: nat
    var input: seq<byte>
    var next: nat

    ghost predicate Valid()
      reads this
    {
      bsLive <= 32 && bsBuff < WORD && next <= |input|
    }

    ghost function Remaining(): bits
      reads this
      requires Valid()
    {
      Word(bsBuff)[32 - bsLive..] + ByteBits(input[next..])
    }

    constructor (data: seq<byte>)
      ensures Valid() && Remaining() == ByteBits(data) && input == data && next == 0
    {
      bsBuff, bsLive, input, next := 0, 0, data, 0;
      new;
      assert input[0..] == data;
    }

    /** The caller supplies more input after what is not yet read. */
    method Feed(data: seq<byte>)
      requires Valid()
      modifies this
      ensures Valid() && Remaining() == old(Remaining()) + ByteBits(data)
    {
      ByteBitsConcat(input[next..], data);
      input, next := input[next..] + data, 0;
      assert input[next..] == old(input[next..]) + data;
    }

    /** The refilling half of the loop of `GET_BITS`. */
    method PullByte()
      requires Valid() && bsLive <= 24 && next < |input|
      modifies this
      ensures Valid() && Remaining() == old(Remaining())
      ensures bsLive == old(bsLive) + 8 && next == old(next) + 1 && input == old(input)
    {
      hide NatBits, Shl, Low, ByteBits;
      var c := input[next];
      StreamPulls(Word(bsBuff)[32 - bsLive..], c, input, next);
      AppendByte(bsBuff, bsLive, c);
      bsBuff := Low(Shl(bsBuff, 8), 32) + c;
      bsLive := bsLive + 8;
      next := next + 1;
    }

    /** The taking half: `(bsBuff >> (bsLive - n)) & ((1 << n) - 1)`. */
    method TakeBits(n: nat) returns (v: nat)
      requires Valid() && n <= bsLive
      modifies this
      ensures Valid() && input == old(input) && next == old(next)
      ensures |old(Remaining())| >= n
      ensures v == BitsNat(old(Remaining())[..n]) && Remaining() == old(Remaining())[n..]
    {
      ghost var w := Word(bsBuff)[32 - bsLive..];
      TakeField(32, bsBuff, bsLive, n);
      v := Low(Shr(bsBuff, bsLive - n), n);
      assert old(Remaining())[..n] == w[..n];
      bsLive := bsLive - n;
      assert Word(bsBuff)[32 - bsLive..] == w[n..];
    }

    /** `GET_BITS`: `ok` is false exactly when the input ends first, and then nothing is lost. */
    method GetBits(n: nat) returns (ok: bool, v: nat)
      requires Valid() && n <= 24
      modifies this
      ensures Valid() && input == old(input)
      ensures ok <==> |old(Remaining())| >= n
      ensures ok ==> v == BitsNat(old(Remaining())[..n]) && Remaining() == old(Remaining())[n..]
      ensures !ok ==> Remaining() == old(Remaining()) && next == |input|
    {
      while bsLive < n
        invariant Valid() && Remaining() == old(Remaining()) && input == old(input)
        decreases |input| - next
      {
        if next == |input| {
          assert input[next..] == [];
          return false, 0;
        }
        PullByte();
      }
      v := TakeBits(n);
      ok := true;
    }
  }
}
