/** What the decoder accepts: a run that ends in `Done` has read a stream of blocks with good checksums. */
module Accepted {
  import opened Bits
  import opened Crc
  import opened RunLength
  import opened Mtf
  import opened HuffmanCodes
  import opened UndoBwt
  import opened Output
  import opened Resumable
  import opened Decoder
  import opened Format
  import opened FormatReads
  import opened TableReads

  /** The run from `d` with the bits `b` accepts a stream. */
  ghost predicate Accepts(dec: Machine<Dec>, d: Dec, b: bits) {
    Result(dec, d, b).1 == Done
  }

  /** Of the bits `b`, the run from `d` takes `a` without output and goes on from `e` with `rest`; it accepts. */
  ghost predicate Takes(dec: Machine<Dec>, d: Dec, b: bits, a: bits, e: Dec, rest: bits) {
    b == a + rest && Result(dec, d, b) == Result(dec, e, rest) && Accepts(dec, e, rest)
  }

  lemma TakesNothing(dec: Machine<Dec>, d: Dec, b: bits)
    requires Accepts(dec, d, b)
    ensures Takes(dec, d, b, [], d, b)
  {
    assert [] + b == b;
  }

  lemma TakesThen(dec: Machine<Dec>, d: Dec, b: bits, a: bits, e: Dec, rest: bits, a': bits, f: Dec, rest': bits)
    requires Takes(dec, d, b, a, e, rest) && Takes(dec, e, rest, a', f, rest')
    ensures Takes(dec, d, b, a + a', f, rest')
  {
    assert a + (a' + rest') == a + a' + rest';
  }

  /** A state that has given up accepts nothing. */
  lemma GivenUp(dec: Machine<Dec>, e: Dec, b: bits)
    requires IsDecoder(dec) && e.Terminal() && !e.Done?
    ensures !Accepts(dec, e, b)
  {
    assert dec.need(e) == Need(e) == 0;
  }

  /** The next field. */
  lemma TakeField(dec: Machine<Dec>, e: Dec, b: bits) returns (v: nat, rest: bits)
    requires IsDecoder(dec) && Accepts(dec, e, b) && !e.Emitting? && !e.Terminal()
    ensures v < Pow2(Need(e)) && Takes(dec, e, b, NatBits(Need(e), v), Step(e, v), rest) && |rest| < |b|
    ensures !Step(e, v).Failed? && !Step(e, v).Randomised? && !Step(e, v).Overrun?
  {
    hide Step, NatBits, BitsNat;
    var n := Need(e);
    assert dec.need(e) == n > 0;
    v, rest := BitsNat(b[..n]), b[n..];
    BitsOfBitsNat(b[..n]);
    assert b == b[..n] + b[n..];
    assert dec.step(e, v) == Step(e, v);
    if Step(e, v).Terminal() && !Step(e, v).Done? { GivenUp(dec, Step(e, v), rest); }
  }

  /** The next field after others. */
  lemma TakeMore(dec: Machine<Dec>, d: Dec, b: bits, a: bits, e: Dec, left: bits) returns (v: nat, rest: bits)
    requires IsDecoder(dec) && Takes(dec, d, b, a, e, left) && !e.Emitting? && !e.Terminal()
    ensures v < Pow2(Need(e)) && Takes(dec, d, b, a + NatBits(Need(e), v), Step(e, v), rest) && |rest| < |left|
    ensures !Step(e, v).Failed? && !Step(e, v).Randomised? && !Step(e, v).Overrun?
  {
    hide Step, NatBits, Need;
    v, rest := TakeField(dec, e, left);
    TakesThen(dec, d, b, a, e, left, NatBits(Need(e), v), Step(e, v), rest);
  }

  /** A byte. */
  lemma TakeByte(dec: Machine<Dec>, d: Dec, b: bits, cs: seq<nat>, e: Dec, left: bits) returns (v: nat, rest: bits)
    requires IsDecoder(dec) && Takes(dec, d, b, Chars(cs), e, left) && !e.Emitting? && !e.Terminal() && Need(e) == 8
    ensures v < 256 && Takes(dec, d, b, Chars(cs + [v]), Step(e, v), rest) && |rest| < |left|
    ensures !Step(e, v).Failed? && !Step(e, v).Randomised? && !Step(e, v).Overrun?
  {
    hide Step, Need, CharsUpTo;
    v, rest := TakeMore(dec, d, b, Chars(cs), e, left);
    Pow2Consts();
    CharsAnd(cs, v);
  }

  lemma CharsAnd(cs: seq<nat>, c: nat)
    ensures Chars(cs + [c]) == Chars(cs) + Char(c)
  {
    CharsPrefix(cs, c, |cs|);
  }

  lemma NoChars(cs: seq<nat>)
    ensures Chars(cs[..0]) == []
  {
  }

  // The header of the stream.

  lemma HeaderByte(dec: Machine<Dec>, small: bool, b: bits, i: nat, left: bits) returns (rest: bits)
    requires IsDecoder(dec) && i < 3
    requires Takes(dec, Magic(small, 0), b, Chars(HeaderMagic()[..i]), Magic(small, i), left)
    ensures Takes(dec, Magic(small, 0), b, Chars(HeaderMagic()[..i + 1]), Magic(small, i + 1), rest)
  {
    hide CharsUpTo, Takes, IsDecoder;
    var cs, v := HeaderMagic(), 0;
    v, rest := TakeByte(dec, Magic(small, 0), b, cs[..i], Magic(small, i), left);
    assert cs[..i + 1] == cs[..i] + [cs[i]];
  }

  lemma HeaderTaken(dec: Machine<Dec>, small: bool, b: bits) returns (level: nat, rest: bits)
    requires IsDecoder(dec) && Accepts(dec, Magic(small, 0), b)
    ensures 1 <= level <= 9
    ensures Takes(dec, Magic(small, 0), b, HeaderBits(level), BlockMagic(Stream(small, level, 0), 0), rest)
  {
    hide CharsUpTo, Takes, IsDecoder, HeaderMagic, Accepts;
    var d, v, cs := Magic(small, 0), 0, HeaderMagic();
    TakesNothing(dec, d, b);
    NoChars(cs);
    rest := HeaderByte(dec, small, b, 0, b);
    rest := HeaderByte(dec, small, b, 1, rest);
    rest := HeaderByte(dec, small, b, 2, rest);
    assert cs[..3] == cs;
    v, rest := TakeByte(dec, d, b, cs, Magic(small, 3), rest);
    level := v - HDR_0;
    HeaderCharBits(level);
  }

  // The head of a block.

  /** Where the bytes of a magic number lead: `first` by itself leads to `BlockMagic` or `EndMagic`. */
  lemma MagicByte(dec: Machine<Dec>, st: Stream, b: bits, i: nat, left: bits) returns (rest: bits)
    requires IsDecoder(dec) && 0 < i < 6
    requires Takes(dec, BlockMagic(st, 0), b, Chars(BlockStart()[..i]), BlockMagicAt(st, i), left)
    ensures Takes(dec, BlockMagic(st, 0), b, Chars(BlockStart()[..i + 1]), BlockMagicAt(st, i + 1), rest)
    ensures |rest| < |left|
  {
    hide CharsUpTo, Takes, IsDecoder;
    var cs, v := BlockStart(), 0;
    v, rest := TakeByte(dec, BlockMagic(st, 0), b, cs[..i], BlockMagic(st, i), left);
    assert cs[..i + 1] == cs[..i] + [cs[i]];
  }

  lemma EndByte(dec: Machine<Dec>, st: Stream, b: bits, i: nat, left: bits) returns (rest: bits)
    requires IsDecoder(dec) && 0 < i < 6
    requires Takes(dec, BlockMagic(st, 0), b, Chars(StreamEnd()[..i]), EndMagicAt(st, i), left)
    ensures Takes(dec, BlockMagic(st, 0), b, Chars(StreamEnd()[..i + 1]), EndMagicAt(st, i + 1), rest)
  {
    hide CharsUpTo, Takes, IsDecoder;
    var cs, v := StreamEnd(), 0;
    v, rest := TakeByte(dec, BlockMagic(st, 0), b, cs[..i], EndMagic(st, i), left);
    assert cs[..i + 1] == cs[..i] + [cs[i]];
  }

  /** The first byte decides between a block and the end. */
  lemma FirstByte(dec: Machine<Dec>, st: Stream, b: bits) returns (rest: bits, last: bool)
    requires IsDecoder(dec) && Accepts(dec, BlockMagic(st, 0), b)
    ensures last ==> Takes(dec, BlockMagic(st, 0), b, Chars(StreamEnd()[..1]), EndMagicAt(st, 1), rest)
    ensures !last ==> Takes(dec, BlockMagic(st, 0), b, Chars(BlockStart()[..1]), BlockMagicAt(st, 1), rest)
    ensures |rest| < |b|
  {
    hide CharsUpTo, Takes, IsDecoder, Accepts;
    var d, v := BlockMagic(st, 0), 0;
    TakesNothing(dec, d, b);
    NoChars([]);
    v, rest := TakeByte(dec, d, b, [], d, b);
    last := v == StreamEnd()[0];
    assert [] + [v] == [v];
    assert StreamEnd()[..1] == [StreamEnd()[0]] && BlockStart()[..1] == [BlockStart()[0]];
  }

  lemma BlockStartTaken(dec: Machine<Dec>, st: Stream, b: bits, left: bits) returns (rest: bits)
    requires IsDecoder(dec)
    requires Takes(dec, BlockMagic(st, 0), b, Chars(BlockStart()[..1]), BlockMagicAt(st, 1), left)
    ensures Takes(dec, BlockMagic(st, 0), b, Chars(BlockStart()), BlockCrc(st, 0, 0), rest) && |rest| < |left|
  {
    hide CharsUpTo, Takes, IsDecoder;
    rest := MagicByte(dec, st, b, 1, left);
    rest := MagicByte(dec, st, b, 2, rest);
    rest := MagicByte(dec, st, b, 3, rest);
    rest := MagicByte(dec, st, b, 4, rest);
    rest := MagicByte(dec, st, b, 5, rest);
    assert BlockStart()[..6] == BlockStart();
  }

  lemma StreamEndTaken(dec: Machine<Dec>, st: Stream, b: bits, left: bits) returns (rest: bits)
    requires IsDecoder(dec)
    requires Takes(dec, BlockMagic(st, 0), b, Chars(StreamEnd()[..1]), EndMagicAt(st, 1), left)
    ensures Takes(dec, BlockMagic(st, 0), b, Chars(StreamEnd()), StreamCrc(st, 0, 0), rest)
  {
    hide CharsUpTo, Takes, IsDecoder;
    rest := EndByte(dec, st, b, 1, left);
    rest := EndByte(dec, st, b, 2, rest);
    rest := EndByte(dec, st, b, 3, rest);
    rest := EndByte(dec, st, b, 4, rest);
    rest := EndByte(dec, st, b, 5, rest);
    assert StreamEnd()[..6] == StreamEnd();
  }

  // Words.

  lemma LastByte(x: nat, v: nat)
    requires v < 256
    ensures (x * 256 + v) / 256 == x && (x * 256 + v) % 256 == v
  {
  }

  lemma ByteByByte(u: nat)
    ensures u / 0x1_0000 == u / 256 / 256 && u / 0x100_0000 == u / 256 / 256 / 256
  {
  }

  lemma AppendIs(crc: word, v: nat)
    requires crc < 0x100_0000 && v < 256
    ensures Append8(crc, v) == crc * 256 + v
  {
  }

  /** The word that four bytes make. */
  lemma WordOfBytes(cs: seq<nat>) returns (u: word)
    requires |cs| == 4 && forall i :: 0 <= i < 4 ==> cs[i] < 256
    ensures u == Append8(Append8(Append8(Append8(0, cs[0]), cs[1]), cs[2]), cs[3]) && Chars(cs) == WordBits(u)
  {
    hide CharsUpTo, WordBits, Append8;
    AppendIs(0, cs[0]);
    var u2 := cs[0] * 256 + cs[1];
    AppendIs(cs[0], cs[1]);
    var u3 := u2 * 256 + cs[2];
    AppendIs(u2, cs[2]);
    u := u3 * 256 + cs[3];
    AppendIs(u3, cs[3]);
    LastByte(cs[0], cs[1]);
    LastByte(u2, cs[2]);
    LastByte(u3, cs[3]);
    ByteByByte(u);
    assert WordBytes(u) == cs;
    WordChars(u);
  }

  /** The states that read a checksum, of a block or of the stream. */
  function CrcAt(st: Stream, block: bool, i: nat, c: word): Dec {
    if block then BlockCrc(st, i, c) else StreamCrc(st, i, c)
  }

  /** The checksum so far. */
  function WordSoFar(cs: seq<nat>): word {
    if cs == [] then 0 else Append8(WordSoFar(cs[..|cs| - 1]), cs[|cs| - 1])
  }

  lemma WordSoFarOf(cs: seq<nat>)
    requires |cs| == 4
    ensures WordSoFar(cs) == Append8(Append8(Append8(Append8(0, cs[0]), cs[1]), cs[2]), cs[3])
  {
    hide Append8;
    assert cs[..1][..0] == [] && cs[..2][..1] == cs[..1] && cs[..3][..2] == cs[..2];
    assert WordSoFar(cs[..1]) == Append8(0, cs[0]);
    assert WordSoFar(cs[..2]) == Append8(WordSoFar(cs[..1]), cs[1]);
  }

  /** Where byte `i` leads an accepted run. */
  function AfterCrcByte(st: Stream, block: bool, i: nat, u: word): Dec {
    if i < 3 then CrcAt(st, block, i + 1, u) else if block then RandBit(st, u) else Done
  }

  lemma CrcByte(dec: Machine<Dec>, st: Stream, block: bool, b: bits, cs: seq<nat>, left: bits)
    returns (v: nat, rest: bits)
    requires IsDecoder(dec) && |cs| < 4
    requires Takes(dec, CrcAt(st, block, 0, 0), b, Chars(cs), CrcAt(st, block, |cs|, WordSoFar(cs)), left)
    ensures v < 256 && |rest| < |left|
    ensures var u := WordSoFar(cs + [v]);
      Takes(dec, CrcAt(st, block, 0, 0), b, Chars(cs + [v]), AfterCrcByte(st, block, |cs|, u), rest)
    ensures |cs| == 3 && !block ==> WordSoFar(cs + [v]) == st.combined
  {
    hide Takes, IsDecoder, CharsUpTo, Append8;
    v, rest := TakeByte(dec, CrcAt(st, block, 0, 0), b, cs, CrcAt(st, block, |cs|, WordSoFar(cs)), left);
    assert (cs + [v])[..|cs|] == cs;
  }

  /** The checksum of a block may be any word; that of the stream is the combined one. */
  lemma CrcTaken(dec: Machine<Dec>, st: Stream, block: bool, b: bits) returns (u: word, rest: bits)
    requires IsDecoder(dec) && Accepts(dec, CrcAt(st, block, 0, 0), b)
    ensures Takes(dec, CrcAt(st, block, 0, 0), b, WordBits(u), if block then RandBit(st, u) else Done, rest)
    ensures |rest| < |b| && (block || u == st.combined)
  {
    hide CharsUpTo, Takes, IsDecoder, Accepts, Append8, WordBits, CrcAt;
    var cs, v := [], 0;
    TakesNothing(dec, CrcAt(st, block, 0, 0), b);
    NoChars([]);
    rest := b;
    for i := 0 to 3
      invariant |cs| == i && |rest| <= |b| && forall k :: 0 <= k < i ==> cs[k] < 256
      invariant Takes(dec, CrcAt(st, block, 0, 0), b, Chars(cs), CrcAt(st, block, i, WordSoFar(cs)), rest)
    {
      v, rest := CrcByte(dec, st, block, b, cs, rest);
      cs := cs + [v];
    }
    v, rest := CrcByte(dec, st, block, b, cs, rest);
    cs := cs + [v];
    WordSoFarOf(cs);
    u := WordOfBytes(cs);
  }

  /** The bit that must be clear, and the origin. */
  lemma OrigTaken(dec: Machine<Dec>, st: Stream, crc: word, b: bits) returns (orig: nat, rest: bits)
    requires IsDecoder(dec) && Accepts(dec, RandBit(st, crc), b)
    ensures orig < Pow2(24) && orig <= 10 + 100000 * st.level && |rest| < |b|
    ensures Takes(dec, RandBit(st, crc), b, [false] + NatBits(ORIG_WIDTH, orig), Used16(st, Head(crc, orig, []), []),
      rest)
  {
    hide CharsUpTo, Takes, IsDecoder, Accepts, NatBits;
    var v, left := TakeField(dec, RandBit(st, crc), b);
    OneBit();
    assert v == 0;
    var d := OrigPtr(st, crc, 0, 0);
    TakesAccepts(dec, RandBit(st, crc), b, [false], d, left);
    TakesNothing(dec, d, left);
    NoChars([]);
    var v0, v1, v2;
    v0, rest := TakeByte(dec, d, left, [], d, left);
    v1, rest := TakeByte(dec, d, left, [] + [v0], OrigPtr(st, crc, 1, v0), rest);
    v2, rest := TakeByte(dec, d, left, [] + [v0] + [v1], OrigPtr(st, crc, 2, v0 * 256 + v1), rest);
    assert [] + [v0] + [v1] + [v2] == [v0, v1, v2];
    orig := (v0 * 256 + v1) * 256 + v2;
    OrigOfBytes(v0, v1, v2);
    TakesThen(dec, RandBit(st, crc), b, [false], d, left, NatBits(ORIG_WIDTH, orig),
      Used16(st, Head(crc, orig, []), []),
      rest);
  }

  lemma TakesAccepts(dec: Machine<Dec>, d: Dec, b: bits, a: bits, e: Dec, rest: bits)
    requires Takes(dec, d, b, a, e, rest)
    ensures Accepts(dec, e, rest)
  {
  }

  lemma OrigOfBytes(v0: nat, v1: nat, v2: nat)
    requires v0 < 256 && v1 < 256 && v2 < 256
    ensures var v := (v0 * 256 + v1) * 256 + v2; v < Pow2(24) && NatBits(ORIG_WIDTH, v) == Chars([v0, v1, v2])
  {
    hide CharsUpTo, NatBits;
    var v := (v0 * 256 + v1) * 256 + v2;
    Pow2Consts();
    LastByte(v0, v1);
    LastByte(v0 * 256 + v1, v2);
    ByteByByte(v);
    OrigBits(v);
    assert OrigBytes(v) == [v0, v1, v2];
  }

  // The byte map.

  lemma TakeBit(dec: Machine<Dec>, d: Dec, b: bits, a: bits, e: Dec, left: bits) returns (v: nat, rest: bits)
    requires IsDecoder(dec) && Takes(dec, d, b, a, e, left) && !e.Emitting? && !e.Terminal() && Need(e) == 1
    ensures v < 2 && Takes(dec, d, b, a + [v == 1], Step(e, v), rest) && |rest| < |left|
    ensures !Step(e, v).Failed? && !Step(e, v).Randomised? && !Step(e, v).Overrun?
  {
    hide Step, Need, Takes, IsDecoder;
    v, rest := TakeMore(dec, d, b, a, e, left);
    OneBit();
  }

  lemma Used16Taken(dec: Machine<Dec>, st: Stream, hd: Head, b: bits) returns (u: seq<bool>, rest: bits)
    requires IsDecoder(dec) && Accepts(dec, Used16(st, hd, []), b)
    ensures |u| == 16 && Takes(dec, Used16(st, hd, []), b, u, NextInUse(st, hd, u, []), rest) && |rest| < |b|
  {
    hide Takes, IsDecoder, NextInUse, Accepts;
    var d, v := Used16(st, hd, []), 0;
    TakesNothing(dec, d, b);
    u, rest := [], b;
    for i := 0 to 15
      invariant |u| == i && |rest| <= |b| && Takes(dec, d, b, u, Used16(st, hd, u), rest)
    {
      v, rest := TakeBit(dec, d, b, u, Used16(st, hd, u), rest);
      u := u + [v == 1];
    }
    v, rest := TakeBit(dec, d, b, u, Used16(st, hd, u), rest);
    u := u + [v == 1];
  }

  /** The bits of the marked groups below `i`. */
  function MarkedUpTo(u: seq<bool>, inUse: seq<bool>, i: nat): bits
    requires |u| == 16 && i <= 16 && 16 * i <= |inUse|
  {
    if i == 0 then []
    else MarkedUpTo(u, inUse, i - 1) + (if u[i - 1] then inUse[16 * (i - 1)..16 * i] else [])
  }

  /** Only bytes of marked groups are in use. */
  ghost predicate Marked(u: seq<bool>, inUse: seq<bool>) {
    |u| == 16 && |inUse| <= 256 && forall c {:trigger inUse[c]} :: 0 <= c < |inUse| && inUse[c] ==> u[c / 16]
  }

  lemma {:induction false} MarkedMore(u: seq<bool>, inUse: seq<bool>, more: seq<bool>, i: nat)
    requires |u| == 16 && i <= 16 && 16 * i <= |inUse|
    ensures MarkedUpTo(u, inUse + more, i) == MarkedUpTo(u, inUse, i)
  {
    if i > 0 {
      MarkedMore(u, inUse, more, i - 1);
      assert (inUse + more)[16 * (i - 1)..16 * i] == inUse[16 * (i - 1)..16 * i];
    }
  }

  lemma GroupTaken(dec: Machine<Dec>, d: Dec, b: bits, a: bits, st: Stream, hd: Head, u: seq<bool>, p: seq<bool>,
        left: bits)
    returns (g: seq<bool>, rest: bits)
    requires IsDecoder(dec) && |u| == 16 && |p| <= 240 && |p| % 16 == 0 && u[|p| / 16]
    requires Takes(dec, d, b, a, NextInUse(st, hd, u, p), left)
    ensures |g| == 16 && Takes(dec, d, b, a + g, NextInUse(st, hd, u, p + g), rest) && |rest| <= |left|
  {
    hide Takes, IsDecoder, NextInUse;
    g, rest := [], left;
    assert a + [] == a && p + [] == p;
    for j := 0 to 16
      invariant |g| == j && |rest| <= |left| && Takes(dec, d, b, a + g, NextInUse(st, hd, u, p + g), rest)
    {
      NextIs(st, hd, u, p + g);
      var v;
      v, rest := TakeBit(dec, d, b, a + g, InUse(st, hd, u, p + g), rest);
      assert a + g + [v == 1] == a + (g + [v == 1]) && p + g + [v == 1] == p + (g + [v == 1]);
      g := g + [v == 1];
    }
  }

  /** One group of the map more. */
  lemma NextGroup(dec: Machine<Dec>, d: Dec, b: bits, st: Stream, hd: Head, u: seq<bool>, p: seq<bool>, i: nat,
        left: bits)
    returns (g: seq<bool>, rest: bits)
    requires IsDecoder(dec) && i < 16 && |p| == 16 * i && Marked(u, p)
    requires Takes(dec, d, b, MarkedUpTo(u, p, i), NextInUse(st, hd, u, p), left)
    ensures |g| == 16 && Marked(u, p + g) && |rest| <= |left|
    ensures Takes(dec, d, b, MarkedUpTo(u, p + g, i + 1), NextInUse(st, hd, u, p + g), rest)
  {
    hide Takes, IsDecoder, NextInUse, SeqToUnseq;
    if u[i] {
      g, rest := GroupTaken(dec, d, b, MarkedUpTo(u, p, i), st, hd, u, p, left);
    } else {
      g, rest := seq(16, k => false), left;
      SkipGroup(st, hd, u, p);
      assert MarkedUpTo(u, p, i) + [] == MarkedUpTo(u, p, i);
    }
    MarkedMore(u, p, g, i);
    assert (p + g)[16 * i..16 * i + 16] == g;
  }

  /** The map of bytes in use, which is not empty. */
  lemma MapTaken(dec: Machine<Dec>, st: Stream, hd: Head, u: seq<bool>, b: bits) returns (inUse: seq<bool>, rest: bits)
    requires IsDecoder(dec) && |u| == 16 && Accepts(dec, NextInUse(st, hd, u, []), b)
    ensures |inUse| == 256 && Marked(u, inUse) && SeqToUnseq(inUse, 256) != [] && |rest| <= |b|
    ensures Takes(dec, NextInUse(st, hd, u, []), b, MarkedUpTo(u, inUse, 16),
      NumGroups(st, hd.(unseq := SeqToUnseq(inUse, 256))), rest)
  {
    hide Takes, IsDecoder, NextInUse, Accepts, SeqToUnseq;
    var d := NextInUse(st, hd, u, []);
    TakesNothing(dec, d, b);
    inUse, rest := [], b;
    for i := 0 to 16
      invariant |inUse| == 16 * i && Marked(u, inUse) && |rest| <= |b|
      invariant Takes(dec, d, b, MarkedUpTo(u, inUse, i), NextInUse(st, hd, u, inUse), rest)
    {
      var g;
      g, rest := NextGroup(dec, d, b, st, hd, u, inUse, i, rest);
      inUse := inUse + g;
    }
    MapEnds(dec, d, b, MarkedUpTo(u, inUse, 16), st, hd, u, inUse, rest);
  }

  lemma MapEnds(dec: Machine<Dec>, d: Dec, b: bits, a: bits, st: Stream, hd: Head, u: seq<bool>, inUse: seq<bool>,
        rest: bits)
    requires IsDecoder(dec) && |inUse| == 256 && Takes(dec, d, b, a, NextInUse(st, hd, u, inUse), rest)
    ensures SeqToUnseq(inUse, 256) != []
    ensures NextInUse(st, hd, u, inUse) == NumGroups(st, hd.(unseq := SeqToUnseq(inUse, 256)))
  {
    hide IsDecoder, SeqToUnseq, Accepts;
    if NextInUse(st, hd, u, inUse).Failed? { GivenUp(dec, NextInUse(st, hd, u, inUse), rest); }
  }

  // The selectors.

  lemma {:induction false} SelectorsMore(mtfs: seq<nat>, j: nat, i: nat)
    requires i <= |mtfs|
    ensures SelectorsUpTo(mtfs + [j], i) == SelectorsUpTo(mtfs, i)
  {
    if i > 0 { SelectorsMore(mtfs, j, i - 1); }
  }

  lemma SelectorsAnd(mtfs: seq<nat>, j: nat)
    ensures SelectorsUpTo(mtfs + [j], |mtfs| + 1) == SelectorsUpTo(mtfs, |mtfs|) + Ones(j) + [false]
  {
    SelectorsMore(mtfs, j, |mtfs|);
  }

  /** Selectors of tables that are there, and not too many. */
  ghost predicate GoodSelectors(mtfs: seq<nat>, g: nat) {
    |mtfs| <= MAX_SELECTORS && forall i {:trigger mtfs[i]} :: 0 <= i < |mtfs| ==> mtfs[i] < g
  }

  lemma {:induction false} SelectorsTaken(dec: Machine<Dec>, d: Dec, b: bits, st: Stream, hd: Head, g: nat, n: nat,
        m: seq<nat>, j: nat, left: bits)
    returns (mtfs: seq<nat>, rest: bits)
    requires IsDecoder(dec) && |m| < n && j < g && GoodSelectors(m, g)
    requires Takes(dec, d, b, SelectorsUpTo(m, |m|) + Ones(j), Selector(st, hd, g, n, m, j), left)
    ensures |mtfs| == n && GoodSelectors(mtfs, g) && |rest| < |left|
    ensures Takes(dec, d, b, SelectorsUpTo(mtfs, n),
      FirstLength(st, hd, g, Coding([], UndoSelectors(Identity(g), mtfs))), rest)
    decreases |left|
  {
    hide Takes, IsDecoder, SelectorsUpTo, UndoSelectors;
    var v, more := TakeBit(dec, d, b, SelectorsUpTo(m, |m|) + Ones(j), Selector(st, hd, g, n, m, j), left);
    if v == 1 {
      assert SelectorsUpTo(m, |m|) + Ones(j) + [true] == SelectorsUpTo(m, |m|) + Ones(j + 1);
      mtfs, rest := SelectorsTaken(dec, d, b, st, hd, g, n, m, j + 1, more);
    } else {
      SelectorsAnd(m, j);
      var m' := m + [j];
      if |m'| < n {
        assert SelectorsUpTo(m', |m'|) + Ones(0) == SelectorsUpTo(m', |m'|);
        mtfs, rest := SelectorsTaken(dec, d, b, st, hd, g, n, m', 0, more);
      } else {
        mtfs, rest := m', more;
      }
    }
  }

  lemma TwoCounts(dec: Machine<Dec>, st: Stream, hd: Head, b: bits) returns (g: nat, n: nat, rest: bits)
    requires IsDecoder(dec) && Accepts(dec, NumGroups(st, hd), b)
    ensures 2 <= g <= 6 && n > 0 && |rest| < |b|
    ensures Takes(dec, NumGroups(st, hd), b, NatBits(GROUPS_WIDTH, g) + NatBits(SELECTORS_WIDTH, n),
      Selector(st, hd, g, n, [], 0), rest)
  {
    hide Takes, IsDecoder, Accepts, NatBits;
    var left;
    g, left := TakeField(dec, NumGroups(st, hd), b);
    n, rest := TakeMore(dec, NumGroups(st, hd), b, NatBits(GROUPS_WIDTH, g), NumSelectors(st, hd, g), left);
  }

  lemma NoSelectors()
    ensures SelectorsUpTo([], 0) + Ones(0) == []
  {
  }

  /** The number of tables and of selectors, and the selectors. */
  lemma CountsTaken(dec: Machine<Dec>, st: Stream, hd: Head, b: bits) returns (g: nat, mtfs: seq<nat>, rest: bits)
    requires IsDecoder(dec) && Accepts(dec, NumGroups(st, hd), b)
    ensures 2 <= g <= 6 && mtfs != [] && GoodSelectors(mtfs, g) && |rest| < |b|
    ensures Takes(dec, NumGroups(st, hd), b,
      NatBits(GROUPS_WIDTH, g) + NatBits(SELECTORS_WIDTH, |mtfs|) + SelectorsUpTo(mtfs, |mtfs|),
      FirstLength(st, hd, g, Coding([], UndoSelectors(Identity(g), mtfs))), rest)
  {
    hide Takes, IsDecoder, Accepts, NatBits, UndoSelectors, SelectorsUpTo;
    var d, n, left := NumGroups(st, hd), 0, b;
    g, n, left := TwoCounts(dec, st, hd, b);
    var e, a := Selector(st, hd, g, n, [], 0), NatBits(GROUPS_WIDTH, g) + NatBits(SELECTORS_WIDTH, n);
    TakesAccepts(dec, d, b, a, e, left);
    TakesNothing(dec, e, left);
    NoSelectors();
    mtfs, rest := SelectorsTaken(dec, e, left, st, hd, g, n, [], 0, left);
    TakesThen(dec, d, b, a, e, left, SelectorsUpTo(mtfs, n),
      FirstLength(st, hd, g, Coding([], UndoSelectors(Identity(g), mtfs))), rest);
  }

  // The tables and the data.

  /** The states that read code lengths and symbols. */
  predicate InBody(e: Dec, st: Stream, hd: Head) {
    match e
    case FirstLength(s, h, _, _) => s == st && h == hd
    case LengthBit(s, h, _, _, _, _) => s == st && h == hd
    case LengthSign(s, h, _, _, _, _) => s == st && h == hd
    case Symbol(s, h, _, _, _) => s == st && h == hd
    case SymbolBit(s, h, _, _, _, _, _) => s == st && h == hd
    case _ => false
  }

  /** The last column of a block that is there: its origin is inside, and the block is no longer than allowed. */
  ghost predicate GoodColumn(column: seq<byte>, st: Stream, hd: Head) {
    hd.orig < |column| <= 100000 * st.level
  }

  /** What outputs the block with this last column. */
  ghost function Emits(column: seq<byte>, st: Stream, hd: Head): Dec
    requires GoodColumn(column, st, hd)
  {
    Emitting(st, hd.crc, BlockOutputOf(column, hd.orig), INITIAL)
  }

  /** Symbols go on, or end the block. */
  lemma AcceptBody(st: Stream, hd: Head, cd: Coding, um: Unmtfing, k: nat, sym: nat) returns (column: seq<byte>)
    ensures var f := Accept(st, hd, cd, um, k, sym);
      f.Failed? || InBody(f, st, hd) || (GoodColumn(column, st, hd) && f == Emits(column, st, hd))
  {
    hide BlockOutputOf, Unmapped, Mtf.Decode, EndRun;
    column := if um.Valid() then Unmapped(hd.unseq, EndRun(um).out) else [];
  }

  lemma ProbeBody(st: Stream, hd: Head, cd: Coding, um: Unmtfing, k: nat, zn: nat, zvec: nat)
    returns (column: seq<byte>)
    ensures var f := ProbeSymbol(st, hd, cd, um, k, zn, zvec);
      f.Failed? || InBody(f, st, hd) || (GoodColumn(column, st, hd) && f == Emits(column, st, hd))
  {
    hide Accept, Check, Emits, TableOf;
    column := [];
    var lens := TableOf(cd, k);
    if lens != [] {
      match Check(lens, MinOf(lens), MaxOf(lens), zn, zvec)
      case Found(sym) => column := AcceptBody(st, hd, cd, um, k, sym);
      case _ =>
    }
  }

  lemma BodyStep(e: Dec, v: nat, st: Stream, hd: Head) returns (column: seq<byte>)
    requires InBody(e, st, hd)
    ensures var f := Step(e, v);
      f.Failed? || InBody(f, st, hd) || (GoodColumn(column, st, hd) && f == Emits(column, st, hd))
  {
    hide ProbeSymbol, Emits, MinLength;
    column := [];
    match e
    case Symbol(_, _, cd, um, k) => column := ProbeBody(st, hd, cd, um, k, MinLength(cd, k), v);
    case SymbolBit(_, _, cd, um, k, zn, zvec) => column := ProbeBody(st, hd, cd, um, k, zn + 1, 2 * zvec + v);
    case _ =>
  }

  lemma {:induction false} BodyTaken(dec: Machine<Dec>, e: Dec, b: bits, st: Stream, hd: Head)
    returns (a: bits, column: seq<byte>, rest: bits)
    requires IsDecoder(dec) && Accepts(dec, e, b) && InBody(e, st, hd)
    ensures GoodColumn(column, st, hd) && |rest| < |b|
    ensures Takes(dec, e, b, a, Emits(column, st, hd), rest)
    decreases |b|
  {
    hide Takes, IsDecoder, Accepts, Emits, Step, NatBits, GoodColumn;
    var v, left := TakeField(dec, e, b);
    column := BodyStep(e, v, st, hd);
    a, rest := NatBits(Need(e), v), left;
    if InBody(Step(e, v), st, hd) {
      TakesAccepts(dec, e, b, a, Step(e, v), left);
      var a';
      a', column, rest := BodyTaken(dec, Step(e, v), left, st, hd);
      TakesThen(dec, e, b, a, Step(e, v), left, a', Emits(column, st, hd), rest);
      a := a + a';
    }
  }

  // A block.

  /**
   * A block as it was read: its fields, the bits of its tables and its data, the last column they decode to, and the
   * bytes that it output.
   */
  datatype Seen = Seen(crc: word, orig: nat, used16: seq<bool>, inUse: seq<bool>, nGroups: nat, mtfs: seq<nat>,
        body: bits, column: seq<byte>, data: seq<byte>)

  function SeenMap(p: Seen): bits {
    p.used16 + if |p.used16| == 16 && |p.inUse| == 256 then MarkedUpTo(p.used16, p.inUse, 16) else []
  }

  function SeenCounts(p: Seen): bits {
    NatBits(GROUPS_WIDTH, p.nGroups) + NatBits(SELECTORS_WIDTH, |p.mtfs|) + SelectorsUpTo(p.mtfs, |p.mtfs|)
  }

  /** Its bits. */
  function SeenBits(p: Seen): bits {
    Chars(BlockStart()) + WordBits(p.crc) + ([false] + NatBits(ORIG_WIDTH, p.orig)) + SeenMap(p) + SeenCounts(p)
      + p.body
  }

  /** The map: some byte is in use, and only bytes of marked groups are. */
  ghost predicate GoodMap(p: Seen) {
    |p.used16| == 16 && |p.inUse| == 256 && Marked(p.used16, p.inUse) && true in p.inUse
  }

  /** Two to six tables, and selectors for tables that are there. */
  ghost predicate GoodCounts(p: Seen) {
    2 <= p.nGroups <= 6 && p.mtfs != [] && GoodSelectors(p.mtfs, p.nGroups)
  }

  /** The origin is inside the block, the walk from it through the last column expands to the data. */
  ghost predicate GoodData(p: Seen, level: nat) {
    p.orig < |p.column| <= 100000 * level && BlockOutputOf(p.column, p.orig) == Expanded(p.data, true)
  }

  /** A block that is in order, and whose stored checksum is that of the bytes it output. */
  ghost predicate Sound(p: Seen, level: nat) {
    GoodMap(p) && GoodCounts(p) && GoodData(p, level) && p.crc == Crc.BlockCrc(p.data)
  }

  lemma {:induction false} SomeUsed(inUse: seq<bool>, n: nat)
    requires n <= |inUse| <= 256 && SeqToUnseq(inUse, n) != []
    ensures true in inUse
  {
    if !inUse[n - 1] { SomeUsed(inUse, n - 1); }
  }

  /** The map in its two levels. */
  lemma FullMapTaken(dec: Machine<Dec>, d: Dec, b: bits, a: bits, st: Stream, hd: Head, left: bits)
    returns (u: seq<bool>, inUse: seq<bool>, hd': Head, rest: bits)
    requires IsDecoder(dec) && Takes(dec, d, b, a, Used16(st, hd, []), left)
    ensures |u| == 16 && |inUse| == 256 && Marked(u, inUse) && true in inUse
    ensures hd' == hd.(unseq := SeqToUnseq(inUse, 256)) && |rest| < |left|
    ensures Takes(dec, d, b, a + (u + MarkedUpTo(u, inUse, 16)), NumGroups(st, hd'), rest)
  {
    hide Takes, IsDecoder, Accepts, NextInUse, SeqToUnseq, MarkedUpTo, Marked;
    TakesAccepts(dec, d, b, a, Used16(st, hd, []), left);
    var r;
    u, r := Used16Taken(dec, st, hd, left);
    TakesAccepts(dec, Used16(st, hd, []), left, u, NextInUse(st, hd, u, []), r);
    inUse, rest := MapTaken(dec, st, hd, u, r);
    hd' := hd.(unseq := SeqToUnseq(inUse, 256));
    SomeUsed(inUse, 256);
    TakesThen(dec, Used16(st, hd, []), left, u, NextInUse(st, hd, u, []), r, MarkedUpTo(u, inUse, 16),
      NumGroups(st, hd'), rest);
    TakesThen(dec, d, b, a, Used16(st, hd, []), left, u + MarkedUpTo(u, inUse, 16), NumGroups(st, hd'), rest);
  }

  /** Everything of a block up to the output. */
  lemma BlockTaken(dec: Machine<Dec>, st: Stream, b: bits, left: bits) returns (p: Seen, hd: Head, rest: bits)
    requires IsDecoder(dec) && |left| < |b|
    requires Takes(dec, BlockMagic(st, 0), b, Chars(BlockStart()[..1]), BlockMagicAt(st, 1), left)
    ensures GoodMap(p) && GoodCounts(p) && GoodColumn(p.column, st, hd) && hd.crc == p.crc && hd.orig == p.orig
    ensures Takes(dec, BlockMagic(st, 0), b, SeenBits(p), Emits(p.column, st, hd), rest) && |rest| < |b|
  {
    hide Takes, IsDecoder, Accepts, NatBits, WordBits, CharsUpTo, NextInUse, SelectorsUpTo, MarkedUpTo, SeqToUnseq,
      UndoSelectors, Emits, GoodColumn, Marked, GoodSelectors, BlockMagicAt;
    var d, a := BlockMagic(st, 0), Chars(BlockStart());
    var e: Dec, r: bits := BlockCrc(st, 0, 0), left;
    r := BlockStartTaken(dec, st, b, left);
    var crc, orig, u, inUse, g, mtfs, body, column;
    TakesAccepts(dec, d, b, a, e, r);
    crc, rest := CrcTaken(dec, st, true, r);
    TakesThen(dec, d, b, a, e, r, WordBits(crc), RandBit(st, crc), rest);
    a, e, r := a + WordBits(crc), RandBit(st, crc), rest;
    TakesAccepts(dec, d, b, a, e, r);
    orig, rest := OrigTaken(dec, st, crc, r);
    hd := Head(crc, orig, []);
    TakesThen(dec, d, b, a, e, r, [false] + NatBits(ORIG_WIDTH, orig), Used16(st, hd, []), rest);
    a, e, r := a + ([false] + NatBits(ORIG_WIDTH, orig)), Used16(st, hd, []), rest;
    u, inUse, hd, rest := FullMapTaken(dec, d, b, a, st, hd, r);
    p := Seen(crc, orig, u, inUse, 0, [], [], [], []);
    a, e, r := a + SeenMap(p), NumGroups(st, hd), rest;
    TakesAccepts(dec, d, b, a, e, r);
    g, mtfs, rest := CountsTaken(dec, st, hd, r);
    p := p.(nGroups := g, mtfs := mtfs);
    var f := FirstLength(st, hd, g, Coding([], UndoSelectors(Identity(g), mtfs)));
    TakesThen(dec, d, b, a, e, r, SeenCounts(p), f, rest);
    a, e, r := a + SeenCounts(p), f, rest;
    TakesAccepts(dec, d, b, a, e, r);
    body, column, rest := BodyTaken(dec, e, r, st, hd);
    p := p.(body := body, column := column);
    TakesThen(dec, d, b, a, e, r, body, Emits(column, st, hd), rest);
  }

  /** At the end of an accepted block the checksums agree. */
  lemma BlockEnds(dec: Machine<Dec>, st: Stream, crc: word, x: Expanded, rest: bits)
    requires IsDecoder(dec) && Accepts(dec, Emitting(st, crc, x, INITIAL), rest)
    ensures x.ok && crc == Crc.BlockCrc(x.out)
    ensures Result(dec, Emitting(st, crc, x, INITIAL), rest)
      == Put(x.out, Result(dec, BlockMagic(st.(combined := Combine(st.combined, crc)), 0), rest))
  {
    hide Combine, Updates, Finalise;
    var d := Emitting(st, crc, x, INITIAL);
    var (out, e) := EmitAll(d);
    assert dec.emitAll(d) == (out, e) && !e.Emitting?;
    if e.Failed? { GivenUp(dec, e, rest); }
  }

  // The stream.

  /** The checksums of the blocks. */
  function SeenCrcs(ps: seq<Seen>): (crcs: seq<word>)
    ensures |crcs| == |ps|
  {
    seq(|ps|, k requires 0 <= k < |ps| => ps[k].crc)
  }

  /** The bytes that the blocks output. */
  function SeenData(ps: seq<Seen>): seq<byte> {
    if ps == [] then [] else SeenData(ps[..|ps| - 1]) + ps[|ps| - 1].data
  }

  /** The header and the blocks. */
  function SeenBlocks(level: nat, ps: seq<Seen>): bits {
    if ps == [] then HeaderBits(level) else SeenBlocks(level, ps[..|ps| - 1]) + SeenBits(ps[|ps| - 1])
  }

  ghost predicate AllSound(ps: seq<Seen>, level: nat) {
    forall k {:trigger ps[k]} :: 0 <= k < |ps| ==> Sound(ps[k], level)
  }

  /** The run on `b` has read the header and the blocks `ps`, and `left` is still there. */
  ghost predicate Read(dec: Machine<Dec>, small: bool, b: bits, level: nat, ps: seq<Seen>, left: bits) {
    && b == SeenBlocks(level, ps) + left && AllSound(ps, level)
    && var e := BlockMagic(Stream(small, level, CombineAll(SeenCrcs(ps))), 0);
       Accepts(dec, e, left) && Result(dec, Magic(small, 0), b) == Put(SeenData(ps), Result(dec, e, left))
  }

  lemma ReadHeader(dec: Machine<Dec>, small: bool, b: bits) returns (level: nat, left: bits)
    requires IsDecoder(dec) && Accepts(dec, Magic(small, 0), b)
    ensures 1 <= level <= 9 && Read(dec, small, b, level, [], left)
  {
    hide IsDecoder, Result, CharsUpTo, HeaderBits;
    level, left := HeaderTaken(dec, small, b);
    assert SeenCrcs([]) == [];
    PutNone(Result(dec, Magic(small, 0), b));
  }

  lemma ReadMore(dec: Machine<Dec>, small: bool, b: bits, level: nat, ps: seq<Seen>, left: bits, p: Seen, hd: Head,
        rest: bits)
    requires IsDecoder(dec) && Read(dec, small, b, level, ps, left)
    requires GoodMap(p) && GoodCounts(p)
    requires var st := Stream(small, level, CombineAll(SeenCrcs(ps)));
      && GoodColumn(p.column, st, hd) && hd.crc == p.crc && hd.orig == p.orig
      && Takes(dec, BlockMagic(st, 0), left, SeenBits(p), Emits(p.column, st, hd), rest)
    ensures var q := p.(data := BlockOutputOf(p.column, p.orig).out); Read(dec, small, b, level, ps + [q], rest)
  {
    hide IsDecoder, Result, SeenBits, Combine, BlockOutputOf, GoodMap, GoodCounts, HeaderBits;
    var st := Stream(small, level, CombineAll(SeenCrcs(ps)));
    var x := BlockOutputOf(p.column, p.orig);
    var q := p.(data := x.out);
    var qs := ps + [q];
    BlockEnds(dec, st, p.crc, x, rest);
    SameBits(p, x.out);
    assert qs[..|ps|] == ps && SeenCrcs(qs) == SeenCrcs(ps) + [p.crc];
    assert SeenCrcs(qs)[..|ps|] == SeenCrcs(ps);
    assert SeenBlocks(level, ps) + (SeenBits(p) + rest) == SeenBlocks(level, ps) + SeenBits(p) + rest;
    PutPut(SeenData(ps), x.out, Result(dec, BlockMagic(st.(combined := Combine(st.combined, p.crc)), 0), rest));
    SoundMore(ps, q, level);
  }

  lemma SameBits(p: Seen, data: seq<byte>)
    ensures SeenBits(p.(data := data)) == SeenBits(p)
    ensures GoodMap(p) ==> GoodMap(p.(data := data))
    ensures GoodCounts(p) ==> GoodCounts(p.(data := data))
  {
    hide CharsUpTo, NatBits, WordBits, MarkedUpTo, SelectorsUpTo;
  }

  lemma SoundMore(ps: seq<Seen>, q: Seen, level: nat)
    requires AllSound(ps, level) && Sound(q, level)
    ensures AllSound(ps + [q], level)
  {
  }

  lemma {:induction false} ReadOn(dec: Machine<Dec>, small: bool, b: bits, level: nat, ps: seq<Seen>, left: bits)
    returns (qs: seq<Seen>, rest: bits)
    requires IsDecoder(dec) && Read(dec, small, b, level, ps, left)
    ensures AllSound(qs, level) && b == SeenBlocks(level, qs) + TrailerBits(CombineAll(SeenCrcs(qs))) + rest
    ensures Result(dec, Magic(small, 0), b) == (SeenData(qs), Done, rest)
    decreases |left|
  {
    hide IsDecoder, Takes, SeenBits, SeenBlocks, SeenCrcs, CombineAll, SeenData, AllSound, Result;
    var st := Stream(small, level, CombineAll(SeenCrcs(ps)));
    var first, last := FirstByte(dec, st, left);
    if last {
      qs := ps;
      rest := TrailerTaken(dec, st, left, first);
      ReadDone(dec, small, b, level, ps, left, rest);
    } else {
      var p, hd, more := BlockTaken(dec, st, left, first);
      ReadMore(dec, small, b, level, ps, left, p, hd, more);
      qs, rest := ReadOn(dec, small, b, level, ps + [p.(data := BlockOutputOf(p.column, p.orig).out)], more);
    }
  }

  lemma TrailerTaken(dec: Machine<Dec>, st: Stream, b: bits, left: bits) returns (rest: bits)
    requires IsDecoder(dec)
    requires Takes(dec, BlockMagic(st, 0), b, Chars(StreamEnd()[..1]), EndMagicAt(st, 1), left)
    ensures Takes(dec, BlockMagic(st, 0), b, TrailerBits(st.combined), Done, rest)
  {
    hide IsDecoder, Takes, Accepts, CharsUpTo, WordBits;
    var d, r, u := BlockMagic(st, 0), left, st.combined;
    r := StreamEndTaken(dec, st, b, left);
    TakesAccepts(dec, d, b, Chars(StreamEnd()), StreamCrc(st, 0, 0), r);
    u, rest := CrcTaken(dec, st, false, r);
    TakesThen(dec, d, b, Chars(StreamEnd()), StreamCrc(st, 0, 0), r, WordBits(u), Done, rest);
  }

  lemma ReadDone(dec: Machine<Dec>, small: bool, b: bits, level: nat, ps: seq<Seen>, left: bits, rest: bits)
    requires IsDecoder(dec) && Read(dec, small, b, level, ps, left)
    requires var st := Stream(small, level, CombineAll(SeenCrcs(ps)));
      Takes(dec, BlockMagic(st, 0), left, TrailerBits(st.combined), Done, rest)
    ensures b == SeenBlocks(level, ps) + TrailerBits(CombineAll(SeenCrcs(ps))) + rest
    ensures Result(dec, Magic(small, 0), b) == (SeenData(ps), Done, rest)
  {
    hide SeenBlocks, SeenData, SeenCrcs, CombineAll, TrailerBits;
    var t := TrailerBits(CombineAll(SeenCrcs(ps)));
    assert SeenBlocks(level, ps) + (t + rest) == SeenBlocks(level, ps) + t + rest;
    assert Need(Done) == 0 && dec.need(Done) == 0;
    assert Result(dec, Done, rest) == ([], Done, rest);
    assert SeenData(ps) + [] == SeenData(ps);
  }

  /**
   * If a run ends in `Done`, what it read is the header, blocks that are in order and each stored with the checksum of
   * the bytes it output, and the trailer with their combined checksum; and it output the bytes of the blocks.
   */
  lemma AcceptedIsSound(small: bool, b: bits) returns (level: nat, ps: seq<Seen>)
    requires Result(TheDecoder(), Magic(small, 0), b).1 == Done
    ensures 1 <= level <= 9 && AllSound(ps, level)
    ensures var (out, _, rest) := Result(TheDecoder(), Magic(small, 0), b);
      out == SeenData(ps) && b == SeenBlocks(level, ps) + TrailerBits(CombineAll(SeenCrcs(ps))) + rest
  {
    hide Read, SeenBlocks, SeenData, SeenCrcs, CombineAll, TrailerBits, AllSound, Result;
    TheDecoderIsOne();
    var left, rest;
    level, left := ReadHeader(TheDecoder(), small, b);
    ps, rest := ReadOn(TheDecoder(), small, b, level, [], left);
  }
}
