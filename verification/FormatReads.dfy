/** Each part of the written stream takes the decoder from one label to the next. */
module FormatReads {
  import opened Bits
  import opened Crc
  import opened RunLength
  import opened Mtf
  import opened HuffmanCodes
  import opened Resumable
  import opened Decoder
  import opened Format

  /**
   * `dec` is the decoder. The proofs below know it only through this, so that a machine's runs are not unfolded into
   * the decoder's cases at every turn.
   */
  ghost predicate IsDecoder(dec: Machine<Dec>) {
    && (forall d: Dec, v: nat {:trigger Step(d, v), dec.step(d, v)} :: dec.step(d, v) == Step(d, v))
    && (forall d: Dec {:trigger Need(d), dec.need(d)} :: dec.need(d) == Need(d))
    && (forall d: Dec {:trigger dec.emitting(d)} :: dec.emitting(d) == d.Emitting?)
    && (forall d: Dec {:trigger EmitAll(d), dec.emitAll(d)} :: dec.emitAll(d) == EmitAll(d))
  }

  lemma TheDecoderIsOne()
    ensures IsDecoder(TheDecoder())
  {
  }

  /** Reading `a` takes the decoder from `d` to `e`, and nothing is output. */
  ghost predicate Goes(dec: Machine<Dec>, d: Dec, a: bits, e: Dec) {
    Reads(dec, d, a, [], e)
  }

  lemma GoesNothing(dec: Machine<Dec>, d: Dec)
    requires IsDecoder(dec)
    requires !d.Emitting?
    ensures Goes(dec, d, [], d)
  {
    ReadsNothing(dec, d);
  }

  lemma Then(dec: Machine<Dec>, d: Dec, a: bits, e: Dec, b: bits, f: Dec)
    requires IsDecoder(dec)
    requires Goes(dec, d, a, e) && Goes(dec, e, b, f)
    ensures Goes(dec, d, a + b, f)
  {
    ReadsThen(dec, d, a, [], e, b, [], f);
    var none: seq<byte> := [];
    assert none + none == none;
  }

  /** `Step` takes `d` to `f` on a field of `n` bits. */
  predicate Steps(d: Dec, n: nat, v: nat, f: Dec) {
    !d.Emitting? && Need(d) == n > 0 && v < Pow2(n) && Step(d, v) == f && !f.Emitting?
  }

  lemma Field(dec: Machine<Dec>, d: Dec, n: nat, v: nat, e: Dec)
    requires IsDecoder(dec)
    requires Steps(d, n, v, e)
    ensures Goes(dec, d, NatBits(n, v), e)
  {
    ReadsField(dec, d, n, v);
  }

  lemma ThenField(dec: Machine<Dec>, d: Dec, a: bits, e: Dec, n: nat, v: nat, f: Dec)
    requires IsDecoder(dec)
    requires Goes(dec, d, a, e) && Steps(e, n, v, f)
    ensures Goes(dec, d, a + NatBits(n, v), f)
  {
    Field(dec, e, n, v, f);
    Then(dec, d, a, e, NatBits(n, v), f);
  }

  lemma OneBit()
    ensures NatBits(1, 1) == [true] && NatBits(1, 0) == [false] && Pow2(1) == 2
  {
    assert NatBits(0, 0) == [];
  }

  /** A field of one bit. */
  lemma ThenBit(dec: Machine<Dec>, d: Dec, a: bits, e: Dec, b: bool, f: Dec)
    requires IsDecoder(dec)
    requires Goes(dec, d, a, e) && Steps(e, 1, if b then 1 else 0, f)
    ensures Goes(dec, d, a + [b], f)
  {
    OneBit();
    ThenField(dec, d, a, e, 1, if b then 1 else 0, f);
  }

  lemma ByteFits(c: nat)
    requires c < 256
    ensures c < Pow2(8)
  {
    Pow2Consts();
  }

  /** The bytes `cs` take the decoder through the states `at`. */
  ghost predicate Path(at: seq<Dec>, cs: seq<nat>) {
    && |at| == |cs| + 1 && !at[0].Emitting?
    && forall j {:trigger cs[j]} :: 0 <= j < |cs| ==> Steps(at[j], CHAR_WIDTH, cs[j], at[j + 1])
  }

  lemma {:induction false} CharsGo(dec: Machine<Dec>, at: seq<Dec>, cs: seq<nat>, i: nat)
    requires IsDecoder(dec)
    requires Path(at, cs) && i <= |cs|
    ensures Goes(dec, at[0], CharsUpTo(cs, i), at[i])
  {
    hide Step, Need, Reads;
    if i == 0 { GoesNothing(dec, at[0]); } else {
      var k := i - 1;
      CharsGo(dec, at, cs, k);
      assert Steps(at[k], CHAR_WIDTH, cs[k], at[k + 1]);
      ThenField(dec, at[0], CharsUpTo(cs, k), at[k], CHAR_WIDTH, cs[k], at[i]);
    }
  }

  /** The bits `b` one by one take the decoder through the states `at`. */
  ghost predicate BitPath(at: seq<Dec>, b: bits) {
    && |at| == |b| + 1 && !at[0].Emitting?
    && forall j {:trigger b[j]} :: 0 <= j < |b| ==> Steps(at[j], 1, if b[j] then 1 else 0, at[j + 1])
  }

  lemma {:induction false} BitsGo(dec: Machine<Dec>, at: seq<Dec>, b: bits, i: nat)
    requires IsDecoder(dec)
    requires BitPath(at, b) && i <= |b|
    ensures Goes(dec, at[0], b[..i], at[i])
  {
    if i == 0 { GoesNothing(dec, at[0]); } else {
      var k := i - 1;
      BitsGo(dec, at, b, k);
      assert b[..i] == b[..k] + [b[k]];
      assert Steps(at[k], 1, if b[k] then 1 else 0, at[k + 1]);
      ThenBit(dec, at[0], b[..k], at[k], b[k], at[i]);
    }
  }

  /** The pieces `ps` one by one take the decoder through the states `at`. */
  ghost predicate PiecePath(dec: Machine<Dec>, at: seq<Dec>, ps: seq<bits>, n: nat) {
    |at| == n + 1 <= |ps| + 1 && !at[0].Emitting? && forall j {:trigger ps[j]} :: 0 <= j < n ==>
      Goes(dec, at[j], ps[j], at[j + 1])
  }

  lemma {:induction false} PiecesGo(dec: Machine<Dec>, at: seq<Dec>, ps: seq<bits>, n: nat, i: nat)
    requires IsDecoder(dec)
    requires PiecePath(dec, at, ps, n) && i <= n
    ensures Goes(dec, at[0], Joined(ps, 0, i), at[i])
  {
    if i == 0 { GoesNothing(dec, at[0]); } else {
      var k := i - 1;
      PiecesGo(dec, at, ps, n, k);
      Then(dec, at[0], Joined(ps, 0, k), at[k], ps[k], at[i]);
    }
  }

  function HeaderAt(small: bool, level: nat, i: nat): Dec {
    if i < 4 then Magic(small, i) else BlockMagic(Stream(small, level, 0), 0)
  }

  function HeaderChars(level: nat): (cs: seq<nat>)
    ensures |cs| == 4
  {
    HeaderMagic() + [HDR_0 + level]
  }

  lemma HeaderCharBits(level: nat)
    ensures Chars(HeaderChars(level)) == HeaderBits(level)
  {
    CharsPrefix(HeaderMagic(), HDR_0 + level, 3);
  }

  lemma {:induction false} CharsPrefix(s: seq<nat>, c: nat, i: nat)
    requires i <= |s|
    ensures CharsUpTo(s + [c], i) == CharsUpTo(s, i)
  {
    if i > 0 { CharsPrefix(s, c, i - 1); }
  }

  lemma HeaderStep(small: bool, level: nat, j: nat)
    requires 1 <= level <= 9 && j < 4
    ensures Steps(HeaderAt(small, level, j), CHAR_WIDTH, HeaderChars(level)[j], HeaderAt(small, level, j + 1))
  {
    ByteFits(HeaderChars(level)[j]);
  }

  lemma HeaderReads(dec: Machine<Dec>, small: bool, level: nat)
    requires IsDecoder(dec)
    requires 1 <= level <= 9
    ensures Goes(dec, Magic(small, 0), HeaderBits(level), BlockMagic(Stream(small, level, 0), 0))
  {
    var cs, at := HeaderChars(level), seq(5, i requires 0 <= i => HeaderAt(small, level, i));
    forall j {:trigger cs[j]} | 0 <= j < 4 ensures Steps(at[j], CHAR_WIDTH, cs[j], at[j + 1]) {
      HeaderStep(small, level, j);
    }
    hide Steps, Reads, CharsUpTo;
    CharsGo(dec, at, cs, 4);
    HeaderCharBits(level);
  }

  function BlockMagicAt(st: Stream, i: nat): Dec {
    if i < 6 then BlockMagic(st, i) else BlockCrc(st, 0, 0)
  }

  lemma BlockMagicStep(st: Stream, j: nat)
    requires j < 6
    ensures Steps(BlockMagicAt(st, j), CHAR_WIDTH, BlockStart()[j], BlockMagicAt(st, j + 1))
      && !BlockMagicAt(st, 0).Emitting?
  {
    ByteFits(BlockStart()[j]);
  }

  lemma BlockMagicReads(dec: Machine<Dec>, st: Stream)
    requires IsDecoder(dec)
    ensures Goes(dec, BlockMagic(st, 0), Chars(BlockStart()), BlockCrc(st, 0, 0))
  {
    hide CharsUpTo, Reads, Steps;
    var at := seq(7, i requires 0 <= i => BlockMagicAt(st, i));
    forall j {:trigger BlockStart()[j]} | 0 <= j < 6 ensures Steps(at[j], CHAR_WIDTH, BlockStart()[j], at[j + 1]) {
      BlockMagicStep(st, j);
    }
    CharsGo(dec, at, BlockStart(), 6);
  }

  function EndMagicAt(st: Stream, i: nat): Dec {
    if i == 0 then BlockMagic(st, 0) else if i < 6 then EndMagic(st, i) else StreamCrc(st, 0, 0)
  }

  lemma EndMagicStep(st: Stream, j: nat)
    requires j < 6
    ensures Steps(EndMagicAt(st, j), CHAR_WIDTH, StreamEnd()[j], EndMagicAt(st, j + 1))
  {
    ByteFits(StreamEnd()[j]);
  }

  lemma EndMagicReads(dec: Machine<Dec>, st: Stream)
    requires IsDecoder(dec)
    ensures Goes(dec, BlockMagic(st, 0), Chars(StreamEnd()), StreamCrc(st, 0, 0))
  {
    hide CharsUpTo, Reads, Steps;
    var at := seq(7, i requires 0 <= i => EndMagicAt(st, i));
    forall j {:trigger StreamEnd()[j]} | 0 <= j < 6 ensures Steps(at[j], CHAR_WIDTH, StreamEnd()[j], at[j + 1]) {
      EndMagicStep(st, j);
    }
    CharsGo(dec, at, StreamEnd(), 6);
  }

  /** The value after `i` of the four bytes of a word. */
  function WordPart(u: word, i: nat): word {
    if i == 0 then 0 else if i == 1 then u / 0x100_0000 else if i == 2 then u / 0x1_0000 else if i == 3 then u / 256
      else u
  }

  function WordByte(u: word, i: nat): (c: nat)
    ensures c < 256
  {
    if i == 0 then u / 0x100_0000 else if i == 1 then u / 0x1_0000 % 256 else if i == 2 then u / 256 % 256 else u % 256
  }

  lemma WordAppend(u: word, i: nat)
    requires i < 4
    ensures Append8(WordPart(u, i), WordByte(u, i)) == WordPart(u, i + 1)
  {
  }

  /** The bytes of a word, high to low. */
  function WordBytes(u: word): (cs: seq<byte>)
    ensures |cs| == 4 && forall j :: 0 <= j < 4 ==> cs[j] == WordByte(u, j)
  {
    seq(4, j requires 0 <= j < 4 => WordByte(u, j))
  }

  lemma WordChars(u: word)
    ensures Chars(WordBytes(u)) == WordBits(u)
  {
    var cs := WordBytes(u);
    assert [] + Char(cs[0]) == Char(cs[0]);
    assert CharsUpTo(cs, 1) == Char(cs[0]);
    assert CharsUpTo(cs, 2) == CharsUpTo(cs, 1) + Char(cs[1]);
    assert CharsUpTo(cs, 3) == CharsUpTo(cs, 2) + Char(cs[2]);
  }

  function BlockCrcAt(st: Stream, crc: word, i: nat): Dec {
    if i < 4 then BlockCrc(st, i, WordPart(crc, i)) else RandBit(st, crc)
  }

  lemma BlockCrcStep(st: Stream, crc: word, i: nat)
    requires i < 4
    ensures Steps(BlockCrcAt(st, crc, i), CHAR_WIDTH, WordBytes(crc)[i], BlockCrcAt(st, crc, i + 1))
  {
    WordAppend(crc, i);
    ByteFits(WordByte(crc, i));
  }

  lemma BlockCrcReads(dec: Machine<Dec>, st: Stream, crc: word)
    requires IsDecoder(dec)
    ensures Goes(dec, BlockCrc(st, 0, 0), WordBits(crc), RandBit(st, crc))
  {
    var at := seq(5, i requires 0 <= i => BlockCrcAt(st, crc, i));
    forall j {:trigger WordBytes(crc)[j]} | 0 <= j < 4 ensures Steps(at[j], CHAR_WIDTH, WordBytes(crc)[j], at[j + 1]) {
      BlockCrcStep(st, crc, j);
    }
    CharsGo(dec, at, WordBytes(crc), 4);
    WordChars(crc);
  }

  /** Where the stored checksum `u` of the stream leads. */
  function StreamCrcAt(st: Stream, u: word, i: nat): Dec {
    if i < 4 then StreamCrc(st, i, WordPart(u, i)) else if u == st.combined then Done else Failed
  }

  lemma StreamCrcStep(st: Stream, u: word, i: nat)
    requires i < 4
    ensures Steps(StreamCrcAt(st, u, i), CHAR_WIDTH, WordBytes(u)[i], StreamCrcAt(st, u, i + 1))
  {
    WordAppend(u, i);
    ByteFits(WordByte(u, i));
  }

  lemma StreamCrcReads(dec: Machine<Dec>, st: Stream, u: word)
    requires IsDecoder(dec)
    ensures Goes(dec, StreamCrc(st, 0, 0), WordBits(u), if u == st.combined then Done else Failed)
  {
    var at := seq(5, i requires 0 <= i => StreamCrcAt(st, u, i));
    forall j {:trigger WordBytes(u)[j]} | 0 <= j < 4 ensures Steps(at[j], CHAR_WIDTH, WordBytes(u)[j], at[j + 1]) {
      StreamCrcStep(st, u, j);
    }
    CharsGo(dec, at, WordBytes(u), 4);
    WordChars(u);
  }

  /** The trailer is accepted if and only if the checksums agree. */
  lemma TrailerReads(dec: Machine<Dec>, st: Stream, u: word)
    requires IsDecoder(dec)
    ensures Goes(dec, BlockMagic(st, 0), TrailerBits(u), if u == st.combined then Done else Failed)
  {
    EndMagicReads(dec, st);
    StreamCrcReads(dec, st, u);
    Then(dec, BlockMagic(st, 0), Chars(StreamEnd()), StreamCrc(st, 0, 0), WordBits(u), if u == st.combined then Done
      else Failed);
  }

  /** A field of `n + m` bits read in two parts. */
  lemma SplitBits(n: nat, m: nat, v: nat)
    ensures NatBits(n + m, v) == NatBits(n, Shr(v, m)) + NatBits(m, Low(v, m))
  {
    ShrBits(n + m, v, m);
    NarrowBits(n + m, m, v);
    LowBits(m, v);
  }
}
