/** The whole codec: the decoder undoes a stream of compressed blocks. */
module RoundTrip {
  import opened Bits
  import opened Crc
  import opened Counting
  import opened Rotations
  import opened InverseBwt
  import opened RunLength
  import opened Mtf
  import opened MtfEncoder
  import opened HuffmanCodes
  import opened UndoBwt
  import opened Output
  import opened Collecting
  import opened Resumable
  import opened Decoder
  import opened Format
  import opened FormatReads
  import opened TableReads
  import opened DataReads

  /**
   * A compressed block with what it was made of and what became of it: its runs, the order of its rotations,
   * its bits and the bytes it stands for.
   */
  datatype Made = Made(b: Block, runs: seq<Run>, p: seq<int>, z: bits, data: seq<byte>)

  /** The last column of the sorted rotations. */
  ghost function Column(m: Made): seq<int>
    requires GoodRuns(m.runs) && IsPerm(m.p, |Flatten(m.runs)|)
  {
    LastColumn(Flatten(m.runs), m.p)
  }

  // What is required of a compressed block, one by one.

  ghost predicate RunsFit(m: Made, level: nat) {
    GoodRuns(m.runs) && |Flatten(m.runs)| <= 100000 * level
  }

  ghost predicate OrderSorts(m: Made) {
    GoodRuns(m.runs) && Flatten(m.runs) != [] && SortsRotations(Flatten(m.runs), m.p) && m.b.orig < |m.p|
      && m.p[m.b.orig] == 0
  }

  ghost predicate SymbolsStand(m: Made) {
    && OrderSorts(m) && Marks(m.b.inUse, Flatten(m.runs)) && Covers(m.b.inUse, Column(m))
    && m.b.syms == Symbols(Ranks(m.b.inUse, Column(m)), UsedCount(m.b.inUse))
  }

  ghost predicate BitsStand(m: Made) {
    Writable(m.b) && m.z == BlockBits(m.b)
  }

  ghost predicate DataStands(m: Made) {
    m.data == Unrolled(m.runs) && m.b.crc == Crc.BlockCrc(m.data)
  }

  ghost predicate Passes(m: Made, level: nat, i: nat) {
    if i == 0 then RunsFit(m, level)
    else if i == 1 then OrderSorts(m)
    else if i == 2 then SymbolsStand(m)
    else if i == 3 then BitsStand(m)
    else if i == 4 then DataStands(m)
    else m.runs != []
  }

  const CHECKS := 6

  /** The first `n` requirements. */
  ghost predicate PassesFirst(m: Made, level: nat, n: nat) {
    n == 0 || (PassesFirst(m, level, n - 1) && Passes(m, level, n - 1))
  }

  /** The block is the compressed form of its runs. */
  ghost predicate WellMade(m: Made, level: nat) {
    PassesFirst(m, level, CHECKS)
  }

  lemma {:induction false} PassesAll(m: Made, level: nat, n: nat, i: nat)
    requires PassesFirst(m, level, n) && i < n
    ensures Passes(m, level, i)
  {
    if i < n - 1 { PassesAll(m, level, n - 1, i); }
  }

  ghost predicate Compresses(m: Made, level: nat) {
    RunsFit(m, level) && SymbolsStand(m) && BitsStand(m) && DataStands(m) && m.runs != []
  }

  lemma WellMadeIs(m: Made, level: nat)
    requires WellMade(m, level)
    ensures Compresses(m, level)
  {
    PassesAll(m, level, CHECKS, 0);
    PassesAll(m, level, CHECKS, 2);
    PassesAll(m, level, CHECKS, 3);
    PassesAll(m, level, CHECKS, 4);
    PassesAll(m, level, CHECKS, 5);
  }

  lemma {:induction false} AllPass(m: Made, level: nat, n: nat)
    requires forall i {:trigger Passes(m, level, i)} :: 0 <= i < n ==> Passes(m, level, i)
    ensures PassesFirst(m, level, n)
  {
    if n > 0 { AllPass(m, level, n - 1); }
  }

  lemma CompressesIs(m: Made, level: nat)
    requires Compresses(m, level)
    ensures WellMade(m, level)
  {
    forall i {:trigger Passes(m, level, i)} | 0 <= i < CHECKS ensures Passes(m, level, i) {}
    AllPass(m, level, CHECKS);
  }

  lemma {:induction false} SeqToUnseqRank(inUse: seq<bool>, n: nat, c: nat)
    requires c < n <= |inUse| <= 256 && inUse[c]
    ensures |SeqToUnseq(inUse, n)| == Rank(inUse, n) && Rank(inUse, c) < Rank(inUse, n)
    ensures SeqToUnseq(inUse, n)[Rank(inUse, c)] == c
  {
    SeqToUnseqCount(inUse, n);
    SeqToUnseqCount(inUse, n - 1);
    RankMono(inUse, c, n);
    if c < n - 1 { SeqToUnseqRank(inUse, n - 1, c); }
  }

  lemma {:induction false} SeqToUnseqCount(inUse: seq<bool>, n: nat)
    requires n <= |inUse| <= 256
    ensures |SeqToUnseq(inUse, n)| == Rank(inUse, n)
  {
    if n > 0 { SeqToUnseqCount(inUse, n - 1); }
  }

  /** The byte map is undone. */
  lemma UnmappedRanks(inUse: seq<bool>, l: seq<int>)
    requires Covers(inUse, l)
    ensures Unmapped(SeqToUnseq(inUse, 256), Ranks(inUse, l)) == l
  {
    var u, v := SeqToUnseq(inUse, 256), Ranks(inUse, l);
    forall i | 0 <= i < |l| ensures Unmapped(u, v)[i] == l[i] {
      SeqToUnseqRank(inUse, 256, l[i]);
    }
  }

  /** The decoder's output for the last column of a sorted block of runs. */
  lemma ColumnOutput(b: seq<byte>, p: seq<int>, orig: nat, runs: seq<Run>)
    requires GoodRuns(runs) && b == Flatten(runs) && b != []
    requires SortsRotations(b, p) && orig < |p| && p[orig] == 0
    requires Bytes(LastColumn(b, p))
    ensures Rest(Tape(LastColumn(b, p), orig), |b|, 1) == Expanded(Unrolled(runs), true)
  {
    var l := LastColumn(b, p);
    var w := Tape(l, orig);
    InverseOfForward(b, p, orig);
    RestExpands(w, |b|, 1);
    assert w[..|b|][0..] == w[..|b|] == b;
    ExpandFlatten(runs, w[|b|]);
  }

  function HeadOf(b: Block): Head
    requires |b.inUse| == 256
  {
    Head(b.crc, b.orig, SeqToUnseq(b.inUse, 256))
  }

  lemma MagicReads(dec: Machine<Dec>, st: Stream, b: Block)
    requires IsDecoder(dec)
    ensures Goes(dec, BlockMagic(st, 0), Chars(BlockStart()) + WordBits(b.crc) + [false], OrigPtr(st, b.crc, 0, 0))
  {
    var d := BlockMagic(st, 0);
    BlockMagicReads(dec, st);
    BlockCrcReads(dec, st, b.crc);
    Then(dec, d, Chars(BlockStart()), Decoder.BlockCrc(st, 0, 0), WordBits(b.crc), RandBit(st, b.crc));
    OneBit();
    ThenBit(dec, d, Chars(BlockStart()) + WordBits(b.crc), RandBit(st, b.crc), false, OrigPtr(st, b.crc, 0, 0));
  }

  lemma TablesSuit(b: Block)
    requires Writable(b)
    ensures SuitedTables(HeadOf(b), b.cd) && AllCoded(b.cd, b.syms)
  {
    var cd := b.cd;
    forall t | 0 <= t < |cd.lens|
      ensures cd.lens[t] != [] && |cd.lens[t]| == |HeadOf(b).unseq| + 2 && Lengths(cd.lens[t], 1, LONGEST)
    {
      assert GoodTable(cd.lens[t], |HeadOf(b).unseq| + 2);
    }
    forall k | 0 <= k < |b.syms| ensures DataReads.Coded(cd, k, b.syms[k]) {
      assert k / GROUP_SIZE < |cd.selectors|;
      assert GoodTable(cd.lens[cd.selectors[k / GROUP_SIZE]], |HeadOf(b).unseq| + 2);
    }
  }

  /** Everything of a block before its data. */
  lemma BlockHeadReads(dec: Machine<Dec>, st: Stream, b: Block)
    requires IsDecoder(dec) && Writable(b) && b.orig <= 10 + 100000 * st.level && SeqToUnseq(b.inUse, 256) != []
    ensures Goes(dec, BlockMagic(st, 0), BlockHeadBits(b), Symbol(st, HeadOf(b), b.cd, Start(256), 0))
  {
    InIdentity(b.cd.selectors, |b.cd.lens|);
    var d, hd := BlockMagic(st, 0), Head(b.crc, b.orig, []);
    var a := Chars(BlockStart()) + WordBits(b.crc) + [false];
    MagicReads(dec, st, b);
    OrigReads(dec, st, b.crc, b.orig);
    Then(dec, d, a, OrigPtr(st, b.crc, 0, 0), NatBits(ORIG_WIDTH, b.orig), Used16(st, hd, []));
    MapReads(dec, st, hd, b.inUse);
    Then(dec, d, a + NatBits(ORIG_WIDTH, b.orig), Used16(st, hd, []), MapBits(b.inUse), NumGroups(st, HeadOf(b)));
    TablesSuit(b);
    CodingReads(dec, st, HeadOf(b), b.cd);
    Then(dec, d, a + NatBits(ORIG_WIDTH, b.orig) + MapBits(b.inUse), NumGroups(st, HeadOf(b)), CodingBits(b.cd),
         Symbol(st, HeadOf(b), b.cd, Start(256), 0));
  }

  /** What makes the block's symbols decodable. */
  lemma MadeDecodes(m: Made, level: nat)
    requires WellMade(m, level)
    ensures Compresses(m, level)
    ensures var v := Ranks(m.b.inUse, Column(m));
      && Decodable(HeadOf(m.b), m.b.syms, v, 100000 * level) && m.b.orig < |v| == |Flatten(m.runs)|
      && Unmapped(HeadOf(m.b).unseq, v) == Column(m) && HeadOf(m.b).unseq != []
  {
    WellMadeIs(m, level);
    ColumnIsLong(m);
    hide WellMade, SortsRotations, Unrolled, BlockBits, Column, Decodable, Ranks, Symbols, Writable;
    ColumnDecodes(m.b, Column(m), 100000 * level);
  }

  lemma ColumnIsLong(m: Made)
    requires OrderSorts(m)
    ensures |Column(m)| == |Flatten(m.runs)| == |m.p| > 0
  {
  }

  lemma ColumnDecodes(b: Block, l: seq<int>, max: nat)
    requires Covers(b.inUse, l) && l != [] && |l| <= max && b.syms == Symbols(Ranks(b.inUse, l), UsedCount(b.inUse))
    ensures var v := Ranks(b.inUse, l);
      && Decodable(HeadOf(b), b.syms, v, max) && |v| == |l|
      && Unmapped(HeadOf(b).unseq, v) == l && HeadOf(b).unseq != []
  {
    var v := Ranks(b.inUse, l);
    SeqToUnseqCount(b.inUse, 256);
    UnmappedRanks(b.inUse, l);
    assert Rank(b.inUse, l[0]) < UsedCount(b.inUse) by { assert v[0] == Rank(b.inUse, l[0]); }
    SymbolsDecode(v, UsedCount(b.inUse), 256);
  }

  lemma EndBlockEmits(st: Stream, hd: Head, v: seq<nat>, l: seq<byte>, p: Expanded)
    requires hd.orig < |v| <= 100000 * st.level && l == Unmapped(hd.unseq, v) && BlockOutputOf(l, hd.orig) == p
    ensures EndBlock(st, hd, v) == Emitting(st, hd.crc, p, INITIAL)
  {
    hide BlockOutputOf, Unmapped;
  }

  /** The block with the word `w` stored for its checksum. */
  function Stored(b: Block, w: word): Block {
    b.(crc := w)
  }

  /** Where the decoder is after a block. */
  function AfterBlock(st: Stream, b: Block): Dec {
    BlockMagic(st.(combined := Combine(st.combined, b.crc)), 0)
  }

  /** Where the decoder is after a block with the word `w` stored for its checksum. */
  function AfterStored(st: Stream, b: Block, w: word): Dec {
    if w == b.crc then AfterBlock(st, b) else Failed
  }

  /** A block is finished if and only if its output has the stored checksum. */
  lemma EmitsAll(st: Stream, data: seq<byte>, w: word)
    ensures EmitAll(Emitting(st, w, Expanded(data, true), INITIAL))
      == (data, if w == Crc.BlockCrc(data) then BlockMagic(st.(combined := Combine(st.combined, w)), 0) else Failed)
  {
    hide Combine, Updates, Finalise;
  }

  /** The list positions of a block; at its end the checksums are compared. */
  lemma EndOfBlock(st: Stream, m: Made, w: word) returns (v: seq<nat>)
    requires WellMade(m, st.level)
    ensures Writable(m.b) && Decodable(HeadOf(m.b), m.b.syms, v, 100000 * st.level)
    ensures HeadOf(m.b).unseq != [] && m.b.orig < |v| <= 100000 * st.level
    ensures var d := EndBlock(st, HeadOf(Stored(m.b, w)), v);
      d.Emitting? && EmitAll(d) == (m.data, AfterStored(st, m.b, w))
  {
    MadeDecodes(m, st.level);
    hide Decodable, LastColumn, Symbols, Rest, Tape, EndBlock, EmitAll, Column;
    ColumnOutput(Flatten(m.runs), m.p, m.b.orig, m.runs);
    EndBlockEmits(st, HeadOf(Stored(m.b, w)), Ranks(m.b.inUse, Column(m)), Column(m), Expanded(m.data, true));
    EmitsAll(st, m.data, w);
    v := Ranks(m.b.inUse, Column(m));
  }

  lemma StoredWritable(b: Block, w: word)
    requires Writable(b)
    ensures Writable(Stored(b, w)) && |b.inUse| == 256 && HeadOf(Stored(b, w)) == HeadOf(b).(crc := w)
  {
    hide GoodCoding, SeqToUnseq;
  }

  lemma SameDecodable(hd: Head, hd': Head, syms: seq<nat>, v: seq<nat>, max: nat)
    requires Decodable(hd, syms, v, max) && hd'.unseq == hd.unseq
    ensures Decodable(hd', syms, v, max)
  {
  }

  /** The word stored makes no difference to how the block decodes. */
  lemma StoredEnds(st: Stream, m: Made, w: word) returns (v: seq<nat>)
    requires WellMade(m, st.level)
    ensures var b := Stored(m.b, w);
      && Writable(b) && Decodable(HeadOf(b), b.syms, v, 100000 * st.level)
      && HeadOf(b).unseq != [] && HeadOf(b).orig < |v| <= 100000 * st.level
      && EndBlock(st, HeadOf(b), v).Emitting?
      && EmitAll(EndBlock(st, HeadOf(b), v)) == (m.data, AfterStored(st, m.b, w))
  {
    hide Writable, WellMade, SeqToUnseq, Decodable, EndBlock, EmitAll, AfterStored;
    v := EndOfBlock(st, m, w);
    StoredWritable(m.b, w);
    SameDecodable(HeadOf(m.b), HeadOf(Stored(m.b, w)), m.b.syms, v, 100000 * st.level);
  }

  lemma ReadsAfter(dec: Machine<Dec>, d: Dec, a: bits, e: Dec, b: bits, out: seq<byte>, f: Dec)
    requires IsDecoder(dec) && Goes(dec, d, a, e) && Reads(dec, e, b, out, f)
    ensures Reads(dec, d, a + b, out, f)
  {
    ReadsThen(dec, d, a, [], e, b, out, f);
    assert [] + out == out;
  }

  /**
   * One block with any word stored for its checksum: its bytes are output, and the decoder goes on if and only if the
   * word is their checksum.
   */
  lemma StoredReads(dec: Machine<Dec>, st: Stream, m: Made, w: word)
    requires IsDecoder(dec) && WellMade(m, st.level)
    ensures Writable(Stored(m.b, w))
    ensures Reads(dec, BlockMagic(st, 0), BlockBits(Stored(m.b, w)), m.data, AfterStored(st, m.b, w))
  {
    hide WellMade, GoodCoding, SuitedTables, AllCoded, Decodable, Reads, BlockHeadBits, EndBlock, EmitAll, AfterStored;
    var b := Stored(m.b, w);
    var v := StoredEnds(st, m, w);
    TablesSuit(b);
    BlockHeadReads(dec, st, b);
    DataRead(dec, st, HeadOf(b), b.cd, b.syms, v);
    ReadsAfter(dec, BlockMagic(st, 0), BlockHeadBits(b), Symbol(st, HeadOf(b), b.cd, Start(256), 0),
               DataBits(b.cd, b.syms), m.data, AfterStored(st, m.b, w));
  }

  /** One block: its bits take the decoder to the next with its bytes output and its checksum combined. */
  lemma BlockReads(dec: Machine<Dec>, st: Stream, m: Made)
    requires IsDecoder(dec) && WellMade(m, st.level)
    ensures Reads(dec, BlockMagic(st, 0), m.z, m.data, AfterBlock(st, m.b))
  {
    StoredReads(dec, st, m, m.b.crc);
    WellMadeIs(m, st.level);
    hide Compresses, WellMade, Writable, Reads, BlockBits;
    assert Stored(m.b, m.b.crc) == m.b;
  }

  /** All blocks are well made. */
  ghost predicate AllMade(ms: seq<Made>, level: nat) {
    1 <= level <= 9 && forall i :: 0 <= i < |ms| ==> WellMade(ms[i], level)
  }

  /** The checksums of blocks. */
  function Crcs(ms: seq<Made>): (crcs: seq<word>)
    ensures |crcs| == |ms|
  {
    if ms == [] then [] else Crcs(ms[..|ms| - 1]) + [ms[|ms| - 1].b.crc]
  }

  /** The combined checksum after blocks. */
  function Combined(ms: seq<Made>): word {
    CombineAll(Crcs(ms))
  }

  lemma CombinedLast(ms: seq<Made>)
    requires ms != []
    ensures Combined(ms) == Combine(Combined(ms[..|ms| - 1]), ms[|ms| - 1].b.crc)
  {
    assert Crcs(ms)[..|ms| - 1] == Crcs(ms[..|ms| - 1]);
  }

  /** The bytes that blocks stand for. */
  ghost function Content(ms: seq<Made>): seq<byte> {
    if ms == [] then [] else Content(ms[..|ms| - 1]) + ms[|ms| - 1].data
  }

  /** The header and the blocks. */
  ghost function BlocksBits(level: nat, ms: seq<Made>): bits {
    if ms == [] then HeaderBits(level) else BlocksBits(level, ms[..|ms| - 1]) + ms[|ms| - 1].z
  }

  ghost function StreamBits(level: nat, ms: seq<Made>): bits {
    BlocksBits(level, ms) + TrailerBits(Combined(ms))
  }

  /** A stream ends with the magic number and that parity, bit by bit. */
  lemma StreamTrailer(level: nat, ms: seq<Made>, i: nat)
    requires i < WIDTH
    ensures var z, n := StreamBits(level, ms), |BlocksBits(level, ms)|;
      && |z| == n + 48 + WIDTH && z[n..n + 48] == Chars(StreamEnd())
      && (z[n + 48 + i] <==> BitsSet(Crcs(ms), i, |ms|) % 2 == 1)
  {
    hide NatBits, BitsSet, BlocksBits, CharsUpTo;
    WordIsBits(Combined(ms));
    CombinedBit(Crcs(ms), i);
    CharsLength(StreamEnd(), 6);
  }

  lemma {:induction false} CharsLength(cs: seq<nat>, i: nat)
    requires i <= |cs|
    ensures |CharsUpTo(cs, i)| == CHAR_WIDTH * i
  {
    if i > 0 { CharsLength(cs, i - 1); }
  }

  lemma BlocksThen(dec: Machine<Dec>, d: Dec, a: bits, out: seq<byte>, st: Stream, m: Made)
    requires IsDecoder(dec) && WellMade(m, st.level) && Reads(dec, d, a, out, BlockMagic(st, 0))
    ensures Reads(dec, d, a + m.z, out + m.data, AfterBlock(st, m.b))
  {
    BlockReads(dec, st, m);
    ReadsThen(dec, d, a, out, BlockMagic(st, 0), m.z, m.data, AfterBlock(st, m.b));
  }

  lemma {:induction false} BlocksRead(dec: Machine<Dec>, small: bool, level: nat, ms: seq<Made>)
    requires IsDecoder(dec) && AllMade(ms, level)
    ensures Reads(dec, Magic(small, 0), BlocksBits(level, ms), Content(ms),
      BlockMagic(Stream(small, level, Combined(ms)), 0))
  {
    if ms == [] {
      HeaderReads(dec, small, level);
    } else {
      var init, m := ms[..|ms| - 1], ms[|ms| - 1];
      BlocksRead(dec, small, level, init);
      CombinedLast(ms);
      BlocksThen(dec, Magic(small, 0), BlocksBits(level, init), Content(init), Stream(small, level, Combined(init)), m);
    }
  }

  /** The decoder accepts the stream of well-made blocks, and outputs exactly what they stand for. */
  lemma StreamReads(dec: Machine<Dec>, small: bool, level: nat, ms: seq<Made>)
    requires IsDecoder(dec) && AllMade(ms, level)
    ensures Reads(dec, Magic(small, 0), StreamBits(level, ms), Content(ms), Done)
  {
    BlocksRead(dec, small, level, ms);
    var st := Stream(small, level, Combined(ms));
    TrailerReads(dec, st, st.combined);
    ReadsThen(dec, Magic(small, 0), BlocksBits(level, ms), Content(ms), BlockMagic(st, 0), TrailerBits(Combined(ms)),
      [], Done);
    assert Content(ms) + [] == Content(ms);
  }

  /** In one call, with whatever padding or other data follows the stream. */
  lemma StreamDecodes(small: bool, level: nat, ms: seq<Made>, tail: bits)
    requires AllMade(ms, level)
    ensures Result(TheDecoder(), Magic(small, 0), StreamBits(level, ms) + tail) == (Content(ms), Done, tail)
  {
    TheDecoderIsOne();
    StreamReads(TheDecoder(), small, level, ms);
    EndStops(TheDecoder(), Magic(small, 0), StreamBits(level, ms), Content(ms), Done, tail);
  }

  /** After good blocks, a block with another word than its checksum stored is output, and then refused. */
  lemma StreamRefused(small: bool, level: nat, ms: seq<Made>, m: Made, w: word, tail: bits)
    requires AllMade(ms, level) && WellMade(m, level) && w != m.b.crc
    ensures Writable(Stored(m.b, w))
    ensures Result(TheDecoder(), Magic(small, 0), BlocksBits(level, ms) + BlockBits(Stored(m.b, w)) + tail)
      == (Content(ms) + m.data, Failed, tail)
  {
    hide WellMade, Writable, BlockBits, BlocksBits, Content, Result, Combined;
    TheDecoderIsOne();
    var dec, d, st := TheDecoder(), Magic(small, 0), Stream(small, level, Combined(ms));
    BlocksRead(dec, small, level, ms);
    StoredReads(dec, st, m, w);
    ReadsThen(dec, d, BlocksBits(level, ms), Content(ms), BlockMagic(st, 0), BlockBits(Stored(m.b, w)), m.data, Failed);
    EndStops(dec, d, BlocksBits(level, ms) + BlockBits(Stored(m.b, w)), Content(ms) + m.data, Failed, tail);
  }

  /** Nothing is read past the end of the stream. */
  lemma EndStops(dec: Machine<Dec>, d: Dec, a: bits, out: seq<byte>, e: Dec, tail: bits)
    requires IsDecoder(dec) && Reads(dec, d, a, out, e) && e.Terminal()
    ensures Result(dec, d, a + tail) == (out, e, tail)
  {
    ResultAppend(dec, d, a, tail);
    assert [] + tail == tail;
    assert Need(e) == 0 && dec.need(e) == 0;
    assert Result(dec, e, tail) == ([], e, tail);
    assert out + [] == out;
  }
}
