/** What bzip2smp hands from one compressor to the next, against one compressor that does it all. */
module Handover {
  import opened Bits
  import opened Crc
  import opened RunLength
  import opened Collecting
  import opened Division
  import opened Decoder
  import opened Format
  import opened BlockWriter
  import opened RoundTrip
  import opened Compressor

  /** The bits of a coded block, and how long its last field is. */
  datatype Code = Code(z: bits, tail: nat)

  /** `code` is what BZ2_compressBlock_compute and sendMTFValues_save make of a block, given its number. */
  datatype Config = Config(level: nat, max: nat, code: (nat, Input) -> Code)

  /** `bz_stream_state_bs` */
  datatype Saved = Saved(ch: nat, len: nat, blockNo: nat, combined: word) {
    ghost predicate Valid() {
      NewStream(this).Valid()
    }
  }

  function Unsaved(): Saved {
    Saved(NO_CHAR, 0, 1, 0)
  }

  /** A new stream after BZ2_bzCompressRestoreState. */
  function NewStream(v: Saved): Input {
    Fresh().(ch := v.ch, len := v.len)
  }

  /** A compressor as it goes from the reader over a worker to the writer; `z` are the bits of its coded block. */
  datatype Strm = Strm(s: Input, blockNo: nat, combined: word, last: bool, coded: bool, z: bits, tail: nat)

  /** BZ2_bzCompressSaveStateBeforeBlocksort */
  function SaveState(j: Strm): Saved {
    Saved(j.s.ch, j.s.len, j.blockNo + 1, Combine(j.combined, Finalise(j.s.crc)))
  }

  /**
   * What the reader makes of `rest`: a full block, or the last one if the input ends first; and what it then has left.
   */
  function ReadBlock(c: Config, v: Saved, rest: seq<byte>): (r: (Strm, seq<byte>))
    requires v.Valid()
    ensures r.0.s.Valid() && |r.1| <= |rest| && (0 < c.max && !r.0.last ==> |r.1| < |rest|)
  {
    var (t, n) := Fill(NewStream(v), rest, c.max);
    if |t.block| >= c.max then (Strm(t, v.blockNo, v.combined, false, false, [], 0), rest[n..])
    else (Strm(Flush(t), v.blockNo, v.combined, true, false, [], 0), [])
  }

  /** All the streams that the reader makes. */
  function Streams(c: Config, v: Saved, rest: seq<byte>): (js: seq<Strm>)
    requires v.Valid() && 0 < c.max
    ensures js != []
    decreases |rest|
  {
    var (j, rest') := ReadBlock(c, v, rest);
    if j.last then [j] else [j] + Streams(c, SaveState(j), rest')
  }

  /** BZ2_bzCompressDoBlocksort */
  function Compute(c: Config, j: Strm): Strm {
    if j.s.block == [] then j.(coded := true)
    else j.(coded := true, z := c.code(j.blockNo, j.s).z, tail := c.code(j.blockNo, j.s).tail, combined :=
      Combine(j.combined, Finalise(j.s.crc)))
  }

  /** What BZ2_bzCompressStoreBlocksort writes. */
  function Store(c: Config, j: Strm): bits {
    (if j.blockNo == 1 then HeaderBits(c.level) else []) + j.z + (if j.last then TrailerBits(j.combined) else [])
  }

  function StoreAll(c: Config, js: seq<Strm>): bits {
    if js == [] then [] else Store(c, Compute(c, js[0])) + StoreAll(c, js[1..])
  }

  /** The header goes before the first block. */
  function Head(c: Config, blockNo: nat): bits {
    if blockNo == 1 then HeaderBits(c.level) else []
  }

  /** A full block. */
  function FullPart(c: Config, t: Input, blockNo: nat): bits {
    Head(c, blockNo) + c.code(blockNo, t).z
  }

  /** The last block, if there is any, and the trailer. */
  function LastPart(c: Config, t: Input, blockNo: nat, combined: word): bits
    requires t.Valid()
  {
    var u := Flush(t);
    Head(c, blockNo) + (if u.block == [] then [] else c.code(blockNo, u).z)
    + TrailerBits(if u.block == [] then combined else Combine(combined, Finalise(u.crc)))
  }

  /** One compressor run over all the input and then finished: everything stays in its own fields. */
  function OneCompressor(c: Config, s: Input, blockNo: nat, combined: word, rest: seq<byte>): bits
    requires s.Valid() && 0 < c.max && s.block == []
    decreases |rest|
  {
    var (t, n) := Fill(s, rest, c.max);
    if |t.block| >= c.max then
      FullPart(c, t, blockNo) + OneCompressor(c, NewBlock(t), blockNo + 1, Combine(combined, Finalise(t.crc)),
        rest[n..])
    else LastPart(c, t, blockNo, combined)
  }

  lemma FullStored(c: Config, j: Strm)
    requires j.s.block != [] && !j.last && !j.coded
    ensures Store(c, Compute(c, j)) == FullPart(c, j.s, j.blockNo)
  {
    var b := FullPart(c, j.s, j.blockNo);
    assert b + [] == b;
  }

  lemma LastStored(c: Config, v: Saved, t: Input)
    requires t.Valid()
    ensures Store(c, Compute(c, Strm(Flush(t), v.blockNo, v.combined, true, false, [], 0)))
      == LastPart(c, t, v.blockNo, v.combined)
  {
  }

  /** The first of the streams and the others. */
  lemma StoreFirst(c: Config, v: Saved, rest: seq<byte>)
    requires v.Valid() && 0 < c.max
    ensures var (j, rest') := ReadBlock(c, v, rest);
      StoreAll(c, Streams(c, v, rest))
      == Store(c, Compute(c, j)) + if j.last then [] else StoreAll(c, Streams(c, SaveState(j), rest'))
  {
    var (j, rest') := ReadBlock(c, v, rest);
    if j.last {
      assert [j][1..] == [];
    } else {
      var js := Streams(c, SaveState(j), rest');
      assert ([j] + js)[0] == j && ([j] + js)[1..] == js;
    }
  }

  /** What is handed over is all that matters of the compressor before. */
  lemma {:induction false} HandoverIsOne(c: Config, v: Saved, rest: seq<byte>)
    requires v.Valid() && 0 < c.max
    ensures StoreAll(c, Streams(c, v, rest)) == OneCompressor(c, NewStream(v), v.blockNo, v.combined, rest)
    decreases |rest|
  {
    var (j, rest') := ReadBlock(c, v, rest);
    StoreFirst(c, v, rest);
    if j.last {
      LastStored(c, v, Fill(NewStream(v), rest, c.max).0);
      AppendEmpty(LastPart(c, Fill(NewStream(v), rest, c.max).0, v.blockNo, v.combined));
    } else {
      HandoverIsOne(c, SaveState(j), rest');
      HandoverFull(c, v, rest);
    }
  }

  lemma FullRead(c: Config, v: Saved, rest: seq<byte>)
    requires v.Valid() && 0 < c.max && !ReadBlock(c, v, rest).0.last
    ensures var (t, n) := Fill(NewStream(v), rest, c.max);
      |t.block| >= c.max && t.block != []
        && ReadBlock(c, v, rest) == (Strm(t, v.blockNo, v.combined, false, false, [], 0), rest[n..])
  {
  }

  lemma HandoverFull(c: Config, v: Saved, rest: seq<byte>)
    requires v.Valid() && 0 < c.max && !ReadBlock(c, v, rest).0.last
    ensures var (j, rest') := ReadBlock(c, v, rest); var w := SaveState(j);
      OneCompressor(c, NewStream(v), v.blockNo, v.combined, rest)
      == Store(c, Compute(c, j)) + OneCompressor(c, NewStream(w), w.blockNo, w.combined, rest')
  {
    hide OneCompressor, Store, Compute, FullPart, Fill, Combine, Finalise, ReadBlock;
    FullRead(c, v, rest);
    FullStored(c, ReadBlock(c, v, rest).0);
    NextStream(c, v, rest);
    FullThen(c, NewStream(v), v.blockNo, v.combined, rest);
  }

  lemma AppendEmpty(b: bits)
    ensures b + [] == b
  {
  }

  /** Restoring what was saved makes the stream that the compressor would have gone on with. */
  lemma NextStream(c: Config, v: Saved, rest: seq<byte>)
    requires v.Valid() && !ReadBlock(c, v, rest).0.last
    ensures var j := ReadBlock(c, v, rest).0; NewStream(SaveState(j)) == NewBlock(j.s)
  {
  }

  /** `ms` are blocks compressed from those into which `data` falls, and `code` gives their bits. */
  ghost predicate Records(c: Config, data: seq<byte>, ms: seq<Made>) {
    && AllMade(ms, c.level) && c.max == BlockMax(c.level) && Codes(BlocksOf(c.level, data), ms)
    && forall i {:trigger ms[i]} :: 0 <= i < |ms| ==> ms[i].z == c.code(i + 1, BlocksOf(c.level, data)[i]).z
  }

  /** The code that a compressor's own blocks record. */
  ghost function Recorded(level: nat, ms: seq<Made>): Config
    requires 1 <= level
  {
    Config(level, BlockMax(level), (k: nat, s: Input) => if 1 <= k <= |ms| then Code(ms[k - 1].z, Tail(ms[k - 1].b))
      else Code([], 0))
  }

  /** The length of the last code of a block. */
  function Tail(b: Block): nat {
    if b.syms == [] then 0 else TailOf(b.cd, b.syms)
  }

  lemma RecordedRecords(level: nat, data: seq<byte>, ms: seq<Made>)
    requires AllMade(ms, level) && Codes(BlocksOf(level, data), ms)
    ensures Records(Recorded(level, ms), data, ms)
  {
  }

  /** A block's own checksum is that of the state it was compressed from. */
  lemma CodedCrc(s: Input, m: Made, level: nat)
    requires WellMade(m, level) && Represents(s, m.runs)
    ensures m.b.crc == Finalise(s.crc) && m.data == Unrolled(m.runs)
  {
    WellMadeIs(m, level);
  }

  /** The bytes of a block are determined by what it holds. */
  lemma SameBytes(s: Input, runs: seq<Run>, others: seq<Run>)
    requires Represents(s, runs) && Represents(s, others)
    ensures Unrolled(runs) == Unrolled(others)
  {
    ExpandFlatten(runs, 0);
    ExpandFlatten(others, 0);
  }

  lemma HeadFirst(c: Config, ms: seq<Made>, b: bits)
    ensures Written(c.level, ms) + (Head(c, |ms| + 1) + b) == BlocksBits(c.level, ms) + b
  {
  }

  lemma Completed(w: bits, head: bits, code: bits, tail: bits, blocks: bits)
    requires w + (head + code) == blocks
    ensures w + (head + code + tail) == blocks + tail
  {
  }

  lemma Chained(w: bits, a: bits, b: bits, wr: bits, x: bits)
    requires wr == w + a && x == wr + b
    ensures x == w + (a + b)
  {
  }

  /** A full block and what follows it. */
  lemma FullThen(c: Config, s: Input, blockNo: nat, combined: word, rest: seq<byte>)
    requires s.Valid() && s.block == [] && 0 < c.max && |Fill(s, rest, c.max).0.block| >= c.max
    ensures var (t, n) := Fill(s, rest, c.max);
      OneCompressor(c, s, blockNo, combined, rest)
      == FullPart(c, t, blockNo) + OneCompressor(c, NewBlock(t), blockNo + 1, Combine(combined, Finalise(t.crc)),
        rest[n..])
  {
  }

  /** Block `k` of `ms` was compressed from `s`. */
  ghost predicate Recording(c: Config, ms: seq<Made>, k: nat, s: Input) {
    k < |ms| && WellMade(ms[k], c.level) && Represents(s, ms[k].runs) && ms[k].z == c.code(k + 1, s).z
  }

  /** It joins those before it. */
  lemma BlockJoins(c: Config, ms: seq<Made>, k: nat, s: Input)
    requires Recording(c, ms, k, s)
    ensures ms[..k + 1] == ms[..k] + [ms[k]]
    ensures BlocksBits(c.level, ms[..k + 1]) == Written(c.level, ms[..k + 1])
      == Written(c.level, ms[..k]) + FullPart(c, s, k + 1)
    ensures Combined(ms[..k + 1]) == Combine(Combined(ms[..k]), Finalise(s.crc))
  {
    hide WellMade, Represents, Content, BlocksBits, Combined, HeaderBits, Finalise;
    CodedCrc(s, ms[k], c.level);
    OneMore(c.level, ms[..k], ms[k]);
    HeadFirst(c, ms[..k], ms[k].z);
  }

  /** The last block, if there is one, and the trailer. */
  lemma LastJoins(c: Config, ms: seq<Made>, k: nat, t: Input)
    requires t.Valid() && k <= |ms| && |ms| == k + (if Flush(t).block == [] then 0 else 1)
    requires k < |ms| ==> Recording(c, ms, k, Flush(t))
    ensures Written(c.level, ms[..k]) + LastPart(c, t, k + 1, Combined(ms[..k])) == StreamBits(c.level, ms)
  {
    hide Recording, BlocksBits, Combined, TrailerBits;
    var u := Flush(t);
    assert ms[..|ms|] == ms;
    if u.block == [] {
      HeadFirst(c, ms, []);
      assert BlocksBits(c.level, ms) + [] == BlocksBits(c.level, ms);
      Completed(Written(c.level, ms), Head(c, k + 1), [], TrailerBits(Combined(ms)), BlocksBits(c.level, ms));
    } else {
      BlockJoins(c, ms, k, u);
      Completed(Written(c.level, ms[..k]), Head(c, k + 1), c.code(k + 1, u).z, TrailerBits(Combined(ms)),
        BlocksBits(c.level, ms));
    }
  }

  /** From block `k` on: `ins` are the blocks still to come. */
  ghost predicate FollowsFrom(c: Config, ms: seq<Made>, k: nat, ins: seq<Input>) {
    k + |ins| == |ms| && forall i {:trigger ins[i]} :: 0 <= i < |ins| ==> Recording(c, ms, k + i, ins[i])
  }

  lemma FollowsNext(c: Config, ms: seq<Made>, k: nat, s: Input, more: seq<Input>)
    requires FollowsFrom(c, ms, k, [s] + more)
    ensures k < |ms| && Recording(c, ms, k, s) && FollowsFrom(c, ms, k + 1, more)
  {
    hide Recording;
    var ins, next := [s] + more, k + 1;
    assert ins[0] == s;
    forall i {:trigger more[i]} | 0 <= i < |more| ensures Recording(c, ms, next + i, more[i]) {
      assert ins[i + 1] == more[i];
    }
  }

  /** The blocks that come of `rest` from a state. */
  ghost function BlocksFrom(c: Config, s: Input, rest: seq<byte>): seq<Input>
    requires s.Valid() && |s.block| < c.max
  {
    var (ins, t) := Cut(s, rest, c.max);
    if Flush(t).block == [] then ins else ins + [Flush(t)]
  }

  lemma BlocksFromFull(c: Config, s: Input, rest: seq<byte>)
    requires s.Valid() && |s.block| < c.max && |Fill(s, rest, c.max).0.block| >= c.max
    ensures var (t, n) := Fill(s, rest, c.max); BlocksFrom(c, s, rest) == [t] + BlocksFrom(c, NewBlock(t), rest[n..])
  {
  }

  /** Nothing but the last block is still to come. */
  lemma LastFollows(c: Config, s: Input, rest: seq<byte>, ms: seq<Made>, k: nat)
    requires s.Valid() && s.block == [] && 0 < c.max && k <= |ms| && FollowsFrom(c, ms, k, BlocksFrom(c, s, rest))
    requires |Fill(s, rest, c.max).0.block| < c.max
    ensures var u := Flush(Fill(s, rest, c.max).0);
      |ms| == k + (if u.block == [] then 0 else 1) && (k < |ms| ==> Recording(c, ms, k, u))
  {
    hide Recording;
    var ins := BlocksFrom(c, s, rest);
    if ins != [] { assert ins[0] == Flush(Fill(s, rest, c.max).0); }
  }

  lemma OneLast(c: Config, s: Input, blockNo: nat, combined: word, rest: seq<byte>)
    requires s.Valid() && s.block == [] && 0 < c.max && |Fill(s, rest, c.max).0.block| < c.max
    ensures OneCompressor(c, s, blockNo, combined, rest) == LastPart(c, Fill(s, rest, c.max).0, blockNo, combined)
  {
    hide LastPart;
  }

  /** A full block more is written. */
  lemma StreamFull(c: Config, s: Input, rest: seq<byte>, ms: seq<Made>, k: nat)
    requires s.Valid() && s.block == [] && 0 < c.max && |Fill(s, rest, c.max).0.block| >= c.max && k < |ms|
    requires var (t, n) := Fill(s, rest, c.max);
      && Recording(c, ms, k, t)
      && Written(c.level, ms[..k + 1]) + OneCompressor(c, NewBlock(t), k + 2, Combined(ms[..k + 1]), rest[n..])
        == StreamBits(c.level, ms)
    ensures Written(c.level, ms[..k]) + OneCompressor(c, s, k + 1, Combined(ms[..k]), rest) == StreamBits(c.level, ms)
  {
    var (t, n) := Fill(s, rest, c.max);
    BlockJoins(c, ms, k, t);
    FullThen(c, s, k + 1, Combined(ms[..k]), rest);
    hide OneCompressor, Recording, FullPart, Written, StreamBits, Combined, Fill;
    Chained(Written(c.level, ms[..k]), FullPart(c, t, k + 1),
            OneCompressor(c, NewBlock(t), k + 2, Combined(ms[..k + 1]), rest[n..]), Written(c.level, ms[..k + 1]),
              StreamBits(c.level, ms));
  }

  lemma NewBlockEmpty(t: Input)
    requires t.Valid()
    ensures NewBlock(t).Valid() && NewBlock(t).block == []
  {
  }

  /** The one compressor's bits complete the stream of the recorded blocks. */
  lemma {:induction false} OneCompressorStreams(c: Config, s: Input, rest: seq<byte>, ms: seq<Made>, k: nat)
    requires s.Valid() && s.block == [] && 0 < c.max && k <= |ms| && FollowsFrom(c, ms, k, BlocksFrom(c, s, rest))
    ensures Written(c.level, ms[..k]) + OneCompressor(c, s, k + 1, Combined(ms[..k]), rest) == StreamBits(c.level, ms)
    decreases |rest|
  {
    hide Recording, FollowsFrom, BlocksFrom, OneCompressor, FullPart, Written, StreamBits, Combined, LastPart, Flush,
      NewBlock;
    var (t, n) := Fill(s, rest, c.max);
    NewBlockEmpty(t);
    if |t.block| >= c.max {
      BlocksFromFull(c, s, rest);
      FollowsNext(c, ms, k, t, BlocksFrom(c, NewBlock(t), rest[n..]));
      OneCompressorStreams(c, NewBlock(t), rest[n..], ms, k + 1);
      StreamFull(c, s, rest, ms, k);
    } else {
      LastFollows(c, s, rest, ms, k);
      LastJoins(c, ms, k, t);
      OneLast(c, s, k + 1, Combined(ms[..k]), rest);
    }
  }

  /** A full block more, of the bytes. */
  lemma ContentFull(c: Config, s: Input, runs: seq<Run>, rest: seq<byte>, ms: seq<Made>, k: nat, rs: seq<Run>)
    requires Open(s, runs) && s.block == [] && 0 < c.max && |Fill(s, rest, c.max).0.block| >= c.max && k < |ms|
    requires var (t, n) := Fill(s, rest, c.max);
      && Recording(c, ms, k, t) && Open(t, rs) && Taken(t, rs) == Taken(s, runs) + rest[..n]
      && Content(ms) == Content(ms[..k + 1]) + (PendingBytes(t.ch, t.len) + rest[n..])
    ensures Content(ms) == Content(ms[..k]) + (PendingBytes(s.ch, s.len) + rest)
  {
    var (t, n) := Fill(s, rest, c.max);
    OpenNoRuns(s, runs);
    BlockContent(c, ms, k, t, rs);
    hide Recording, Content, Open, Unrolled, Represents, Fill;
    JoinContent(Content(ms[..k]), Unrolled(rs), PendingBytes(t.ch, t.len), PendingBytes(s.ch, s.len), rest, n);
  }

  /** The recorded blocks hold every byte, in order. */
  lemma {:induction false} ContentFrom(c: Config, s: Input, runs: seq<Run>, rest: seq<byte>, ms: seq<Made>, k: nat)
    requires s.Valid() && Open(s, runs) && s.block == [] && 0 < c.max && k <= |ms|
      && FollowsFrom(c, ms, k, BlocksFrom(c, s, rest))
    ensures Content(ms) == Content(ms[..k]) + (PendingBytes(s.ch, s.len) + rest)
    decreases |rest|
  {
    hide Recording, FollowsFrom, BlocksFrom, Content, Open, Unrolled, Taken;
    var (t, n) := Fill(s, rest, c.max);
    var rs := FillKept(s, runs, rest, c.max);
    if |t.block| >= c.max {
      BlocksFromFull(c, s, rest);
      FollowsNext(c, ms, k, t, BlocksFrom(c, NewBlock(t), rest[n..]));
      NewBlockOpen(t);
      ContentFrom(c, NewBlock(t), [], rest[n..], ms, k + 1);
      ContentFull(c, s, runs, rest, ms, k, rs);
    } else {
      LastFollows(c, s, rest, ms, k);
      LastContent(c, ms, k, t, rs);
      OpenNoRuns(s, runs);
      assert rest[..n] == rest;
    }
  }

  /** The last block holds all that was still open. */
  lemma LastContent(c: Config, ms: seq<Made>, k: nat, t: Input, rs: seq<Run>)
    requires Open(t, rs) && |ms| == k + (if Flush(t).block == [] then 0 else 1)
      && (k < |ms| ==> Recording(c, ms, k, Flush(t)))
    ensures Content(ms) == Content(ms[..k]) + Taken(t, rs)
  {
    hide Content, Recording, Represents, Unrolled, Taken, Flush, Closed, Open;
    LastKept(t, rs);
    assert ms[..|ms|] == ms;
    if Flush(t).block != [] {
      BlockContent(c, ms, k, Flush(t), Closed(t, rs));
    } else {
      NoRuns(Flush(t), Closed(t, rs));
      assert Content(ms) + [] == Content(ms);
    }
  }

  lemma LastKept(t: Input, rs: seq<Run>)
    requires Open(t, rs)
    ensures t.Valid() && Represents(Flush(t), Closed(t, rs)) && Unrolled(Closed(t, rs)) == Taken(t, rs)
  {
    FlushKept(t, rs);
  }

  lemma OpenNoRuns(s: Input, runs: seq<Run>)
    requires Open(s, runs) && s.block == []
    ensures runs == [] && Taken(s, runs) == PendingBytes(s.ch, s.len)
  {
    NoRuns(s, runs);
    assert [] + PendingBytes(s.ch, s.len) == PendingBytes(s.ch, s.len);
  }

  /** An empty block holds no runs. */
  lemma NoRuns(s: Input, runs: seq<Run>)
    requires Represents(s, runs) && s.block == []
    ensures runs == [] && Unrolled(runs) == []
  {
    if runs != [] { SomeBlock(runs); }
  }

  lemma BlockContent(c: Config, ms: seq<Made>, k: nat, s: Input, runs: seq<Run>)
    requires Recording(c, ms, k, s) && Represents(s, runs)
    ensures ms[..k + 1] == ms[..k] + [ms[k]] && Content(ms[..k + 1]) == Content(ms[..k]) + Unrolled(runs)
  {
    hide WellMade, Content, Unrolled, Combined, BlocksBits;
    CodedCrc(s, ms[k], c.level);
    SameBytes(s, runs, ms[k].runs);
    OneMore(c.level, ms[..k], ms[k]);
  }

  lemma JoinContent(a: seq<byte>, u: seq<byte>, p: seq<byte>, q: seq<byte>, rest: seq<byte>, n: nat)
    requires n <= |rest| && u + p == q + rest[..n]
    ensures (a + u) + (p + rest[n..]) == a + (q + rest)
  {
    assert (u + p) + rest[n..] == q + rest;
    assert (a + u) + (p + rest[n..]) == a + ((u + p) + rest[n..]);
  }

  lemma RecordsFollow(c: Config, input: seq<byte>, ms: seq<Made>)
    requires Records(c, input, ms)
    ensures FollowsFrom(c, ms, 0, BlocksFrom(c, Fresh(), input)) && 0 < c.max
  {
    hide WellMade, Represents;
    var ins := BlocksFrom(c, Fresh(), input);
    assert ins == BlocksOf(c.level, input);
    forall i {:trigger ins[i]} | 0 <= i < |ins| ensures Recording(c, ms, 0 + i, ins[i]) {
      assert WellMade(ms[i], c.level) && Represents(ins[i], ms[i].runs);
    }
  }

  lemma FreshOpen()
    ensures Open(Fresh(), [])
  {
    assert Marks(Unused(), []);
  }

  /** The bits of the one compressor are the stream of the recorded blocks, and that is a stream for the input. */
  lemma OneCompressorStream(c: Config, input: seq<byte>, ms: seq<Made>)
    requires Records(c, input, ms)
    ensures OneCompressor(c, Fresh(), 1, 0, input) == StreamBits(c.level, ms) && Content(ms) == input
  {
    RecordsFollow(c, input, ms);
    FreshOpen();
    assert ms[..0] == [];
    hide FollowsFrom, Records, OneCompressor, StreamBits, BlocksFrom, Open;
    OneCompressorStreams(c, Fresh(), input, ms, 0);
    ContentFrom(c, Fresh(), [], input, ms, 0);
    AppendNone(OneCompressor(c, Fresh(), 1, 0, input));
    assert [] + ([] + input) == input;
  }

  /** The bytes of the one compressor decode to the input. */
  lemma OneCompressorDecodes(c: Config, input: seq<byte>, ms: seq<Made>, z: seq<byte>, small: bool)
    requires Records(c, input, ms) && PadsTo(OneCompressor(c, Fresh(), 1, 0, input), z)
    ensures Decodes(z, input, small)
  {
    OneCompressorStream(c, input, ms);
    StreamDecodesTo(small, c.level, ms, z, input);
  }

  /** The reader's inner loop: whatever is left of the buffer, then what each fread brings. */
  function Feed(s: Input, left: seq<byte>, freads: seq<seq<byte>>, max: nat): (r: (Input, seq<byte>, seq<seq<byte>>))
    requires s.Valid()
    ensures r.0.Valid()
    decreases |freads|
  {
    var (t, n) := Fill(s, left, max);
    if |t.block| >= max then (t, left[n..], freads)
    else if freads == [] then (t, [], [])
    else Feed(t, freads[0], freads[1..], max)
  }

  function Joint(freads: seq<seq<byte>>): seq<byte> {
    if freads == [] then [] else freads[0] + Joint(freads[1..])
  }

  /** How the file is cut up by fread makes no difference to a block. */
  lemma {:induction false} FeedIsFill(s: Input, left: seq<byte>, freads: seq<seq<byte>>, max: nat)
    requires s.Valid()
    ensures var (t, left', freads') := Feed(s, left, freads, max);
      var (u, n) := Fill(s, left + Joint(freads), max);
      t == u && left' + Joint(freads') == (left + Joint(freads))[n..]
    decreases |freads|
  {
    hide Fill;
    var (t, n) := Fill(s, left, max);
    FillInParts(s, left, Joint(freads), max);
    if |t.block| >= max {
      assert left[n..] + Joint(freads) == (left + Joint(freads))[n..];
    } else if freads == [] {
      assert left + [] == left;
    } else {
      FeedIsFill(t, freads[0], freads[1..], max);
      var more := Joint(freads);
      var (u, m) := Fill(t, more, max);
      assert (left + more)[m + |left|..] == more[m..];
    }
  }
}
