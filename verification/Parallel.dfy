/** bzip2smp as a whole: for every schedule, the stream of the one compressor. */
module Parallel {
  import opened Bits
  import opened BitIO
  import opened Crc
  import opened Collecting
  import opened Decoder
  import opened Format
  import opened BlockWriter
  import opened RoundTrip
  import opened Compressor
  import opened Handover
  import opened Pipeline
  import PipelineSafety
  import PipelineEnds
  import opened PipelineRuns

  /** The reader's own variables: the state saved for the next stream and the input not yet taken in. */
  datatype ReaderLocal = ReaderLocal(v: Saved, rest: seq<byte>)

  ghost function Make(c: Config, l: ReaderLocal): (Strm, ReaderLocal) {
    if !(0 < c.max && l.v.Valid()) then (Strm(Fresh(), 1, 0, true, false, [], 0), l) else
    var (j, rest') := ReadBlock(c, l.v, l.rest);
    (j, if j.last then l else ReaderLocal(SaveState(j), rest'))
  }

  /** `stdout`, and the bit buffer that the writer saves after one stream and restores for the next. */
  datatype Disk = Disk(written: seq<byte>, buff: nat, live: nat)

  function BytesOf(b: bits): seq<byte> {
    if |b| < 8 then [] else [ByteOf(b[..8])] + BytesOf(b[8..])
  }

  function ByteOf(b: bits): byte
    requires |b| == 8
  {
    Pow2Consts();
    BitsNat(b)
  }

  lemma {:induction false} BitsOfBytes(b: bits)
    requires |b| % 8 == 0
    ensures ByteBits(BytesOf(b)) == b
  {
    if b != [] {
      BitsOfBytes(b[8..]);
      ByteBitsConcat([ByteOf(b[..8])], BytesOf(b[8..]));
      ByteBitsOne(ByteOf(b[..8]));
      BitsOfBitsNat(b[..8]);
      assert b == b[..8] + b[8..];
    }
  }

  /** Bytes are determined by their bits. */
  lemma {:induction false} BytesOfBits(z: seq<byte>)
    ensures BytesOf(ByteBits(z)) == z
  {
    if z != [] {
      var b := ByteBits(z);
      assert z == [z[0]] + z[1..];
      ByteBitsConcat([z[0]], z[1..]);
      ByteBitsOne(z[0]);
      Pow2Consts();
      NatOfNatBits(8, z[0]);
      assert b[..8] == NatBits(8, z[0]) && b[8..] == ByteBits(z[1..]);
      BytesOfBits(z[1..]);
    }
  }

  /** Zero bits up to a byte boundary. */
  function Padded(b: bits): (p: bits)
    ensures |p| % 8 == 0 && |p| < |b| + 8
  {
    b + Zeros((8 - |b| % 8) % 8)
  }

  lemma PaddingIs(b: bits, z: seq<byte>)
    ensures PadsTo(b, z) <==> z == BytesOf(Padded(b))
  {
    if PadsTo(b, z) {
      assert 8 * |z| - |b| == (8 - |b| % 8) % 8;
      BytesOfBits(z);
    }
    if z == BytesOf(Padded(b)) { BitsOfBytes(Padded(b)); }
  }

  /** A word with the bits `t` first and zeros below. */
  function Upper(t: bits): nat
    requires |t| <= 32
  {
    BitsNat(t + Zeros(32 - |t|))
  }

  lemma UpperWord(t: bits)
    requires |t| <= 31
    ensures Pending(Upper(t), |t|) && Word(Upper(t))[..|t|] == t
  {
    var w := t + Zeros(32 - |t|);
    Pow2Consts();
    BitsOfBitsNat(w);
    assert w[..|t|] == t && w[|t|..] == Zeros(32 - |t|);
  }

  lemma WordUpper(buff: nat, live: nat)
    requires Pending(buff, live)
    ensures buff == Upper(Word(buff)[..live])
  {
    var w := Word(buff);
    assert w == w[..live] + w[live..];
    Pow2Consts();
    NatOfNatBits(BitIO.BUFFER_WIDTH, buff);
  }

  /** The bits that the writer goes on from; the first stream starts with none. */
  ghost function Kept(d: Disk, blockNo: nat): bits {
    if blockNo == 1 || d.live > 31 then [] else Word(d.buff)[..d.live]
  }

  /** How many bits stay behind when those of a stream are written. */
  function LiveAfter(total: nat, tail: nat): (n: nat)
    ensures n <= 31 && n <= total && (total - n) % 8 == 0
  {
    LiveBits(total, if tail <= 24 then tail else 0)
  }

  /** One turn of the writer: the bit buffer restored, the stream written, the buffer saved. */
  ghost function StoreTo(c: Config, d: Disk, j: Strm): Disk {
    var s := Kept(d, j.blockNo) + Store(c, j);
    if j.last then Disk(d.written + BytesOf(Padded(s)), 0, 0)
    else
      var n := |s| - LiveAfter(|s|, j.tail);
      Disk(d.written + BytesOf(s[..n]), Upper(s[n..]), |s| - n)
  }

  /** The bytes written and the bits in the buffer are `b`. */
  ghost predicate Held(d: Disk, b: bits) {
    Pending(d.buff, d.live) && ByteBits(d.written) + Word(d.buff)[..d.live] == b
  }

  /** A stream more is written, with the bit buffer handed over. */
  lemma StoreHolds(c: Config, d: Disk, j: Strm, b: bits)
    requires Held(d, b) && (j.blockNo == 1 ==> d.live == 0) && !j.last
    ensures Held(StoreTo(c, d, j), b + Store(c, j))
  {
    hide Store, Word, NatBits, ByteBits, BytesOf, BitsNat, Zeros, LiveBits;
    var p := Word(d.buff)[..d.live];
    var s := Kept(d, j.blockNo) + Store(c, j);
    assert Kept(d, j.blockNo) == p;
    var n := |s| - LiveAfter(|s|, j.tail);
    BitsOfBytes(s[..n]);
    UpperWord(s[n..]);
    BytesFollow(d.written, p, BytesOf(s[..n]), s[n..], b, Store(c, j));
  }

  /** The last stream is written and padded. */
  lemma StoreEnds(c: Config, d: Disk, j: Strm, b: bits)
    requires Held(d, b) && (j.blockNo == 1 ==> d.live == 0) && j.last
    ensures PadsTo(b + Store(c, j), StoreTo(c, d, j).written)
  {
    var p := Word(d.buff)[..d.live];
    var s := Kept(d, j.blockNo) + Store(c, j);
    assert Kept(d, j.blockNo) == p;
    hide Store, Word, NatBits, Zeros;
    PaddedAfter(d.written, p, Store(c, j));
    assert b + Store(c, j) == ByteBits(d.written) + s;
  }

  lemma PaddedAfter(w: seq<byte>, p: bits, more: bits)
    ensures PadsTo(ByteBits(w) + (p + more), w + BytesOf(Padded(p + more)))
    ensures (ByteBits(w) + p) + more == ByteBits(w) + (p + more)
  {
    hide ByteBits, NatBits;
    var s := p + more;
    var z := BytesOf(Padded(s));
    BitsOfBytes(Padded(s));
    ByteBitsConcat(w, z);
    assert ByteBits(w) + Padded(s) == (ByteBits(w) + s) + Zeros((8 - |s| % 8) % 8);
    EightMore(|w|, |s|);
  }

  lemma EightMore(n: nat, m: nat)
    ensures (8 * n + m) % 8 == m % 8
  {
  }

  /** The bits of a buffer handed over: `bz_stream_state_out`. */
  ghost predicate Pending(buff: nat, live: nat) {
    live <= 31 && buff < WORD && Word(buff)[live..] == Zeros(32 - live)
  }

  ghost function FirstBits(level: nat, blockNo: nat): bits {
    if blockNo == 1 then HeaderBits(level) else []
  }

  ghost function SomeBits(b: Block, some: bool): bits
    requires some ==> Writable(b)
  {
    if some then BlockBits(b) else []
  }

  method PutFirst(bw: BitWriter, level: nat, blockNo: nat)
    requires bw.Valid() && 1 <= level <= 9
    modifies bw
    ensures bw.Valid() && bw.Stream() == old(bw.Stream()) + FirstBits(level, blockNo)
  {
    if blockNo == 1 { PutHeaderBits(bw, level); }
    assert bw.Stream() + [] == bw.Stream();
  }

  method PutSome(bw: BitWriter, b: Block, some: bool)
    requires bw.Valid() && (some ==> Writable(b) && |b.cd.selectors| == (|b.syms| + 49) / 50)
    modifies bw
    ensures bw.Valid() && bw.Stream() == old(bw.Stream()) + SomeBits(b, some)
  {
    hide Writable, BlockBits, TailOf, LiveBits, NatBits, ByteBits;
    if some { PutBlock(bw, b); }
    assert bw.Stream() + [] == bw.Stream();
  }

  /**
   * The writer's turn with a stream that is not the last: the bit buffer before it is restored and its own is saved.
   */
  method StoreBlocksort(b: Block, level: nat, blockNo: nat, buff: nat, live: nat)
    returns (z: seq<byte>, buff': nat, live': nat)
    requires Pending(buff, live) && (blockNo == 1 ==> live == 0) && 1 <= level <= 9
    requires Writable(b) && |b.cd.selectors| == (|b.syms| + 49) / 50
    ensures Pending(buff', live') && live' == LiveBits(8 * |z| + live', TailOf(b.cd, b.syms))
    ensures ByteBits(z) + Word(buff')[..live'] == Word(buff)[..live] + (FirstBits(level, blockNo) + BlockBits(b))
  {
    hide Writable, BlockBits, FirstBits, LiveBits, TailOf, NatBits, ByteBits;
    var bw := Reopen(buff, live, blockNo);
    ghost var s := bw.Stream();
    PutFirst(bw, level, blockNo);
    PutBlock(bw, b);
    Append(s, FirstBits(level, blockNo), BlockBits(b));
    z, buff', live' := bw.zbits, bw.bsBuff, bw.bsLive;
  }

  /** The writer's turn with the last stream, whose block may be empty. */
  method StoreLast(b: Block, some: bool, level: nat, blockNo: nat, combined: word, buff: nat, live: nat)
    returns (z: seq<byte>)
    requires Pending(buff, live) && (blockNo == 1 ==> live == 0) && 1 <= level <= 9
    requires some ==> Writable(b) && |b.cd.selectors| == (|b.syms| + 49) / 50
    ensures PadsTo(Word(buff)[..live] + (FirstBits(level, blockNo) + SomeBits(b, some)) + TrailerBits(combined), z)
  {
    var bw := Reopen(buff, live, blockNo);
    ghost var s := bw.Stream();
    PutFirst(bw, level, blockNo);
    PutSome(bw, b, some);
    Append(s, FirstBits(level, blockNo), SomeBits(b, some));
    PutTrailer(bw, combined);
    FinishTo(bw);
    z := bw.zbits;
  }

  /** Saving the bit buffer after one stream and restoring it for the next leaves the bytes as if written in one go. */
  lemma BytesFollow(w: seq<byte>, pending: bits, z: seq<byte>, pending': bits, before: bits, stream: bits)
    requires ByteBits(w) + pending == before && ByteBits(z) + pending' == pending + stream
    ensures ByteBits(w + z) + pending' == before + stream
  {
    ByteBitsConcat(w, z);
    assert ByteBits(w) + (ByteBits(z) + pending') == ByteBits(w) + (pending + stream);
    assert ByteBits(w) + pending + stream == ByteBits(w) + (pending + stream);
  }

  method Reopen(buff: nat, live: nat, blockNo: nat) returns (bw: BitWriter)
    requires Pending(buff, live) && (blockNo == 1 ==> live == 0)
    ensures fresh(bw) && bw.Valid() && bw.Stream() == Word(buff)[..live]
  {
    if blockNo == 1 {
      bw := new BitWriter();
      assert Word(buff)[..0] == [];
    } else {
      bw := new BitWriter.Restore(buff, live);
      assert ByteBits([]) == [];
      assert [] + Word(buff)[..live] == Word(buff)[..live];
    }
  }

  /** The writer's turn computes just that. */
  method StoreStream(d: Disk, b: Block, some: bool, last: bool, level: nat, blockNo: nat, combined: word,
        ghost c: Config, ghost j: Strm)
    returns (e: Disk)
    requires Pending(d.buff, d.live) && (blockNo == 1 ==> d.live == 0) && 1 <= level <= 9 && (last || some)
    requires some ==> Writable(b) && |b.cd.selectors| == (|b.syms| + 49) / 50
    requires c.level == level && j.blockNo == blockNo && j.last == last && j.combined == combined
    requires j.z == SomeBits(b, some) && (some ==> j.tail == TailOf(b.cd, b.syms))
    ensures e == StoreTo(c, d, j)
  {
    if last {
      e := StoreFinal(d, b, some, level, blockNo, combined, c, j);
    } else {
      e := StoreFull(d, b, level, blockNo, c, j);
    }
  }

  lemma KeptStored(d: Disk, b: Block, some: bool, c: Config, j: Strm)
    requires Pending(d.buff, d.live) && (j.blockNo == 1 ==> d.live == 0) && 1 <= c.level <= 9
    requires j.last && (some ==> Writable(b)) && j.z == SomeBits(b, some)
    ensures Kept(d, j.blockNo) == Word(d.buff)[..d.live]
    ensures Store(c, j) == (FirstBits(c.level, j.blockNo) + SomeBits(b, some)) + TrailerBits(j.combined)
  {
  }

  method StoreFinal(d: Disk, b: Block, some: bool, level: nat, blockNo: nat, combined: word, ghost c: Config,
        ghost j: Strm) returns (e: Disk)
    requires Pending(d.buff, d.live) && (blockNo == 1 ==> d.live == 0) && 1 <= level <= 9
    requires some ==> Writable(b) && |b.cd.selectors| == (|b.syms| + 49) / 50
    requires c.level == level && j.blockNo == blockNo && j.last && j.combined == combined && j.z == SomeBits(b, some)
    ensures e == StoreTo(c, d, j)
  {
    hide Store, Word, FirstBits, SomeBits, TrailerBits, PadsTo, Kept, Writable;
    var z := StoreLast(b, some, level, blockNo, combined, d.buff, d.live);
    KeptStored(d, b, some, c, j);
    Append(Word(d.buff)[..d.live], FirstBits(level, blockNo) + SomeBits(b, some), TrailerBits(combined));
    PaddingIs(Kept(d, blockNo) + Store(c, j), z);
    e := Disk(d.written + z, 0, 0);
  }

  method StoreFull(d: Disk, b: Block, level: nat, blockNo: nat, ghost c: Config, ghost j: Strm) returns (e: Disk)
    requires Pending(d.buff, d.live) && (blockNo == 1 ==> d.live == 0) && 1 <= level <= 9
    requires Writable(b) && |b.cd.selectors| == (|b.syms| + 49) / 50
    requires c.level == level && j.blockNo == blockNo && !j.last && j.z == BlockBits(b)
      && j.tail == TailOf(b.cd, b.syms)
    ensures e == StoreTo(c, d, j)
  {
    hide Writable, BlockBits, TailOf, NatBits, ByteBits, LiveBits, HeaderBits;
    assert Kept(d, blockNo) == Word(d.buff)[..d.live];
    assert Store(c, j) == FirstBits(level, blockNo) + BlockBits(b) + [];
    AppendEmpty(FirstBits(level, blockNo) + BlockBits(b));
    hide Store, FirstBits;
    TailFits(b);
    var z, buff, live := StoreBlocksort(b, level, blockNo, d.buff, d.live);
    BytesAndRest(z, buff, live, Kept(d, blockNo) + Store(c, j));
    e := Disk(d.written + z, buff, live);
  }

  lemma TailFits(b: Block)
    requires Writable(b)
    ensures TailOf(b.cd, b.syms) <= 24
  {
    var k := |b.syms| - 1;
    assert GoodTable(b.cd.lens[b.cd.selectors[k / 50]], |SeqToUnseq(b.inUse, 256)| + 2);
  }

  /** The bytes written and the word kept are determined by their bits and by where they are divided. */
  lemma BytesAndRest(z: seq<byte>, buff: nat, live: nat, s: bits)
    requires Pending(buff, live) && ByteBits(z) + Word(buff)[..live] == s
    ensures |s| - live == 8 * |z| && z == BytesOf(s[..|s| - live]) && buff == Upper(s[|s| - live..])
  {
    BytesOfBits(z);
    WordUpper(buff, live);
    assert s[..8 * |z|] == ByteBits(z) && s[8 * |z|..] == Word(buff)[..live];
  }

  /** bzip2smp over `input`. */
  ghost function Bzip2smp(c: Config, inCount: nat, outCount: nat, input: seq<byte>): Plant<Strm, ReaderLocal, Disk> {
    Plant(inCount, outCount, l => Make(c, l), (j: Strm) => j.last, j => Compute(c, j), (d: Disk, j) => StoreTo(c, d, j),
          ReaderLocal(Unsaved(), input), Disk([], 0, 0))
  }

  /** The plant is bzip2smp. */
  ghost predicate IsBzip2smp(p: Plant<Strm, ReaderLocal, Disk>, c: Config, input: seq<byte>) {
    && (forall l {:trigger p.make(l)} :: p.make(l) == Make(c, l))
    && (forall j: Strm {:trigger p.last(j)} :: p.last(j) == j.last)
    && (forall j {:trigger p.compute(j)} :: p.compute(j) == Compute(c, j))
    && (forall d, j {:trigger p.emit(d, j)} :: p.emit(d, j) == StoreTo(c, d, j))
    && p.local0 == ReaderLocal(Unsaved(), input) && p.out0 == Disk([], 0, 0)
  }

  /** The bits of the first `k` streams. */
  ghost function BitsAt(p: Plant<Strm, ReaderLocal, Disk>, c: Config, k: nat): bits {
    if k == 0 then [] else BitsAt(p, c, k - 1) + Store(c, Compute(c, Job(p, k - 1)))
  }

  /** One stream more. */
  lemma OneStream(p: Plant<Strm, ReaderLocal, Disk>, c: Config, input: seq<byte>, k: nat)
    requires IsBzip2smp(p, c, input) && 0 < c.max && LocalAt(p, k).v.Valid()
    ensures var l := LocalAt(p, k); var (j, rest') := ReadBlock(c, l.v, l.rest);
      && Job(p, k) == j && (p.last(j) <==> j.last)
      && (!j.last ==> LocalAt(p, k + 1) == ReaderLocal(SaveState(j), rest'))
      && OutAt(p, k + 1) == StoreTo(c, OutAt(p, k), Compute(c, j))
      && j.blockNo == l.v.blockNo
  {
    hide StoreTo, Compute;
    assert Job(p, k + 1 - 1) == Job(p, k);
  }

  /** No stream before number `n` is the last. */
  ghost predicate NoneLast(p: Plant<Strm, ReaderLocal, Disk>, n: nat) {
    forall i {:trigger Job(p, i)} :: 0 <= i < n ==> !p.last(Job(p, i))
  }

  lemma StartsThere(p: Plant<Strm, ReaderLocal, Disk>, c: Config, input: seq<byte>)
    requires IsBzip2smp(p, c, input)
    ensures LocalAt(p, 0) == ReaderLocal(Unsaved(), input) && OutAt(p, 0) == Disk([], 0, 0) && Held(OutAt(p, 0), [])
  {
    hide IsBzip2smp;
    assert p.local0 == ReaderLocal(Unsaved(), input) && p.out0 == Disk([], 0, 0) by { StartIs(p, c, input); }
    NatBitsZero(BitIO.BUFFER_WIDTH);
    assert ByteBits([]) + Word(0)[..0] == [];
  }

  lemma StartIs(p: Plant<Strm, ReaderLocal, Disk>, c: Config, input: seq<byte>)
    requires IsBzip2smp(p, c, input)
    ensures p.local0 == ReaderLocal(Unsaved(), input) && p.out0 == Disk([], 0, 0)
  {
  }

  lemma NotLast(p: Plant<Strm, ReaderLocal, Disk>, n: nat, i: nat)
    requires NoneLast(p, n) && i < n
    ensures !p.last(Job(p, i)) && NoneLast(p, i)
  {
    hide Job;
  }

  /** The reader's state before stream `k`. */
  lemma {:induction false} LocalNumbered(p: Plant<Strm, ReaderLocal, Disk>, c: Config, input: seq<byte>, k: nat)
    requires IsBzip2smp(p, c, input) && 0 < c.max && NoneLast(p, k)
    ensures LocalAt(p, k).v.Valid() && LocalAt(p, k).v.blockNo == k + 1
  {
    hide IsBzip2smp, Job, LocalAt, NoneLast, StoreTo, Fill;
    if k == 0 { StartsThere(p, c, input); } else {
      var n := k - 1;
      NotLast(p, k, n);
      LocalNumbered(p, c, input, n);
      LocalNext(p, c, input, n);
    }
  }

  lemma LocalNext(p: Plant<Strm, ReaderLocal, Disk>, c: Config, input: seq<byte>, k: nat)
    requires IsBzip2smp(p, c, input) && 0 < c.max && LocalAt(p, k).v.Valid() && !p.last(Job(p, k))
    ensures LocalAt(p, k + 1).v.Valid() && LocalAt(p, k + 1).v.blockNo == LocalAt(p, k).v.blockNo + 1
  {
    hide IsBzip2smp, Job, LocalAt, StoreTo, Compute;
    OneStream(p, c, input, k);
  }

  /** Whatever is written and whatever is in the bit buffer: together they are the bits so far. */
  lemma {:induction false} DiskHolds(p: Plant<Strm, ReaderLocal, Disk>, c: Config, input: seq<byte>, k: nat)
    requires IsBzip2smp(p, c, input) && 0 < c.max && NoneLast(p, k)
    ensures Held(OutAt(p, k), BitsAt(p, c, k)) && (k == 0 ==> OutAt(p, k).live == 0)
  {
    hide IsBzip2smp, OutAt, Job, LocalAt, NoneLast, Held, StoreTo, Store, Compute;
    if k == 0 { StartsThere(p, c, input); } else {
      var n := k - 1;
      NotLast(p, k, n);
      DiskHolds(p, c, input, n);
      LocalNumbered(p, c, input, n);
      DiskNext(p, c, input, n);
    }
  }

  lemma DiskNext(p: Plant<Strm, ReaderLocal, Disk>, c: Config, input: seq<byte>, k: nat)
    requires IsBzip2smp(p, c, input) && 0 < c.max && LocalAt(p, k).v.Valid() && !p.last(Job(p, k))
    requires Held(OutAt(p, k), BitsAt(p, c, k)) && (LocalAt(p, k).v.blockNo == 1 ==> OutAt(p, k).live == 0)
    ensures Held(OutAt(p, k + 1), BitsAt(p, c, k + 1))
  {
    hide IsBzip2smp, OutAt, Job, LocalAt, Held, StoreTo, Store, ReadBlock, BitsAt;
    OneStream(p, c, input, k);
    BitsNext(p, c, k);
    StoreHolds(c, OutAt(p, k), Compute(c, Job(p, k)), BitsAt(p, c, k));
  }

  lemma BitsNext(p: Plant<Strm, ReaderLocal, Disk>, c: Config, k: nat)
    ensures BitsAt(p, c, k + 1) == BitsAt(p, c, k) + Store(c, Compute(c, Job(p, k)))
  {
  }

  /** The streams from number `k` on are what the reader makes of the rest of the input. */
  lemma {:induction false} RestStored(p: Plant<Strm, ReaderLocal, Disk>, c: Config, input: seq<byte>, k: nat, n: nat)
    requires IsBzip2smp(p, c, input) && 0 < c.max && k < n && LocalAt(p, k).v.Valid()
    requires p.last(Job(p, n - 1)) && NoneLast(p, n - 1)
    ensures var l := LocalAt(p, k); BitsAt(p, c, n) == BitsAt(p, c, k) + StoreAll(c, Streams(c, l.v, l.rest))
    decreases n - k
  {
    hide IsBzip2smp, OutAt, Job, LocalAt, NoneLast, Store, Compute, StoreAll, Streams, StoreTo, BitsAt, ReadBlock;
    BitsNext(p, c, k);
    var l, next := LocalAt(p, k), k + 1;
    var (j, rest') := ReadBlock(c, l.v, l.rest);
    OneStream(p, c, input, k);
    StoreFirst(c, l.v, l.rest);
    var w := Store(c, Compute(c, j));
    assert BitsAt(p, c, next) == BitsAt(p, c, k) + w;
    if next == n {
      assert w + [] == w;
    } else {
      NotLast(p, n - 1, k);
      RestStored(p, c, input, next, n);
      Append(BitsAt(p, c, k), w, StoreAll(c, Streams(c, SaveState(j), rest')));
    }
  }

  /** All streams are written. */
  lemma AllStored(p: Plant<Strm, ReaderLocal, Disk>, c: Config, input: seq<byte>, n: nat)
    requires IsBzip2smp(p, c, input) && 0 < c.max && 0 < n && p.last(Job(p, n - 1)) && NoneLast(p, n - 1)
    ensures PadsTo(OneCompressor(c, Fresh(), 1, 0, input), OutAt(p, n).written)
  {
    hide IsBzip2smp, OutAt, Job, LocalAt, NoneLast, Held, StoreTo, Store, OneCompressor, Streams, StoreAll, ReadBlock,
      PadsTo;
    var k := n - 1;
    StartsThere(p, c, input);
    RestStored(p, c, input, 0, n);
    HandoverIsOne(c, Unsaved(), input);
    AppendNone(StoreAll(c, Streams(c, Unsaved(), input)));
    DiskHolds(p, c, input, k);
    LocalNumbered(p, c, input, k);
    OneStream(p, c, input, k);
    StoreEnds(c, OutAt(p, k), Compute(c, Job(p, k)), BitsAt(p, c, k));
  }

  /**
   * For every input, every number of workers and every schedule: the bytes written are those of one compressor, the
   * last completed with zero bits.
   */
  lemma SameAsOne(c: Config, inCount: nat, outCount: nat, input: seq<byte>, run: seq<State<Strm, ReaderLocal, Disk>>,
        turns: seq<Turn>)
    requires 0 < c.max && Runs(Bzip2smp(c, inCount, outCount, input), run, turns) && run[|turns|].reader.Exited?
    ensures |run| == |turns| + 1 && PadsTo(OneCompressor(c, Fresh(), 1, 0, input), run[|turns|].out.written)
  {
    var p := Bzip2smp(c, inCount, outCount, input);
    assert IsBzip2smp(p, c, input);
    hide IsBzip2smp, Runs, PadsTo, OneCompressor, OutAt;
    RunComplete(p, run, turns);
    RunsEnd(p, run, turns);
    AllStored(p, c, input, run[|turns|].presented);
  }

  lemma RunsEnd(p: Plant<Strm, ReaderLocal, Disk>, run: seq<State<Strm, ReaderLocal, Disk>>, turns: seq<Turn>)
    requires Runs(p, run, turns)
    ensures |run| == |turns| + 1
  {
  }

  /**
   * Whatever well-made blocks the workers make of those that the reader hands them, what is written decodes to the
   * input.
   */
  lemma WrittenDecodes(c: Config, inCount: nat, outCount: nat, input: seq<byte>,
        run: seq<State<Strm, ReaderLocal, Disk>>, turns: seq<Turn>, ms: seq<Made>, small: bool)
    requires Records(c, input, ms) && 0 < c.max
    requires Runs(Bzip2smp(c, inCount, outCount, input), run, turns) && run[|turns|].reader.Exited?
    ensures |run| == |turns| + 1 && Decodes(run[|turns|].out.written, input, small)
  {
    hide Runs, Records, OneCompressor, PadsTo, Bzip2smp, Decodes;
    SameAsOne(c, inCount, outCount, input, run, turns);
    OneCompressorDecodes(c, input, ms, run[|turns|].out.written, small);
  }

  /** bzip2smp and bzip2 write the same bytes, and they decode to the input. */
  lemma ParallelDecodes(c: Config, inCount: nat, outCount: nat, input: seq<byte>,
        run: seq<State<Strm, ReaderLocal, Disk>>, turns: seq<Turn>, ms: seq<Made>, z: seq<byte>, small: bool)
    requires Records(c, input, ms) && StreamFor(c.level, ms, z, input)
    requires Runs(Bzip2smp(c, inCount, outCount, input), run, turns) && run[|turns|].reader.Exited?
    ensures run[|turns|].out.written == z && Decodes(z, input, small)
  {
    RunsEnd(Bzip2smp(c, inCount, outCount, input), run, turns);
    hide Runs, StreamBits, OneCompressor, PadsTo, Bzip2smp;
    SameAsOne(c, inCount, outCount, input, run, turns);
    OneCompressorStream(c, input, ms);
    PaddingIs(StreamBits(c.level, ms), z);
    PaddingIs(StreamBits(c.level, ms), run[|turns|].out.written);
    StreamDecodesTo(small, c.level, ms, z, input);
  }

  /**
   * What bzip2 does with a file: BZ_RUN for all of it, then BZ_FINISH with nothing. With the code that its blocks
   * record, and so with any code that gives the same bits for them, bzip2smp writes the same bytes under every
   * schedule.
   */
  method Sequential(level: nat, chunks: seq<seq<byte>>) returns (z: seq<byte>, ghost ms: seq<Made>)
    requires 1 <= level <= 9
    ensures StreamFor(level, ms, z, Together(chunks)) && Records(Recorded(level, ms), Together(chunks), ms)
  {
    z, ms := Compress(level, chunks, []);
    assert Together(chunks) + [] == Together(chunks);
    RecordedRecords(level, Together(chunks), ms);
  }

  /** The reader makes as many streams as the input has blocks, and no more. */
  lemma {:induction false} StreamsEnd(p: Plant<Strm, ReaderLocal, Disk>, c: Config, input: seq<byte>, k: nat)
    requires IsBzip2smp(p, c, input) && 0 < c.max && LocalAt(p, k).v.Valid()
    ensures var l := LocalAt(p, k); var n := |Streams(c, l.v, l.rest)|;
      n > 0 && p.last(Job(p, k + n - 1)) && forall i {:trigger Job(p, i)} :: k <= i < k + n - 1 ==> !p.last(Job(p, i))
    decreases |LocalAt(p, k).rest|
  {
    hide IsBzip2smp, OutAt, Job, LocalAt, StoreTo, Fill, Flush;
    var l := LocalAt(p, k);
    var (j, rest') := ReadBlock(c, l.v, l.rest);
    OneStream(p, c, input, k);
    if !j.last { StreamsEnd(p, c, input, k + 1); }
  }

  lemma AllStreams(p: Plant<Strm, ReaderLocal, Disk>, c: Config, input: seq<byte>)
    requires IsBzip2smp(p, c, input) && 0 < c.max
    ensures PipelineEnds.Ends(p, |Streams(c, Unsaved(), input)|)
  {
    hide IsBzip2smp, OutAt, Job, LocalAt, StoreTo, Streams;
    StartsThere(p, c, input);
    StreamsEnd(p, c, input, 0);
  }

  /** bzip2smp always ends: no schedule of any number of workers can go on for longer than the input allows. */
  lemma Terminates(c: Config, inCount: nat, outCount: nat, input: seq<byte>, run: seq<State<Strm, ReaderLocal, Disk>>,
        turns: seq<Turn>)
    requires 0 < c.max && Runs(Bzip2smp(c, inCount, outCount, input), run, turns)
    ensures |run| == |turns| + 1 && |turns| <= 17 * |Streams(c, Unsaved(), input)| + |run[0].workers| + 8
    ensures Sized(Bzip2smp(c, inCount, outCount, input), run[|turns|])
    ensures run[|turns|].reader.Exited? || CanGo(Bzip2smp(c, inCount, outCount, input), run[|turns|])
  {
    var p := Bzip2smp(c, inCount, outCount, input);
    assert IsBzip2smp(p, c, input);
    hide IsBzip2smp, Runs, OutAt, CanGo, Streams, PipelineEnds.Ends;
    AllStreams(p, c, input);
    RunsEnd(p, run, turns);
    PipelineEnds.RunShort(p, run, turns, |Streams(c, Unsaved(), input)|);
    PipelineEnds.RunEnds(p, run, turns, |Streams(c, Unsaved(), input)|);
  }
}
