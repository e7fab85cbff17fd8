/** The driver of the compressor: `handle_compress` for BZ_RUN and BZ_FINISH. */
module Compressor {
  import opened Bits
  import opened BitIO
  import opened Crc
  import opened RunLength
  import opened FallbackSort
  import opened Collecting
  import opened Division
  import opened BlockInput
  import opened Resumable
  import opened Decoder
  import Fragments
  import opened Format
  import opened RoundTrip
  import opened BlockWriter
  import opened BlockCompressor

  /** The output half of `EState`, on values: the counters and every bit written. */
  datatype Out = Out(blockNo: nat, combined: word, stream: bits)

  /** What is written once the blocks `ms` are: the header comes with the first. */
  ghost function Written(level: nat, ms: seq<Made>): bits {
    if ms == [] then [] else BlocksBits(level, ms)
  }

  /** The output half once the blocks `ms` are written. */
  ghost function After(level: nat, ms: seq<Made>): Out {
    Out(|ms| + 1, Combined(ms), Written(level, ms))
  }

  lemma OneMore(level: nat, ms: seq<Made>, m: Made)
    ensures BlocksBits(level, ms + [m]) == BlocksBits(level, ms) + m.z
    ensures Combined(ms + [m]) == Combine(Combined(ms), m.b.crc)
    ensures Content(ms + [m]) == Content(ms) + m.data
  {
    assert (ms + [m])[..|ms|] == ms;
    CombinedLast(ms + [m]);
  }

  lemma AllMadeMore(level: nat, ms: seq<Made>, m: Made)
    requires AllMade(ms, level) && WellMade(m, level)
    ensures AllMade(ms + [m], level)
  {
  }

  /** The header goes before the first block. */
  method PutHeader(bw: BitWriter, level: nat, first: bool, ghost ms: seq<Made>)
    requires bw.Valid() && 1 <= level <= 9 && bw.Stream() == Written(level, ms) && first == (ms == [])
    modifies bw
    ensures bw.Valid() && bw.Stream() == BlocksBits(level, ms)
  {
    if first {
      PutHeaderBits(bw, level);
      AppendNone(HeaderBits(level));
    }
  }

  lemma AppendNone(b: bits)
    ensures [] + b == b
  {
  }

  method PutMade(bw: BitWriter, b: Block, ghost level: nat, ghost m: Made)
    requires bw.Valid() && WellMade(m, level) && m.b == b && |b.cd.selectors| == (|b.syms| + 49) / 50
    modifies bw
    ensures bw.Valid() && bw.Stream() == old(bw.Stream()) + m.z
  {
    WellMadeIs(m, level);
    PutBlock(bw, b);
  }

  method SaveTo(bw: BitWriter, b: Block, level: nat, first: bool, ghost ms: seq<Made>, ghost m: Made)
    requires bw.Valid() && 1 <= level <= 9 && bw.Stream() == Written(level, ms) && first == (ms == [])
    requires WellMade(m, level) && m.b == b && |b.cd.selectors| == (|b.syms| + 49) / 50
    modifies bw
    ensures bw.Valid() && bw.Stream() == Written(level, ms + [m])
  {
    OneMore(level, ms, m);
    PutHeader(bw, level, first, ms);
    PutMade(bw, b, level, m);
  }

  /** Fewer than eight zero bits complete `b` to `z`. */
  ghost predicate PadsTo(b: bits, z: seq<byte>) {
    |b| <= 8 * |z| < |b| + 8 && ByteBits(z) == b + Zeros(8 * |z| - |b|)
  }

  method PutTrailer(bw: BitWriter, crc: word)
    requires bw.Valid()
    modifies bw
    ensures bw.Valid() && bw.Stream() == old(bw.Stream()) + TrailerBits(crc)
  {
    PutMagic(bw, StreamEnd(), crc);
  }

  method FinishTo(bw: BitWriter)
    requires bw.Valid()
    modifies bw
    ensures PadsTo(old(bw.Stream()), bw.zbits)
  {
    bw.Finish();
  }

  /** The trailer after the blocks, padded to a byte. */
  method TrailTo(bw: BitWriter, level: nat, first: bool, crc: word, ghost ms: seq<Made>)
    requires bw.Valid() && 1 <= level <= 9 && bw.Stream() == Written(level, ms) && first == (ms == [])
      && crc == Combined(ms)
    modifies bw
    ensures PadsTo(StreamBits(level, ms), bw.zbits)
  {
    PutHeader(bw, level, first, ms);
    PutTrailer(bw, crc);
    FinishTo(bw);
  }

  /** The output half of `EState`. */
  class EStateOutput {
    const level: nat
    const bw: BitWriter
    var blockNo: nat
    var combinedCRC: word

    ghost function State(): Out
      requires bw.Valid()
      reads this, bw
    {
      Out(blockNo, combinedCRC, bw.Stream())
    }

    constructor (level: nat)
      requires 1 <= level <= 9
      ensures bw.Valid() && State() == After(level, []) && this.level == level && fresh(bw)
    {
      this.level := level;
      var w := new BitWriter();
      bw, blockNo, combinedCRC := w, 1, 0;
    }

    /** The block part of `BZ2_compressBlock_save`. */
    method SaveBlock(b: Block, ghost m: Made, ghost ms: seq<Made>)
      requires bw.Valid() && 1 <= level <= 9 && State() == After(level, ms)
      requires WellMade(m, level) && m.b == b && |b.cd.selectors| == (|b.syms| + 49) / 50
      modifies this, bw
      ensures bw.Valid() && State() == After(level, ms + [m])
    {
      OneMore(level, ms, m);
      SaveTo(bw, b, level, blockNo == 1, ms, m);
      combinedCRC, blockNo := Combine(combinedCRC, b.crc), blockNo + 1;
    }

    /** The rest of it for the last block: the trailer, padded to a byte. */
    method SaveTrailer(ghost ms: seq<Made>)
      requires bw.Valid() && 1 <= level <= 9 && State() == After(level, ms)
      modifies bw
      ensures PadsTo(StreamBits(level, ms), bw.zbits)
    {
      TrailTo(bw, level, blockNo == 1, combinedCRC, ms);
    }
  }

  /** How far a compressor has come: its input half, the runs of the current block and the blocks written. */
  datatype Progress = Progress(level: nat, s: Input, runs: seq<Run>, ms: seq<Made>)

  // What is required of it, one by one.

  ghost predicate Holds(p: Progress, i: nat) {
    if i == 0 then Open(p.s, p.runs) else if i == 1 then AllMade(p.ms, p.level) else 1 <= p.level <= 9
  }

  const REQUIREMENTS := 3

  /** The first `n` requirements hold. */
  ghost predicate HoldFirst(p: Progress, n: nat) {
    n == 0 || (HoldFirst(p, n - 1) && Holds(p, n - 1))
  }

  /** The runs are those that the block holds and more can follow, and the blocks are well made. */
  ghost predicate Upholds(p: Progress) {
    HoldFirst(p, REQUIREMENTS)
  }

  lemma Right(p: Progress)
    ensures Upholds(p) <==> Open(p.s, p.runs) && AllMade(p.ms, p.level) && 1 <= p.level <= 9
  {
    assert HoldFirst(p, 0);
    assert HoldFirst(p, 1) <==> Holds(p, 0);
    assert HoldFirst(p, 2) <==> HoldFirst(p, 1) && Holds(p, 1);
  }

  lemma LevelRight(p: Progress)
    requires Upholds(p)
    ensures 1 <= p.level <= 9
  {
  }

  /** The runs are those that the block holds, all of it within the limit. */
  ghost predicate Prepared(level: nat, s: Input, runs: seq<Run>) {
    1 <= level <= 9 && Represents(s, runs) && |s.block| <= 100000 * level
  }

  /** The bytes of the blocks, of the current block and of the run being collected. */
  ghost function TakenIn(p: Progress): seq<byte> {
    if p.s.Valid() then Content(p.ms) + Taken(p.s, p.runs) else []
  }

  /** The two halves hold what `p` says. */
  ghost predicate Matches(es: EStateInput, out: EStateOutput, p: Progress)
    reads es, es.arr2, es.inUse, out, out.bw
  {
    && out.level == p.level && es.nblockMAX == 100000 * p.level - 19
    && es.Valid() && es.State() == p.s && out.bw.Valid() && out.State() == After(p.level, p.ms)
  }

  lemma RepresentsSome(s: Input, runs: seq<Run>)
    requires Represents(s, runs) && s.block != []
    ensures runs != [] && Flatten(runs) == s.block
  {
  }

  /** `BZ2_compressBlock_compute` */
  method ComputeBlock(es: EStateInput, level: nat, ghost runs: seq<Run>) returns (b: Block, ghost m: Made)
    requires es.Valid() && es.nblock > 0 && Prepared(level, es.State(), runs)
    ensures WellMade(m, level) && m.b == b && m.runs == runs && m.data == Unrolled(runs)
      && |b.cd.selectors| == (|b.syms| + 49) / 50
  {
    RepresentsSome(es.State(), runs);
    b, m := CompressBlockCompute(es.arr2, es.nblock, es.inUse[..], es.blockCRC, runs, level);
  }

  /** `BZ2_compressBlock`, but for the trailer. */
  method CompressBlock(es: EStateInput, out: EStateOutput, ghost runs: seq<Run>, ghost ms: seq<Made>)
    returns (ghost m: Made)
    requires es.Valid() && es.nblock > 0 && Prepared(out.level, es.State(), runs)
    requires out.bw.Valid() && out.State() == After(out.level, ms)
    modifies out, out.bw
    ensures WellMade(m, out.level) && m.runs == runs && m.data == Unrolled(runs)
    ensures out.bw.Valid() && out.State() == After(out.level, ms + [m])
  {
    var b;
    b, m := ComputeBlock(es, out.level, runs);
    out.SaveBlock(b, m, ms);
  }

  /** `ms` are the blocks that `ins` hold. */
  ghost predicate Codes(ins: seq<Input>, ms: seq<Made>) {
    |ins| == |ms| && forall i {:trigger ms[i]} :: 0 <= i < |ms| ==> Represents(ins[i], ms[i].runs)
  }

  lemma CodesMore(ins: seq<Input>, ms: seq<Made>, s: Input, m: Made)
    requires Codes(ins, ms) && Represents(s, m.runs)
    ensures Codes(ins + [s], ms + [m])
  {
    var ns := ms + [m];
    forall i {:trigger ns[i]} | 0 <= i < |ns| ensures Represents((ins + [s])[i], ns[i].runs) {
      if i < |ms| { assert ns[i] == ms[i]; }
    }
  }

  /** `nblockMAX` */
  function BlockMax(level: nat): nat
    requires 1 <= level
  {
    100000 * level - 19
  }

  /** The blocks written and the one begun are those into which everything taken in falls. */
  ghost predicate Divided(p: Progress) {
    && 1 <= p.level && p.s.Valid() && |p.s.block| < BlockMax(p.level)
    && var (ins, s) := Cut(Collecting.Fresh(), TakenIn(p), BlockMax(p.level)); s == p.s && Codes(ins, p.ms)
  }

  /** More of a block, which does not fill it. */
  lemma DividedMore(p: Progress, t: seq<byte>, rs: seq<Run>)
    requires Divided(p) && var (s, n) := Fill(p.s, t, BlockMax(p.level));
      |s.block| < BlockMax(p.level) && TakenIn(Filled(p, s, rs)) == TakenIn(p) + t[..n]
    ensures Divided(Filled(p, Fill(p.s, t, BlockMax(p.level)).0, rs))
  {
    var (ins, s) := Cut(Collecting.Fresh(), TakenIn(p), BlockMax(p.level));
    CutMore(Collecting.Fresh(), TakenIn(p), t, BlockMax(p.level));
    var u := Fill(p.s, t, BlockMax(p.level)).0;
    assert Cut(p.s, t, BlockMax(p.level)) == ([], u);
    assert t[..|t|] == t && ins + [] == ins;
  }

  /** A block that is full, as it is divided off. */
  lemma FullDivided(p: Progress, t: seq<byte>, taken: seq<byte>) returns (ins: seq<Input>)
    requires Divided(p) && var (s, n) := Fill(p.s, t, BlockMax(p.level));
      |s.block| >= BlockMax(p.level) && taken == TakenIn(p) + t[..n]
    ensures var s := Fill(p.s, t, BlockMax(p.level)).0;
      Cut(Collecting.Fresh(), taken, BlockMax(p.level)) == (ins + [s], NewBlock(s)) && Codes(ins, p.ms)
  {
    var n := Fill(p.s, t, BlockMax(p.level)).1;
    ins := Cut(Collecting.Fresh(), TakenIn(p), BlockMax(p.level)).0;
    CutMore(Collecting.Fresh(), TakenIn(p), t[..n], BlockMax(p.level));
    CutFull(p.s, t, BlockMax(p.level));
  }

  /** Where a full block leads: the run being collected starts the next one. */
  function Ended(p: Progress, m: Made): Progress {
    Progress(p.level, NewBlock(p.s), [], p.ms + [m])
  }

  lemma OpenValid(s: Input, runs: seq<Run>)
    requires Open(s, runs)
    ensures s.Valid()
  {
  }

  lemma EndKept(p: Progress, m: Made)
    requires Upholds(p) && WellMade(m, p.level) && m.data == Unrolled(p.runs)
    ensures Upholds(Ended(p, m)) && TakenIn(Ended(p, m)) == TakenIn(p)
  {
    hide Upholds, AllMade, WellMade, Unrolled, Content, BlocksBits, Combined, Open, PendingBytes;
    Right(p);
    OpenValid(p.s, p.runs);
    NewBlockOpen(p.s);
    OneMore(p.level, p.ms, m);
    AllMadeMore(p.level, p.ms, m);
    Right(Ended(p, m));
    assert (Content(p.ms) + Unrolled(p.runs)) + PendingBytes(p.s.ch, p.s.len)
      == Content(p.ms) + (Unrolled(p.runs) + PendingBytes(p.s.ch, p.s.len));
  }

  lemma ReadyToEnd(p: Progress)
    requires Upholds(p) && |p.s.block| <= 100000 * p.level
    ensures Prepared(p.level, p.s, p.runs)
  {
    Right(p);
  }

  /** A full block: compressed, written, and a new one begun. */
  method EndBlock(es: EStateInput, out: EStateOutput, ghost p: Progress) returns (ghost q: Progress, ghost m: Made)
    requires Matches(es, out, p) && Upholds(p) && 0 < es.nblock <= 100000 * p.level
    modifies es, es.inUse, out, out.bw
    ensures Matches(es, out, q) && Upholds(q) && es.nblock == 0 && TakenIn(q) == TakenIn(p)
    ensures q == Ended(p, m) && Represents(p.s, m.runs)
  {
    ReadyToEnd(p);
    m := CompressBlock(es, out, p.runs, p.ms);
    es.PrepareNewBlock();
    EndKept(p, m);
    OpenRuns(p);
    q := Ended(p, m);
  }

  /** Where taking in more of a block leads. */
  function Filled(p: Progress, s: Input, rs: seq<Run>): Progress {
    Progress(p.level, s, rs, p.ms)
  }

  lemma TakenMore(p: Progress, t: seq<byte>, max: nat) returns (rs: seq<Run>)
    requires Upholds(p) && p.s.Valid()
    ensures var (s, n) := Fill(p.s, t, max); var q := Filled(p, s, rs); Upholds(q) && TakenIn(q) == TakenIn(p) + t[..n]
  {
    OpenRuns(p);
    rs := FillKept(p.s, p.runs, t, max);
    var (s, n) := Fill(p.s, t, max);
    FilledRight(p, s, rs, t[..n]);
  }

  lemma OpenRuns(p: Progress)
    requires Upholds(p)
    ensures Open(p.s, p.runs)
  {
    Right(p);
  }

  lemma FilledRight(p: Progress, s: Input, rs: seq<Run>, more: seq<byte>)
    requires Upholds(p) && p.s.Valid() && Open(s, rs) && Taken(s, rs) == Taken(p.s, p.runs) + more
    ensures Upholds(Filled(p, s, rs)) && TakenIn(Filled(p, s, rs)) == TakenIn(p) + more
  {
    hide Open, AllMade, Taken, Content, Upholds;
    OpenValid(s, rs);
    Right(p);
    Right(Filled(p, s, rs));
    assert Content(p.ms) + (Taken(p.s, p.runs) + more) == (Content(p.ms) + Taken(p.s, p.runs)) + more;
  }

  /** `copy_input_until_stop`, with what it does to the runs. */
  method TakeInput(es: EStateInput, out: EStateOutput, chunk: seq<byte>, next0: nat, ghost p: Progress)
    returns (next: nat, ghost q: Progress)
    requires Matches(es, out, p) && Upholds(p) && next0 <= |chunk| && es.nblock < es.nblockMAX
    modifies es, es.arr2, es.inUse
    ensures Matches(es, out, q) && Upholds(q) && q.level == p.level && next0 <= next <= |chunk|
    ensures TakenIn(q) == TakenIn(p) + chunk[next0..next]
    ensures next0 < |chunk| ==> next0 < next
    ensures next0 == |chunk| ==> es.nblock < es.nblockMAX
    ensures es.nblock <= es.nblockMAX + 4 && (next == |chunk| || es.nblock >= es.nblockMAX)
    ensures q.ms == p.ms && (q.s, next - next0) == Fill(p.s, chunk[next0..], es.nblockMAX) && q.s == es.State()
  {
    ghost var t := chunk[next0..];
    ghost var rs := TakenMore(p, t, es.nblockMAX);
    next := es.CopyInput(chunk, next0);
    assert t[..next - next0] == chunk[next0..next];
    q := Filled(p, Fill(p.s, t, es.nblockMAX).0, rs);
  }

  lemma Further(taken: seq<byte>, chunk: seq<byte>, i: nat, j: nat)
    requires i <= j <= |chunk|
    ensures (taken + chunk[..i]) + chunk[i..j] == taken + chunk[..j]
  {
    assert chunk[..i] + chunk[i..j] == chunk[..j];
  }

  /** How a block stands when BZ_FINISH has used up its input: `full` if that just filled it. */
  ghost predicate Leaves(p: Progress, full: bool) {
    if full then
      && 1 <= p.level && p.s.Valid() && p.s.ch < NO_CHAR
      && var (ins, s) := Cut(Collecting.Fresh(), TakenIn(p), BlockMax(p.level));
         ins != [] && ins[|ins| - 1] == p.s && s == NewBlock(p.s) && Codes(ins[..|ins| - 1], p.ms)
    else Divided(p)
  }

  /** What a round does to the division of the input. */
  lemma RoundDivides(p: Progress, t: seq<byte>, q: Progress)
    requires Divided(p) && q.level == p.level && q.ms == p.ms && q.s == Fill(p.s, t, BlockMax(p.level)).0
    requires TakenIn(q) == TakenIn(p) + t[..Fill(p.s, t, BlockMax(p.level)).1]
    ensures Leaves(q, |q.s.block| >= BlockMax(q.level))
  {
    if |q.s.block| < BlockMax(q.level) {
      DividedMore(p, t, q.runs);
    } else {
      var ins := FullDivided(p, t, TakenIn(q));
      assert (ins + [q.s])[..|ins|] == ins;
    }
  }

  /** The data ends just where a block is full. */
  ghost predicate EndsFull(level: nat, data: seq<byte>)
    requires 1 <= level
  {
    var (ins, s) := Cut(Collecting.Fresh(), data, BlockMax(level));
    ins != [] && s == NewBlock(ins[|ins| - 1])
  }

  lemma NotFullAfter(p: Progress, t: seq<byte>, taken: seq<byte>)
    requires Divided(p) && t != [] && |Fill(p.s, t, BlockMax(p.level)).0.block| < BlockMax(p.level)
      && taken == TakenIn(p) + t
    ensures !EndsFull(p.level, taken)
  {
    CutPast(Collecting.Fresh(), TakenIn(p), BlockMax(p.level));
    CutMore(Collecting.Fresh(), TakenIn(p), t, BlockMax(p.level));
    FillMoves(p.s, t, BlockMax(p.level));
  }

  lemma EndDivides(q: Progress, m: Made)
    requires Leaves(q, true) && Represents(q.s, m.runs) && TakenIn(Ended(q, m)) == TakenIn(q)
    ensures Divided(Ended(q, m))
  {
    hide Cut, TakenIn, Codes, Represents;
    var ins := Cut(Collecting.Fresh(), TakenIn(q), BlockMax(q.level)).0;
    CodesMore(ins[..|ins| - 1], q.ms, q.s, m);
    assert ins == ins[..|ins| - 1] + [q.s];
  }

  /** A block that is full ends, and the division goes on. */
  method EndRound(es: EStateInput, out: EStateOutput, ghost p: Progress) returns (ghost q: Progress)
    requires Matches(es, out, p) && Upholds(p) && 0 < es.nblock <= 100000 * p.level && Leaves(p, true)
    modifies es, es.inUse, out, out.bw
    ensures Matches(es, out, q) && Upholds(q) && q.level == p.level && es.nblock == 0 && TakenIn(q) == TakenIn(p)
    ensures Leaves(q, false)
  {
    hide Upholds, TakenIn, Divided, Matches;
    ghost var m;
    q, m := EndBlock(es, out, p);
    EndDivides(p, m);
  }

  lemma RoundTaken(p: Progress, chunk: seq<byte>, next0: nat, next: nat, q: Progress, taken: seq<byte>)
    requires Leaves(p, false) && next0 <= next <= |chunk| && q.level == p.level && q.ms == p.ms
    requires (q.s, next - next0) == Fill(p.s, chunk[next0..], BlockMax(p.level))
    requires TakenIn(p) == taken + chunk[..next0] && TakenIn(q) == TakenIn(p) + chunk[next0..next]
    requires next == |chunk| || |q.s.block| >= BlockMax(p.level)
    ensures TakenIn(q) == taken + chunk[..next] && Leaves(q, |q.s.block| >= BlockMax(q.level))
    ensures next0 < |chunk| && |q.s.block| < BlockMax(q.level) ==> !EndsFull(q.level, TakenIn(q))
  {
    hide EndsFull, TakenIn, Divided, Fill;
    assert chunk[next0..][..next - next0] == chunk[next0..next];
    RoundDivides(p, chunk[next0..], q);
    if next0 < |chunk| && |q.s.block| < BlockMax(q.level) { NotFullAfter(p, chunk[next0..], TakenIn(q)); }
    Further(taken, chunk, next0, next);
  }

  /** `copy_input_until_stop`, and how the block then stands. */
  method TakeRound(es: EStateInput, out: EStateOutput, chunk: seq<byte>, next0: nat, ghost p: Progress,
        ghost taken: seq<byte>)
    returns (next: nat, ghost q: Progress)
    requires Matches(es, out, p) && Upholds(p) && next0 <= |chunk| && es.nblock < es.nblockMAX
    requires TakenIn(p) == taken + chunk[..next0] && Leaves(p, false)
    modifies es, es.arr2, es.inUse
    ensures Matches(es, out, q) && Upholds(q) && q.level == p.level && next0 <= next <= |chunk|
    ensures (next0 < |chunk| ==> next0 < next) && (next0 == |chunk| ==> es.nblock < es.nblockMAX)
    ensures es.nblock <= es.nblockMAX + 4 && (next == |chunk| || es.nblock >= es.nblockMAX)
    ensures TakenIn(q) == taken + chunk[..next] && Leaves(q, es.nblock >= es.nblockMAX)
    ensures next0 < |chunk| && es.nblock < es.nblockMAX ==> !EndsFull(q.level, TakenIn(q))
  {
    hide EndsFull, Upholds, TakenIn, Leaves;
    LevelRight(p);
    next, q := TakeInput(es, out, chunk, next0, p);
    RoundTaken(p, chunk, next0, next, q, taken);
  }

  /**
   * One round of `handle_compress`: more input, and the block compressed if it is full. With `last`, input that is
   * used up ends the rounds even if the block is full.
   */
  method Round(es: EStateInput, out: EStateOutput, chunk: seq<byte>, next0: nat, last: bool, ghost p: Progress,
        ghost taken: seq<byte>)
    returns (more: bool, next: nat, ghost q: Progress)
    requires Matches(es, out, p) && Upholds(p) && next0 <= |chunk| && es.nblock < es.nblockMAX
    requires TakenIn(p) == taken + chunk[..next0] && Leaves(p, false)
    modifies es, es.arr2, es.inUse, out, out.bw
    ensures Matches(es, out, q) && Upholds(q) && q.level == p.level
    ensures es.nblock < es.nblockMAX + if more || !last then 0 else 5
    ensures next0 <= next <= |chunk| && if more then next0 < next else next == |chunk|
    ensures TakenIn(q) == taken + chunk[..next] && Leaves(q, es.nblock >= es.nblockMAX)
    ensures next0 == |chunk| ==> es.nblock < es.nblockMAX
    ensures last && next0 < |chunk| && es.nblock < es.nblockMAX ==>
      if more then next < |chunk| else !EndsFull(q.level, TakenIn(q))
  {
    hide EndsFull, Upholds, TakenIn, Leaves;
    LevelRight(p);
    next, q := TakeRound(es, out, chunk, next0, p, taken);
    more := if last then next < |chunk| else es.nblock >= es.nblockMAX;
    if more { q := EndRound(es, out, q); }
  }

  /** `handle_compress` for BZ_RUN, and for BZ_FINISH (with `last`) until the input is used up. */
  method Run(es: EStateInput, out: EStateOutput, chunk: seq<byte>, last: bool, ghost p: Progress)
    returns (ghost q: Progress)
    requires Matches(es, out, p) && Upholds(p) && es.nblock < es.nblockMAX && Leaves(p, false)
    modifies es, es.arr2, es.inUse, out, out.bw
    ensures Matches(es, out, q) && Upholds(q) && q.level == p.level && TakenIn(q) == TakenIn(p) + chunk && 1 <= q.level
    ensures es.nblock < es.nblockMAX + if last then 5 else 0
    ensures Leaves(q, es.nblock >= es.nblockMAX)
    ensures last && chunk != [] && es.nblock < es.nblockMAX ==> !EndsFull(q.level, TakenIn(q))
    ensures chunk == [] ==> es.nblock < es.nblockMAX
  {
    hide Leaves, EndsFull, Matches, Upholds, TakenIn;
    LevelRight(p);
    var next, more := 0, true;
    q := p;
    ghost var taken := TakenIn(p);
    assert taken + chunk[..0] == taken;
    while more
      invariant Matches(es, out, q) && Upholds(q) && q.level == p.level && next <= |chunk| && (more || next == |chunk|)
      invariant es.nblock < es.nblockMAX + if more || !last then 0 else 5
      invariant TakenIn(q) == taken + chunk[..next] && Leaves(q, es.nblock >= es.nblockMAX)
      invariant chunk == [] ==> es.nblock < es.nblockMAX
      invariant last && chunk != [] && es.nblock < es.nblockMAX ==>
        if more then next < |chunk| else !EndsFull(q.level, TakenIn(q))
      decreases |chunk| - next, more
    {
      more, next, q := Round(es, out, chunk, next, last, q, taken);
    }
    assert chunk[..next] == chunk;
  }

  lemma SomeBlock(runs: seq<Run>)
    requires GoodRuns(runs) && runs != []
    ensures Flatten(runs) != []
  {
    assert Coded(runs[0]) != [];
  }

  /** After flushing, the runs are all there is of the block. */
  lemma FlushedReady(p: Progress)
    requires Upholds(p) && p.s.Valid() && |p.s.block| + 5 <= 100000 * p.level
    ensures var s, rs := Flush(p.s), Closed(p.s, p.runs);
      Prepared(p.level, s, rs) && TakenIn(p) == Content(p.ms) + Unrolled(rs)
        && (s.block == [] ==> TakenIn(p) == Content(p.ms))
  {
    Right(p);
    FlushKept(p.s, p.runs);
    var rs := Closed(p.s, p.runs);
    if rs != [] { SomeBlock(rs); }
    assert Content(p.ms) + [] == Content(p.ms);
  }

  /** Blocks that make up a stream for `data`, of which `z` is the bytes; only the padding may be free. */
  ghost predicate StreamFor(level: nat, ms: seq<Made>, z: seq<byte>, data: seq<byte>) {
    AllMade(ms, level) && Content(ms) == data && PadsTo(StreamBits(level, ms), z)
  }

  /** The blocks for `data`: those that fill up, and the last one if anything is left for it. */
  ghost function BlocksOf(level: nat, data: seq<byte>): seq<Input>
    requires 1 <= level
  {
    var (ins, s) := Cut(Collecting.Fresh(), data, BlockMax(level));
    if Flush(s).block == [] then ins else ins + [Flush(s)]
  }

  lemma LastRepresents(p: Progress)
    requires Open(p.s, p.runs)
    ensures p.s.Valid() && Represents(Flush(p.s), Closed(p.s, p.runs))
  {
    FlushKept(p.s, p.runs);
  }

  /** A block that was left open becomes the last one. */
  lemma LastCodes(p: Progress, ms: seq<Made>)
    requires Divided(p) && Open(p.s, p.runs)
    requires if Flush(p.s).block == [] then ms == p.ms
             else |ms| == |p.ms| + 1 && ms[..|p.ms|] == p.ms && ms[|p.ms|].runs == Closed(p.s, p.runs)
    ensures Codes(BlocksOf(p.level, TakenIn(p)), ms)
  {
    hide Cut, Represents, Closed, TakenIn, Unrolled, Fill;
    if Flush(p.s).block != [] {
      hide Codes, Flush, Open;
      LastRepresents(p);
      CodesMore(Cut(Collecting.Fresh(), TakenIn(p), BlockMax(p.level)).0, p.ms, Flush(p.s), ms[|p.ms|]);
      assert ms == p.ms + [ms[|p.ms|]];
    }
  }

  /** A block that just filled up takes in the run that would have been carried over, and so one block is missing. */
  lemma FullMisses(p: Progress, ms: seq<Made>)
    requires Leaves(p, true) && |ms| == |p.ms| + 1
    ensures !Codes(BlocksOf(p.level, TakenIn(p)), ms) && EndsFull(p.level, TakenIn(p))
  {
  }

  lemma FlushMore(s: Input)
    requires s.Valid()
    ensures |Flush(s).block| >= |s.block|
  {
  }

  /** `flush_RL` and the last block if there is any. */
  method LastBlock(es: EStateInput, out: EStateOutput, ghost p: Progress) returns (ghost ms: seq<Made>)
    requires Matches(es, out, p) && Upholds(p) && es.nblock <= es.nblockMAX + 4
    modifies es, es.arr2, es.inUse, out, out.bw
    ensures out.bw.Valid() && out.State() == After(p.level, ms) && AllMade(ms, p.level) && Content(ms) == TakenIn(p)
    ensures if Flush(p.s).block == [] then ms == p.ms
            else |ms| == |p.ms| + 1 && ms[..|p.ms|] == p.ms && ms[|p.ms|].runs == Closed(p.s, p.runs)
  {
    hide TakenIn, Prepared, AllMade, Unrolled, Closed;
    Right(p);
    FlushedReady(p);
    es.FlushRL();
    ms := p.ms;
    if es.nblock > 0 {
      ghost var m := CompressBlock(es, out, Closed(p.s, p.runs), ms);
      OneMore(p.level, ms, m);
      AllMadeMore(p.level, ms, m);
      ms := ms + [m];
    }
  }

  /** The end of BZ_FINISH: `flush_RL`, the last block if there is any, and the trailer. */
  method EndStream(es: EStateInput, out: EStateOutput, ghost p: Progress) returns (ghost ms: seq<Made>)
    requires Matches(es, out, p) && Upholds(p) && es.nblock <= es.nblockMAX + 4 && Leaves(p, es.nblock >= es.nblockMAX)
    modifies es, es.arr2, es.inUse, out, out.bw
    ensures StreamFor(p.level, ms, out.bw.zbits, TakenIn(p)) && 1 <= p.level
    ensures Codes(BlocksOf(p.level, TakenIn(p)), ms) <==> old(es.nblock < es.nblockMAX)
    ensures old(es.nblock >= es.nblockMAX) ==> EndsFull(p.level, TakenIn(p))
  {
    hide Codes, BlocksOf, EndsFull, TakenIn, Divided, AllMade, Flush;
    Right(p);
    ghost var full := es.nblock >= es.nblockMAX;
    ms := LastBlock(es, out, p);
    if full { FlushMore(p.s); FullMisses(p, ms); } else { LastCodes(p, ms); }
    out.SaveTrailer(ms);
  }

  /** All chunks one after another. */
  function Together(chunks: seq<seq<byte>>): seq<byte> {
    if chunks == [] then [] else Together(chunks[..|chunks| - 1]) + chunks[|chunks| - 1]
  }

  /** The decoder turns `z` into `data`, accepts every checksum and leaves nothing but padding. */
  ghost predicate Decodes(z: seq<byte>, data: seq<byte>, small: bool) {
    exists n: nat {:trigger Zeros(n)} ::
      n < 8 && Result(TheDecoder(), Magic(small, 0), ByteBits(z)) == (data, Done, Zeros(n))
  }

  lemma StreamDecodesTo(small: bool, level: nat, ms: seq<Made>, z: seq<byte>, data: seq<byte>)
    requires StreamFor(level, ms, z, data)
    ensures Decodes(z, data, small)
  {
    StreamDecodes(small, level, ms, Zeros(8 * |z| - |StreamBits(level, ms)|));
  }

  /** `BZ2_bzCompressInit` */
  method Init(level: nat) returns (es: EStateInput, out: EStateOutput, ghost p: Progress)
    requires 1 <= level <= 9
    ensures fresh(es) && fresh(es.arr2) && fresh(es.inUse) && fresh(out) && fresh(out.bw)
    ensures Matches(es, out, p) && Upholds(p) && es.nblock < es.nblockMAX && p.level == level && TakenIn(p) == []
    ensures Leaves(p, false)
  {
    es := new EStateInput(level);
    out := new EStateOutput(level);
    p := Progress(level, Collecting.Fresh(), [], []);
    assert Marks(Unused(), []);
    Right(p);
  }

  /**
   * A whole session: BZ2_bzCompressInit, BZ_RUN for every chunk, BZ_FINISH with the last. Whatever the bytes and
   * however they are cut into chunks, the result is a stream for all of them. Its blocks are those into which the data
   * falls by itself, but for one case: bytes given to BZ_FINISH that just fill a block get their last run into it too.
   */
  method Compress(level: nat, chunks: seq<seq<byte>>, last: seq<byte>) returns (z: seq<byte>, ghost ms: seq<Made>)
    requires 1 <= level <= 9
    ensures StreamFor(level, ms, z, Together(chunks) + last)
    ensures Codes(BlocksOf(level, Together(chunks) + last), ms) <==>
      last == [] || !EndsFull(level, Together(chunks) + last)
  {
    hide Matches, Upholds, Leaves, Codes, BlocksOf, EndsFull, StreamFor;
    var es, out;
    ghost var p;
    es, out, p := Init(level);
    for i := 0 to |chunks|
      invariant Matches(es, out, p) && Upholds(p) && es.nblock < es.nblockMAX && p.level == level && Leaves(p, false)
      invariant TakenIn(p) == Together(chunks[..i])
    {
      assert chunks[..i + 1][..i] == chunks[..i];
      p := Run(es, out, chunks[i], false, p);
    }
    assert chunks[..|chunks|] == chunks;
    p := Run(es, out, last, true, p);
    ms := EndStream(es, out, p);
    z := out.bw.zbits;
  }

  /** Both decoders give the bytes back. */
  method CompressDecodes(level: nat, chunks: seq<seq<byte>>, last: seq<byte>) returns (z: seq<byte>)
    requires 1 <= level <= 9
    ensures Decodes(z, Together(chunks) + last, false) && Decodes(z, Together(chunks) + last, true)
  {
    ghost var ms;
    z, ms := Compress(level, chunks, last);
    StreamDecodesTo(false, level, ms, z, Together(chunks) + last);
    StreamDecodesTo(true, level, ms, z, Together(chunks) + last);
  }

  /** Nor does it matter how the compressed bytes and the output space are cut up for the decoder. */
  lemma SessionsDecode(z: seq<byte>, data: seq<byte>, small: bool, calls: seq<(bits, nat)>)
    requires Decodes(z, data, small) && Resumable.Input(calls) == ByteBits(z)
    requires var (out, d, left) := Session(TheDecoder(), Magic(small, 0), [], calls); Stuck(TheDecoder(), d, left)
    ensures var (out, d, left) := Session(TheDecoder(), Magic(small, 0), [], calls); out == data && d == Done
  {
    if Breaks(TheDecoder(), Magic(small, 0), ByteBits(z)) { Fragments.BreakingFails(Magic(small, 0), ByteBits(z)); }
    DecodingFragments(Magic(small, 0), calls);
  }
}
