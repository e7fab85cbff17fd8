/** `BZ2_decompress` and `BZ2_bzDecompress` as a machine whose states are the resumption labels. */
module Decoder {
  import opened Bits
  import opened Crc
  import opened RunLength
  import opened Mtf
  import opened HuffmanCodes
  import opened UndoBwt
  import opened Output
  import opened Resumable

  const GROUP_SIZE := 50

  /** `BZ_MAX_SELECTORS`: how many selectors the arrays of the decoder, and of the compressor, hold. */
  const MAX_SELECTORS := 2 + 900000 / GROUP_SIZE

  /** What lasts for the whole stream. */
  datatype Stream = Stream(small: bool, level: nat, combined: word)

  /** What is known of the block being read. */
  datatype Head = Head(crc: word, orig: nat, unseq: seq<byte>)

  /** The coding tables of a block and which table each group of symbols uses. */
  datatype Coding = Coding(lens: seq<seq<nat>>, selectors: seq<nat>)

  datatype Dec =
    | Magic(small: bool, i: nat)
    | BlockMagic(st: Stream, i: nat)
    | BlockCrc(st: Stream, i: nat, crc: word)
    | RandBit(st: Stream, crc: word)
    | OrigPtr(st: Stream, crc: word, i: nat, orig: nat)
    | Used16(st: Stream, hd: Head, used16: seq<bool>)
    | InUse(st: Stream, hd: Head, used16: seq<bool>, inUse: seq<bool>)
    | NumGroups(st: Stream, hd: Head)
    | NumSelectors(st: Stream, hd: Head, nGroups: nat)
    | Selector(st: Stream, hd: Head, nGroups: nat, n: nat, mtfs: seq<nat>, j: nat)
    | FirstLength(st: Stream, hd: Head, nGroups: nat, cd: Coding)
    | LengthBit(st: Stream, hd: Head, nGroups: nat, cd: Coding, row: seq<nat>, curr: nat)
    | LengthSign(st: Stream, hd: Head, nGroups: nat, cd: Coding, row: seq<nat>, curr: nat)
    | Symbol(st: Stream, hd: Head, cd: Coding, um: Unmtfing, k: nat)
    | SymbolBit(st: Stream, hd: Head, cd: Coding, um: Unmtfing, k: nat, zn: nat, zvec: nat)
    | Emitting(st: Stream, stored: word, pending: Expanded, crc: word)
    | EndMagic(st: Stream, i: nat)
    | StreamCrc(st: Stream, i: nat, crc: word)
    | Done
    | Failed
    | Randomised
    | Overrun
  {
    /** No input makes a difference any more; nothing is promised of a decoder that wrote outside its arrays. */
    predicate Terminal() {
      Done? || Failed? || Randomised? || Overrun?
    }
  }

  function MinOf(lens: seq<nat>): (m: nat)
    requires lens != []
    ensures m in lens && forall i :: 0 <= i < |lens| ==> m <= lens[i]
  {
    if |lens| == 1 then lens[0]
    else
      var m := MinOf(lens[1..]);
      assert forall i :: 1 <= i < |lens| ==> lens[i] == lens[1..][i - 1];
      if lens[0] < m then lens[0] else m
  }

  function MaxOf(lens: seq<nat>): (m: nat)
    requires lens != []
    ensures m in lens && forall i :: 0 <= i < |lens| ==> m >= lens[i]
  {
    if |lens| == 1 then lens[0]
    else
      var m := MaxOf(lens[1..]);
      assert forall i :: 1 <= i < |lens| ==> lens[i] == lens[1..][i - 1];
      if lens[0] > m then lens[0] else m
  }

  /** The table that symbol `k` is coded with. */
  function TableOf(cd: Coding, k: nat): seq<nat> {
    if k / GROUP_SIZE < |cd.selectors| && cd.selectors[k / GROUP_SIZE] < |cd.lens|
    then cd.lens[cd.selectors[k / GROUP_SIZE]] else []
  }

  /** `gMinlen`; code lengths are at least 1. */
  function MinLength(cd: Coding, k: nat): (n: nat)
    ensures n > 0
  {
    var lens := TableOf(cd, k);
    if lens == [] || MinOf(lens) == 0 then 1 else MinOf(lens)
  }

  /** How many bits the next `GET_BITS` asks for. */
  function Need(d: Dec): (n: nat)
    ensures d.Terminal() || d.Emitting? || n > 0
  {
    match d
    case Magic(_, _) => 8
    case BlockMagic(_, _) => 8
    case BlockCrc(_, _, _) => 8
    case RandBit(_, _) => 1
    case OrigPtr(_, _, _, _) => 8
    case Used16(_, _, _) => 1
    case InUse(_, _, _, _) => 1
    case NumGroups(_, _) => 3
    case NumSelectors(_, _, _) => 15
    case Selector(_, _, _, _, _, _) => 1
    case FirstLength(_, _, _, _) => 5
    case LengthBit(_, _, _, _, _, _) => 1
    case LengthSign(_, _, _, _, _, _) => 1
    case Symbol(_, _, cd, _, k) => MinLength(cd, k)
    case SymbolBit(_, _, _, _, _, _, _) => 1
    case EndMagic(_, _) => 8
    case StreamCrc(_, _, _) => 8
    case _ => 0
  }

  const HEADER: seq<nat> := [0x42, 0x5a, 0x68]
  const BLOCK_MAGIC: seq<nat> := [0x31, 0x41, 0x59, 0x26, 0x53, 0x59]
  const END_MAGIC: seq<nat> := [0x17, 0x72, 0x45, 0x38, 0x50, 0x90]
  const HDR_0 := 0x30

  /** `makeMaps_d` */
  function SeqToUnseq(inUse: seq<bool>, c: nat): (m: seq<byte>)
    requires c <= |inUse| <= 256
    decreases c
  {
    if c == 0 then [] else SeqToUnseq(inUse, c - 1) + (if inUse[c - 1] then [c - 1] else [])
  }

  /** Continues with the next group of sixteen bytes that has any in use. */
  function NextInUse(st: Stream, hd: Head, used16: seq<bool>, inUse: seq<bool>): Dec
    decreases 256 - |inUse|
  {
    if |inUse| >= 256 || |used16| < 16 then
      var unseq := if |inUse| == 256 then SeqToUnseq(inUse, 256) else [];
      if unseq == [] then Failed else NumGroups(st, hd.(unseq := unseq))
    else if |inUse| % 16 == 0 && !used16[|inUse| / 16] then
      NextInUse(st, hd, used16, inUse + seq(16, i => false))
    else InUse(st, hd, used16, inUse)
  }

  /** Undoes the move-to-front coding of the selectors. */
  function UndoSelectors(pos: seq<nat>, mtfs: seq<nat>): seq<nat>
    decreases |mtfs|
  {
    if mtfs == [] then []
    else if mtfs[0] >= |pos| then UndoSelectors(pos, mtfs[1..])
    else [pos[mtfs[0]]] + UndoSelectors(Front(pos, mtfs[0]), mtfs[1..])
  }

  /** The start of a loop round in the reading of code lengths. */
  function CheckLength(st: Stream, hd: Head, nGroups: nat, cd: Coding, row: seq<nat>, curr: int): Dec {
    if curr < 1 || curr > LONGEST then Failed else LengthBit(st, hd, nGroups, cd, row, curr)
  }

  /** A code length is known: the next one, the next table or the symbols. */
  function KeepLength(st: Stream, hd: Head, nGroups: nat, cd: Coding, row: seq<nat>, curr: nat): Dec {
    var row' := row + [curr];
    if |row'| < |hd.unseq| + 2 then CheckLength(st, hd, nGroups, cd, row', curr)
    else
      var cd' := cd.(lens := cd.lens + [row']);
      if |cd'.lens| < nGroups then FirstLength(st, hd, nGroups, cd')
      else NextSymbol(st, hd, cd', Start(256), 0)
  }

  /** The head of `GET_MTF_VAL`: every fiftieth symbol needs another selector. */
  function NextSymbol(st: Stream, hd: Head, cd: Coding, um: Unmtfing, k: nat): Dec {
    if k % GROUP_SIZE == 0 && k / GROUP_SIZE >= |cd.selectors| then Failed else Symbol(st, hd, cd, um, k)
  }

  /** The probe after `zn` bits. */
  function ProbeSymbol(st: Stream, hd: Head, cd: Coding, um: Unmtfing, k: nat, zn: nat, zvec: nat): Dec {
    var lens := TableOf(cd, k);
    if lens == [] then Failed
    else
      match Check(lens, MinOf(lens), MaxOf(lens), zn, zvec)
      case Bad => Failed
      case More => SymbolBit(st, hd, cd, um, k, zn, zvec)
      case Found(sym) => Accept(st, hd, cd, um, k, sym)
  }

  /** One symbol: end of block, part of a zero run or a list position. */
  function Accept(st: Stream, hd: Head, cd: Coding, um: Unmtfing, k: nat, sym: nat): Dec {
    if !um.Valid() then Failed
    else if sym == |hd.unseq| + 1 then
      EndBlock(st, hd, EndRun(um).out)
    else
      var um' := Mtf.Decode(um, sym);
      if |um'.out| > 100000 * st.level then Failed else NextSymbol(st, hd, cd, um', k + 1)
  }

  /** `seqToUnseq` over the decoded list positions. */
  function Unmapped(unseq: seq<byte>, v: seq<nat>): (l: seq<byte>)
    ensures |l| == |v|
  {
    seq(|v|, i requires 0 <= i < |v| => if v[i] < |unseq| then unseq[v[i]] else 0)
  }

  /** The whole block is here: the inverse transform gives what is to be output. */
  function EndBlock(st: Stream, hd: Head, v: seq<nat>): Dec {
    if |v| > 100000 * st.level || hd.orig >= |v| then Failed
    else Emitting(st, hd.crc, BlockOutputOf(Unmapped(hd.unseq, v), hd.orig), INITIAL)
  }

  function BlockOutputOf(l: seq<byte>, orig: nat): Expanded
    requires orig < |l|
  {
    Rest(Tape(l, orig), |l|, 1)
  }

  /** One `GET_BITS` and what follows up to the next. */
  function Step(d: Dec, v: nat): Dec {
    match d
    case Magic(small, i) =>
      if i < 3 then (if v == HEADER[i] then Magic(small, i + 1) else Failed)
      else if HDR_0 + 1 <= v <= HDR_0 + 9 then BlockMagic(Stream(small, v - HDR_0, 0), 0) else Failed
    case BlockMagic(st, i) =>
      if i == 0 && v == END_MAGIC[0] then EndMagic(st, 1)
      else if i >= 6 || v != BLOCK_MAGIC[i] then Failed
      else if i < 5 then BlockMagic(st, i + 1) else BlockCrc(st, 0, 0)
    case BlockCrc(st, i, crc) =>
      var c := Append8(crc, v);
      if i < 3 then BlockCrc(st, i + 1, c) else RandBit(st, c)
    case RandBit(st, crc) => if v == 0 then OrigPtr(st, crc, 0, 0) else Randomised
    case OrigPtr(st, crc, i, orig) =>
      var o := orig * 256 + v;
      if i < 2 then OrigPtr(st, crc, i + 1, o)
      else if o > 10 + 100000 * st.level then Failed
      else Used16(st, Head(crc, o, []), [])
    case Used16(st, hd, used16) =>
      var u := used16 + [v == 1];
      if |u| < 16 then Used16(st, hd, u) else NextInUse(st, hd, u, [])
    case InUse(st, hd, used16, inUse) => NextInUse(st, hd, used16, inUse + [v == 1])
    case NumGroups(st, hd) => if 2 <= v <= 6 then NumSelectors(st, hd, v) else Failed
    case NumSelectors(st, hd, nGroups) => if v >= 1 then Selector(st, hd, nGroups, v, [], 0) else Failed
    case Selector(st, hd, nGroups, n, mtfs, j) =>
      if v == 1 then (if j + 1 >= nGroups then Failed else Selector(st, hd, nGroups, n, mtfs, j + 1))
      else if |mtfs| >= MAX_SELECTORS then Overrun
      else
        var m := mtfs + [j];
        if |m| < n then Selector(st, hd, nGroups, n, m, 0)
        else FirstLength(st, hd, nGroups, Coding([], UndoSelectors(Identity(nGroups), m)))
    case FirstLength(st, hd, nGroups, cd) => CheckLength(st, hd, nGroups, cd, [], v)
    case LengthBit(st, hd, nGroups, cd, row, curr) =>
      if v == 1 then LengthSign(st, hd, nGroups, cd, row, curr)
      else KeepLength(st, hd, nGroups, cd, row, curr)
    case LengthSign(st, hd, nGroups, cd, row, curr) =>
      CheckLength(st, hd, nGroups, cd, row, if v == 0 then curr + 1 else curr - 1)
    case Symbol(st, hd, cd, um, k) => ProbeSymbol(st, hd, cd, um, k, MinLength(cd, k), v)
    case SymbolBit(st, hd, cd, um, k, zn, zvec) => ProbeSymbol(st, hd, cd, um, k, zn + 1, 2 * zvec + v)
    case EndMagic(st, i) =>
      if i >= 6 || v != END_MAGIC[i] then Failed else if i < 5 then EndMagic(st, i + 1) else StreamCrc(st, 0, 0)
    case StreamCrc(st, i, crc) =>
      var c := Append8(crc, v);
      if i < 3 then StreamCrc(st, i + 1, c) else if c == st.combined then Done else Failed
    case _ => d
  }

  /** `(crc << 8) | uc` in 32 bits. */
  function Append8(crc: word, v: nat): word {
    (crc % 0x100_0000) * 256 + v % 256
  }

  /** The end of `BZ_X_OUTPUT`: checksums, then the next block. */
  function FinishBlock(d: Dec): Dec
    requires d.Emitting?
  {
    if Finalise(d.crc) != d.stored then Failed
    else BlockMagic(d.st.(combined := Combine(d.st.combined, d.stored)), 0)
  }

  /** The FAST routine reports nothing of a call in which it finds that the block breaks off. */
  predicate Drops(d: Dec) {
    d.Emitting? && !d.st.small && !d.pending.ok
  }

  /** One call of an output routine with `avail` bytes of space. */
  function Emit(d: Dec, avail: nat): (seq<byte>, Dec) {
    if !d.Emitting? then ([], d) else
    var out := Emitted(d.pending, avail);
    var e := d.(pending := Expanded(d.pending.out[|out|..], d.pending.ok), crc := Updates(d.crc, out));
    if |out| < |d.pending.out| then (out, e)
    else if d.pending.ok then (out, FinishBlock(e))
    else if !d.st.small then ([], Failed)
    else (out, if |out| == avail then e else Failed)
  }

  /** Outputting everything that is pending. */
  function EmitAll(d: Dec): (r: (seq<byte>, Dec))
    ensures !r.1.Emitting?
  {
    if !d.Emitting? then ([], d)
    else if Drops(d) then ([], Failed)
    else
      var e := d.(pending := Expanded([], d.pending.ok), crc := Updates(d.crc, d.pending.out));
      (d.pending.out, if d.pending.ok then FinishBlock(e) else Failed)
  }

  function TheDecoder(): Machine<Dec> {
    Machine(Need, Step, (d: Dec) => d.Emitting?, Drops, Emit, EmitAll)
  }

  /**
   * Outputting in two goes is outputting in one, and a block that breaks off in FAST comes to nothing in either way.
   */
  lemma EmitSplit(d: Dec, avail: nat)
    requires d.Emitting?
    ensures EmitsEvenly(TheDecoder(), d, avail)
  {
    hide Updates, Combine, Finalise;
    var (out, e) := Emit(d, avail);
    assert out + d.pending.out[|out|..] == d.pending.out;
    UpdatesConcat(d.crc, out, d.pending.out[|out|..]);
    if |out| == |d.pending.out| {
      assert d.pending.out[|out|..] == [];
    }
  }

  lemma DecoderLawful()
    ensures Lawful(TheDecoder())
  {
    forall d: Dec, avail: nat | d.Emitting? ensures EmitsEvenly(TheDecoder(), d, avail) {
      EmitSplit(d, avail);
    }
  }

  /**
   * Decompression depends on how input arrives and output space is granted in one case only: a call ended inside a
   * block that breaks off, in FAST, and reported bytes of it.
   */
  lemma DecodingFragments(d: Dec, calls: seq<(bits, nat)>)
    requires Stuck(TheDecoder(), Session(TheDecoder(), d, [], calls).1, Session(TheDecoder(), d, [], calls).2)
    ensures Session(TheDecoder(), d, [], calls) == Result(TheDecoder(), d, Input(calls)) <==>
      !EndsInside(TheDecoder(), d, [], calls)
    ensures !Breaks(TheDecoder(), d, Input(calls)) ==> !EndsInside(TheDecoder(), d, [], calls)
  {
    DecoderLawful();
    SessionIsOneCall(TheDecoder(), d, calls);
  }
}
