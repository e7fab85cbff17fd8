/** `BZ2_bzDecompress` in place: a bit buffer and the state to resume from. */
module Decompressor {
  import opened Bits
  import opened BitIO
  import opened Crc
  import opened RunLength
  import opened HuffmanCodes
  import Mtf
  import opened Output
  import opened Resumable
  import opened Decoder
  import opened FormatReads
  import opened BlockHead
  import opened BlockColumn
  import opened BlockReader

  /** All lengths of a table are in 1..20. */
  predicate LengthsFit(row: seq<nat>) {
    row == [] || (LengthsFit(row[..|row| - 1]) && 1 <= row[|row| - 1] <= LONGEST)
  }

  predicate TablesFit(lens: seq<seq<nat>>) {
    lens == [] || (TablesFit(lens[..|lens| - 1]) && LengthsFit(lens[|lens| - 1]))
  }

  /** Every code length that the decoder holds is in 1..20. */
  predicate Sane(d: Dec) {
    match d
    case FirstLength(_, _, _, cd) => TablesFit(cd.lens)
    case LengthBit(_, _, _, cd, row, curr) => TablesFit(cd.lens) && LengthsFit(row) && 1 <= curr <= LONGEST
    case LengthSign(_, _, _, cd, row, curr) => TablesFit(cd.lens) && LengthsFit(row) && 1 <= curr <= LONGEST
    case Symbol(_, _, cd, _, _) => TablesFit(cd.lens)
    case SymbolBit(_, _, cd, _, _, _, _) => TablesFit(cd.lens)
    case _ => true
  }

  lemma {:induction false} LengthFits(row: seq<nat>, i: nat)
    requires i < |row| && LengthsFit(row)
    ensures 1 <= row[i] <= LONGEST
  {
    if i < |row| - 1 { LengthFits(row[..|row| - 1], i); }
  }

  lemma {:induction false} TableFits(lens: seq<seq<nat>>, t: nat)
    requires t < |lens| && TablesFit(lens)
    ensures LengthsFit(lens[t])
  {
    if t < |lens| - 1 { TableFits(lens[..|lens| - 1], t); }
  }

  /** No field asked for is wider than 24 bits, so that the 32-bit buffer never overflows. */
  lemma NeedFits(d: Dec)
    requires Sane(d)
    ensures Need(d) <= 24
  {
    if d.Symbol? {
      var lens := TableOf(d.cd, d.k);
      if lens != [] {
        TableFits(d.cd.lens, d.cd.selectors[d.k / GROUP_SIZE]);
        var i :| 0 <= i < |lens| && lens[i] == MinOf(lens);
        LengthFits(lens, i);
      }
    }
  }

  lemma LengthKept(st: Decoder.Stream, hd: Head, nGroups: nat, cd: Coding, row: seq<nat>, curr: nat)
    requires TablesFit(cd.lens) && LengthsFit(row) && 1 <= curr <= LONGEST
    ensures Sane(KeepLength(st, hd, nGroups, cd, row, curr))
  {
    var next := row + [curr];
    assert next[..|row|] == row;
    var lens := cd.lens + [next];
    assert lens[..|cd.lens|] == cd.lens;
  }

  lemma {:induction false} MapSane(st: Decoder.Stream, hd: Head, used16: seq<bool>, inUse: seq<bool>)
    ensures Sane(NextInUse(st, hd, used16, inUse))
    decreases 256 - |inUse|
  {
    if |inUse| < 256 && |used16| >= 16 && |inUse| % 16 == 0 && !used16[|inUse| / 16] {
      MapSane(st, hd, used16, inUse + seq(16, i => false));
    }
  }

  lemma ProbeSane(st: Decoder.Stream, hd: Head, cd: Coding, um: Mtf.Unmtfing, k: nat, zn: nat, zvec: nat)
    requires TablesFit(cd.lens)
    ensures Sane(ProbeSymbol(st, hd, cd, um, k, zn, zvec))
  {
    hide BlockOutputOf, Check, Unmapped, TablesFit;
  }

  /** Whatever is read, the state stays sane. */
  lemma StepSane(d: Dec, v: nat)
    requires Sane(d)
    ensures Sane(Step(d, v))
  {
    hide UndoSelectors, ProbeSymbol, NextInUse, KeepLength, TablesFit, LengthsFit;
    match d
    case Used16(st, hd, used16) =>
      if |used16 + [v == 1]| >= 16 { MapSane(st, hd, used16 + [v == 1], []); }
    case InUse(st, hd, used16, inUse) => MapSane(st, hd, used16, inUse + [v == 1]);
    case LengthBit(st, hd, nGroups, cd, row, curr) =>
      if v != 1 { LengthKept(st, hd, nGroups, cd, row, curr); }
    case Selector(st, hd, nGroups, n, mtfs, j) => EmptyFits();
    case FirstLength(st, hd, nGroups, cd) => EmptyFits();
    case Symbol(st, hd, cd, um, k) => ProbeSane(st, hd, cd, um, k, MinLength(cd, k), v);
    case SymbolBit(st, hd, cd, um, k, zn, zvec) => ProbeSane(st, hd, cd, um, k, zn + 1, 2 * zvec + v);
    case _ =>
  }

  lemma EmptyFits()
    ensures TablesFit([]) && LengthsFit([])
  {
  }

  /** `dec` also outputs as the decoder does. */
  ghost predicate Outputs(dec: Machine<Dec>) {
    IsDecoder(dec) && forall d: Dec, avail: nat {:trigger dec.emit(d, avail)} :: dec.emit(d, avail) == Emit(d, avail)
  }

  /**
   * Which part of `BZ2_bzDecompress` goes on: the head of a block or the trailer, the symbols of a block, its output.
   */
  datatype Phase = Heading | Reading(b: Reader) | Giving(o: BlockOutput, s: OutState, crc: word)

  /** What a call of an output routine leaves, by the three ways in which it can end. */
  lemma EmitIs(st: Decoder.Stream, stored: word, s: OutState, crc: word, avail: nat, tape: seq<byte>, n: nat,
        out: seq<byte>, c: OutState, corrupt: bool)
    requires s.Valid(tape, n) && Unrled(st.small, tape, n, s, avail, corrupt, out, c)
    ensures |out| <= avail && c.Valid(tape, n)
    ensures var d, q := Emitting(st, stored, s.Pending(tape, n), crc), c.Pending(tape, n); Emit(d, avail) == (out,
      if corrupt then Failed
      else if c.len == 0 && c.used == n + 1 then FinishBlock(Emitting(st, stored, q, Updates(crc, out)))
      else Emitting(st, stored, q, Updates(crc, out)))
  {
    hide FinishBlock, Rest;
    var p, q := s.Pending(tape, n), c.Pending(tape, n);
    if st.small || !corrupt {
      assert p.out == out + q.out && p.out[|out|..] == q.out;
      assert Expanded(p.out[|out|..], p.ok) == q;
    }
  }

  /** What an output routine reports and leaves; FAST forgets a call in which the block breaks off. */
  ghost predicate Unrled(small: bool, tape: seq<byte>, n: nat, s: OutState, avail: nat, corrupt: bool, out: seq<byte>,
        c: OutState)
    requires s.Valid(tape, n)
  {
    var p := s.Pending(tape, n);
    && (corrupt <==> !p.ok && if small then |p.out| < avail else |p.out| <= avail)
    && if corrupt && !small then out == [] && c == s else Served(tape, n, p, avail, out, c)
  }

  /** `unRLE_obuf_to_output_FAST` or `_SMALL`, whichever was asked for. */
  method Unrle(o: BlockOutput, small: bool, s: OutState, crc: word, avail: nat)
    returns (corrupt: bool, out: seq<byte>, c: OutState, c_crc: word)
    requires s.Valid(o.tape, o.n) && o.At(s.used) && o.rows.Small? == small
    modifies o`taken, o.rows.Cursor()
    ensures Unrled(small, o.tape, o.n, s, avail, corrupt, out, c) && o.At(c.used)
      && c_crc == Updates(crc, out)
  {
    if small {
      corrupt, out, c, c_crc := o.OutputSmall(s, crc, avail);
    } else {
      corrupt, out, c, c_crc := o.OutputFast(s, crc, avail);
    }
  }

  /** `DState`: the bit buffer, the arrays and registers of each part, and nothing else that lasts between calls. */
  class DState {
    const reader: BitReader
    const head: HeadReader
    var phase: Phase
    ghost var part: set<object>   // what the phase works on
    ghost var d: Dec              // the state of the decoder on values

    ghost predicate Apart()
      reads this
    {
      && head.Apart() && this !in part && this !in head.repr && (this as object) != head && head !in part
      && head !in head.repr
      && reader !in part && reader !in head.repr && (reader as object) != head && (this as object) != reader
      && (forall x {:trigger x in part} :: x in part ==> x !in head.repr)
      && match phase
         case Heading => true
         case Reading(b) => b in part && b.repr <= part && b.symbols.fixed <= part
         case Giving(o, s, crc) => o in part && o.repr <= part && o !in o.repr
    }

    /** The arrays and registers stand for `d`. */
    ghost predicate Tied()
      reads this, head, head.repr, part
    {
      Apart() && head.Valid() && match phase
      case Heading => !head.state.TABLES? && d == head.Now()
      case Reading(b) => head.state.TABLES? && b.st == head.St() && b.hd == head.Hd(true) && b.Stands()
        && d == b.State()
      case Giving(o, s, crc) =>
        && head.state.TABLES? && s.Valid(o.tape, o.n) && o.At(s.used) && o.rows.Small? == head.small
        && d == Emitting(head.St(), head.storedBlock, s.Pending(o.tape, o.n), crc)
    }

    ghost predicate Valid()
      reads this, reader, head, head.repr, part
    {
      reader.Valid() && Sane(d) && Apart() && Tied()
    }

    /** `BZ2_bzDecompressInit` */
    constructor (small: bool)
      ensures Valid() && d == Magic(small, 0) && reader.Remaining() == []
      ensures fresh(reader) && fresh(head) && fresh(head.repr) && fresh(part)
    {
      var r := new BitReader([]);
      var h := new HeadReader(small);
      reader, head, phase, part, d := r, h, Heading, {}, Magic(small, 0);
      new;
      assert ByteBits([]) == [];
    }

    /** What the next `GET_BITS` asks for. */
    method Width() returns (n: nat)
      requires Valid() && !d.Emitting?
      ensures n == Need(d)
      ensures phase.Heading? ==> (n > 0 ==> head.Reads()) && (head.state.SELECTOR_2? ==> n == 15)
    {
      match phase {
        case Heading => n := head.Width();
        case Reading(b) => n := b.Width();
      }
    }

    /** The tables of a block are complete. */
    method StartData()
      requires Apart() && phase.Heading? && head.Valid() && head.state.TABLES? && d == head.Now()
      modifies this`phase, this`part
      ensures Tied() && fresh(part)
    {
      hide HeadReader.Valid, HeadReader.Now;
      var cd := head.Coded();
      var b := new Reader(head.St(), head.Hd(true), cd);
      phase, part := Reading(b), {b as object} + b.repr + b.symbols.fixed;
    }

    /** The head of a block or the trailer goes on. */
    method TakeHead(v: nat)
      requires Tied() && phase.Heading? && head.Reads() && (head.state.SELECTOR_2? ==> v < 0x8000)
      modifies this`phase, this`part, this`d, head, head.repr
      ensures Tied() && d == Step(old(d), v) && fresh(part - old(part))
    {
      hide Step, HeadReader.Valid, HeadReader.Now;
      d := Step(d, v);
      head.Take(v);
      if head.state.TABLES? { StartData(); }
    }

    /** In the middle of a block. */
    ghost predicate InBlock()
      reads this, head, head.repr
    {
      Apart() && head.Valid() && head.state.TABLES?
    }

    /** The stream is corrupt. */
    method Fail()
      requires InBlock()
      modifies this`phase, this`part, this`d, head
      ensures Tied() && d == Failed && part == {}
    {
      hide HeadReader.Valid, HeadReader.Now;
      head.Fail();
      phase, part, d := Heading, {}, Failed;
    }

    /** One field of the data. */
    method ReadData(b: Reader, v: nat) returns (r: Next)
      requires Tied() && phase == Reading(b)
      modifies this`d, b, b.repr
      ensures InBlock() && phase == Reading(b) && b.st == head.St() && b.hd == head.Hd(true)
        && head.storedBlock == b.hd.crc
      ensures r.On? ==> Tied() && d == Step(old(d), v)
      ensures r.Fails? ==> Step(old(d), v) == Failed
      ensures r.Ends? ==> b.column.Valid() && b.Apart() && Step(old(d), v) == EndBlock(b.st, b.hd, b.column.um.out)
    {
      hide Step, EndBlock, HeadReader.Valid, HeadReader.Now, Reader.Now, Reader.Stands, Column.Valid;
      r := b.Take(v);
      d := Step(d, v);
    }

    /** The end of the data. */
    method FinishData(b: Reader)
      requires InBlock() && phase == Reading(b) && b.st == head.St() && b.hd == head.Hd(true)
        && head.storedBlock == b.hd.crc
      requires b.column.Valid() && b.Apart()
      modifies this`phase, this`part, this`d, head, b.repr
      ensures Tied() && d == EndBlock(b.st, b.hd, old(b.column.um.out)) && fresh(part - old(part))
    {
      hide EndBlock, HeadReader.Valid, HeadReader.Now, Column.Valid, Reader.Apart, OutState.Valid, OutState.Pending,
        BlockOutput.At;
      ghost var out := b.column.um.out;
      var f := b.Finish();
      match f {
        case Corrupt => Fail();
        case Ready(o, s) =>
          phase, part := Giving(o, s, INITIAL), {o as object} + o.repr;
          d := EndBlock(b.st, b.hd, out);
      }
    }

    /** The data of a block goes on. */
    method TakeData(b: Reader, v: nat)
      requires Tied() && phase == Reading(b)
      modifies this`phase, this`part, this`d, head, part
      ensures Tied() && d == Step(old(d), v) && fresh(part - old(part))
    {
      hide Step, EndBlock, HeadReader.Valid, HeadReader.Now, Reader.Now, Reader.Stands, Column.Valid;
      var r := ReadData(b, v);
      if r.Fails? { Fail(); }
      if r.Ends? { FinishData(b); }
    }

    /** The end of the output of a block: the checksums. */
    method FinishOutput()
      requires Tied() && phase.Giving?
      modifies this`phase, this`part, this`d, head
      ensures Tied() && old(d).Emitting? && d == FinishBlock(old(d)) && part == {}
    {
      hide FinishBlock, HeadReader.Valid, HeadReader.Now;
      ghost var p := phase.s.Pending(phase.o.tape, phase.o.n);
      d := FinishBlock(d);
      head.NextBlock(phase.crc, p);
      phase, part := Heading, {};
    }

    /** One call of it on the arrays of the block. */
    method ServeBlock(avail: nat) returns (corrupt: bool, out: seq<byte>, c: OutState, c_crc: word)
      requires Tied() && phase.Giving?
      modifies part
      ensures InBlock() && phase.o.At(c.used) && phase.o.rows.Small? == head.small
      ensures c.Valid(phase.o.tape, phase.o.n) && |out| <= avail
      ensures var e := Emitting(head.St(), head.storedBlock, c.Pending(phase.o.tape, phase.o.n), c_crc);
        Emit(d, avail) == (out, if corrupt then Failed else if c.len == 0 && c.used == phase.o.n + 1 then FinishBlock(e)
          else e)
    {
      hide Emit, FinishBlock, HeadReader.Valid, HeadReader.Now, Updates, Unrled, OutState.Valid, OutState.Pending,
        Rows.Valid;
      var o, s, crc := phase.o, phase.s, phase.crc;
      corrupt, out, c, c_crc := Unrle(o, head.small, s, crc, avail);
      EmitIs(head.St(), head.storedBlock, s, crc, avail, o.tape, o.n, out, c, corrupt);
    }

    /** The registers are saved. */
    method Serve(avail: nat) returns (corrupt: bool, out: seq<byte>)
      requires Tied() && phase.Giving?
      modifies this`phase, this`d, part
      ensures Tied() && phase.Giving? && |out| <= avail && part == old(part) && InBlock() && d.Emitting?
      ensures Emit(old(d), avail) ==
        (out, if corrupt then Failed else if phase.s.len == 0 && phase.s.used == phase.o.n + 1 then FinishBlock(d)
          else d)
    {
      hide Emit, FinishBlock, HeadReader.Valid, HeadReader.Now, OutState.Valid, OutState.Pending, BlockOutput.At;
      var c, c_crc;
      corrupt, out, c, c_crc := ServeBlock(avail);
      phase := Giving(phase.o, c, c_crc);
      d := Emitting(head.St(), head.storedBlock, c.Pending(phase.o.tape, phase.o.n), c_crc);
    }

    /** `BZ_X_OUTPUT` */
    method Output(avail: nat) returns (out: seq<byte>)
      requires Tied() && phase.Giving?
      modifies this`phase, this`part, this`d, head, part
      ensures Tied() && |out| <= avail && (out, d) == Emit(old(d), avail) && fresh(part - old(part))
    {
      hide Emit, FinishBlock, Tied, Apart, HeadReader.Valid, HeadReader.Now;
      var corrupt;
      corrupt, out := Serve(avail);
      if corrupt {
        Fail();
      } else if phase.s.len == 0 && phase.s.used == phase.o.n + 1 {
        FinishOutput();
      }
    }

    lemma GivingEmits()
      requires Tied()
      ensures (phase.Giving? <==> d.Emitting?) && Apart()
    {
    }

    /** A field has been read. */
    method Take(v: nat)
      requires Apart() && Tied() && !phase.Giving?
      requires phase.Heading? ==> head.Reads() && (head.state.SELECTOR_2? ==> v < 0x8000)
      modifies this`phase, this`part, this`d, head, head.repr, part
      ensures Apart() && Tied() && fresh(part - old(part)) && d == Step(old(d), v)
    {
      hide Step, HeadReader.Valid, HeadReader.Now, Reader.Now, Reader.Stands, Reader.Valid, OutState.Valid,
        OutState.Pending, BlockOutput.At;
      match phase {
        case Heading => TakeHead(v);
        case Reading(b) => TakeData(b, v);
      }
    }

    /** A field of `n` bits with what follows; false when the input ends first. */
    method Fetch(n: nat, ghost b: bits) returns (ok: bool)
      requires Valid() && !phase.Giving? && n == Need(d) > 0 && b == reader.Remaining()
      requires phase.Heading? ==> head.Reads() && (head.state.SELECTOR_2? ==> n == 15)
      modifies this`phase, this`part, this`d, head, head.repr, part, reader
      ensures Valid() && fresh(part - old(part)) && ok == (n <= |b|)
      ensures ok ==> d == Step(old(d), BitsNat(b[..n])) && reader.Remaining() == b[n..]
      ensures !ok ==> d == old(d) && reader.Remaining() == b
    {
      hide Step, Need, Sane, Tied;
      NeedFits(d);
      Pow2Consts();
      var v;
      ok, v := reader.GetBits(n);
      if ok {
        StepSane(d, v);
        Take(v);
      }
    }

    /** One `GET_BITS` with what follows; false when the input ends first. */
    method Advance(ghost b: bits) returns (ok: bool)
      requires Valid() && !d.Emitting? && b == reader.Remaining()
      modifies this`phase, this`part, this`d, head, head.repr, part, reader
      ensures Valid() && fresh(part - old(part)) && ok == (0 < Need(old(d)) <= |b|)
      ensures ok ==> d == Step(old(d), BitsNat(b[..Need(old(d))])) && reader.Remaining() == b[Need(old(d))..]
      ensures !ok ==> d == old(d) && reader.Remaining() == b
    {
      GivingEmits();
      hide Step, Need, Sane, Tied;
      var n := Width();
      ok := false;
      if n > 0 { ok := Fetch(n, b); }
    }

    /** How far the rest of the call can still go. */
    ghost function Ahead(): nat
      requires reader.Valid()
      reads this, reader
    {
      2 * |reader.Remaining()| + if d.Emitting? then 1 else 0
    }

    /** What a call would do from here. */
    ghost function Coming(dec: Machine<Dec>, avail: nat): Outcome<Dec>
      requires reader.Valid()
      reads this, reader
    {
      Call(dec, d, reader.Remaining(), avail)
    }

    method RoundOutput(avail: nat, ghost dec: Machine<Dec>) returns (more: bool, o: seq<byte>)
      requires Valid() && Outputs(dec) && phase.Giving?
      modifies this`phase, this`part, this`d, head, head.repr, part, reader
      ensures Valid() && fresh(part - old(part)) && |o| <= avail && (more ==> Ahead() < old(Ahead()))
      ensures old(Coming(dec, avail)) == if more then Put(o, Coming(dec, avail - |o|)) else (o, d, reader.Remaining())
    {
      hide Step, Emit, Need, Sane, Tied;
      GivingEmits();
      EmitFits(d, avail);
      o := Output(avail);
      GivingEmits();
      more := !phase.Giving?;
    }

    method RoundField(avail: nat, ghost dec: Machine<Dec>) returns (more: bool, o: seq<byte>)
      requires Valid() && Outputs(dec) && !phase.Giving?
      modifies this`phase, this`part, this`d, head, head.repr, part, reader
      ensures Valid() && fresh(part - old(part)) && |o| <= avail && (more ==> Ahead() < old(Ahead()))
      ensures old(Coming(dec, avail)) == if more then Put(o, Coming(dec, avail - |o|)) else (o, d, reader.Remaining())
    {
      hide Step, Emit, Need, Sane, Tied;
      GivingEmits();
      o := [];
      more := Advance(reader.Remaining());
      if more { PutNone(Coming(dec, avail)); }
    }

    /** One round of the loop of `BZ2_bzDecompress`, down to the single field. */
    method Round(avail: nat, ghost dec: Machine<Dec>) returns (more: bool, o: seq<byte>)
      requires Valid() && Outputs(dec)
      modifies this`phase, this`part, this`d, head, head.repr, part, reader
      ensures Valid() && fresh(part - old(part)) && |o| <= avail && (more ==> Ahead() < old(Ahead()))
      ensures old(Coming(dec, avail)) == if more then Put(o, Coming(dec, avail - |o|)) else (o, d, reader.Remaining())
    {
      hide Tied, Sane, Call;
      GivingEmits();
      if phase.Giving? { more, o := RoundOutput(avail, dec); } else { more, o := RoundField(avail, dec); }
    }

    /** One call of `BZ2_bzDecompress` with more input and `avail` bytes of space. */
    method Decompress(data: seq<byte>, avail: nat, ghost dec: Machine<Dec>) returns (out: seq<byte>)
      requires Valid() && Outputs(dec)
      modifies this`phase, this`part, this`d, head, head.repr, part, reader
      ensures Valid() && fresh(part - old(part))
      ensures (out, d, reader.Remaining()) == Call(dec, old(d), old(reader.Remaining()) + ByteBits(data), avail)
    {
      hide Step, Emit, Need, Sane, Tied, Call;
      reader.Feed(data);
      out := [];
      var more := true;
      ghost var goal := Coming(dec, avail);
      PutNone(goal);
      while more
        invariant Valid() && fresh(part - old(part)) && |out| <= avail
        invariant goal == if more then Put(out, Coming(dec, avail - |out|)) else (out, d, reader.Remaining())
        decreases more, Ahead()
      {
        var o;
        ghost var left := avail - |out|;
        more, o := Round(avail - |out|, dec);
        if more { PutPut(out, o, Coming(dec, left - |o|)); }
        out := out + o;
      }
    }
  }

  lemma EmitFits(d: Dec, avail: nat)
    requires Sane(d)
    ensures var (o, e) := Emit(d, avail); |o| <= avail && Sane(e)
  {
  }
}
