/** When it matters how input and output space are divided over calls of the decoder. */
module Fragments {
  import opened Bits
  import opened Crc
  import opened RunLength
  import opened Mtf
  import opened Output
  import opened Resumable
  import opened Decoder

  // SMALL: never.

  /** The decoder was asked to save space. */
  predicate Saving(d: Dec) {
    match d
    case Magic(small, _) => small
    case BlockMagic(st, _) => st.small
    case BlockCrc(st, _, _) => st.small
    case RandBit(st, _) => st.small
    case OrigPtr(st, _, _, _) => st.small
    case Used16(st, _, _) => st.small
    case InUse(st, _, _, _) => st.small
    case NumGroups(st, _) => st.small
    case NumSelectors(st, _, _) => st.small
    case Selector(st, _, _, _, _, _) => st.small
    case FirstLength(st, _, _, _) => st.small
    case LengthBit(st, _, _, _, _, _) => st.small
    case LengthSign(st, _, _, _, _, _) => st.small
    case Symbol(st, _, _, _, _) => st.small
    case SymbolBit(st, _, _, _, _, _, _) => st.small
    case Emitting(st, _, _, _) => st.small
    case EndMagic(st, _) => st.small
    case StreamCrc(st, _, _) => st.small
    case _ => true
  }

  lemma {:induction false} MapSaving(st: Stream, hd: Head, used16: seq<bool>, inUse: seq<bool>)
    requires st.small
    ensures Saving(NextInUse(st, hd, used16, inUse)) && !NextInUse(st, hd, used16, inUse).Emitting?
    decreases 256 - |inUse|
  {
    if |inUse| < 256 && |used16| >= 16 && |inUse| % 16 == 0 && !used16[|inUse| / 16] {
      MapSaving(st, hd, used16, inUse + seq(16, i => false));
    }
  }

  lemma KeepSaving(st: Stream, hd: Head, nGroups: nat, cd: Coding, row: seq<nat>, curr: nat)
    ensures var d := KeepLength(st, hd, nGroups, cd, row, curr); (st.small ==> Saving(d)) && !d.Emitting?
  {
  }

  lemma ProbeSaving(st: Stream, hd: Head, cd: Coding, um: Unmtfing, k: nat, zn: nat, zvec: nat)
    requires st.small
    ensures Saving(ProbeSymbol(st, hd, cd, um, k, zn, zvec))
  {
    hide BlockOutputOf, HuffmanCodes.Check, Unmapped;
  }

  /** The labels outside the tables and the data of a block. */
  predicate Framing(d: Dec) {
    d.Magic? || d.BlockMagic? || d.BlockCrc? || d.RandBit? || d.OrigPtr? || d.EndMagic? || d.StreamCrc?
  }

  lemma FrameKeeps(d: Dec, v: nat)
    requires Framing(d)
    ensures (Saving(d) ==> Saving(Step(d, v))) && !Step(d, v).Emitting?
  {
    hide Append8;
  }

  lemma StepSaving(d: Dec, v: nat)
    requires Saving(d)
    ensures Saving(Step(d, v))
  {
    hide UndoSelectors, ProbeSymbol, NextInUse, KeepLength, Append8;
    if Framing(d) {
      hide Step, Saving;
      FrameKeeps(d, v);
    } else {
      match d
      case LengthBit(st, hd, nGroups, cd, row, curr) => KeepSaving(st, hd, nGroups, cd, row, curr);
      case Used16(st, hd, used16) =>
        if |used16 + [v == 1]| >= 16 { MapSaving(st, hd, used16 + [v == 1], []); }
      case InUse(st, hd, used16, inUse) => MapSaving(st, hd, used16, inUse + [v == 1]);
      case Symbol(st, hd, cd, um, k) => ProbeSaving(st, hd, cd, um, k, MinLength(cd, k), v);
      case SymbolBit(st, hd, cd, um, k, zn, zvec) => ProbeSaving(st, hd, cd, um, k, zn + 1, 2 * zvec + v);
      case _ =>
    }
  }

  lemma {:induction false} SavingNeverDrops(d: Dec, b: bits)
    requires Saving(d)
    ensures !Breaks(TheDecoder(), d, b)
    decreases |b|, if d.Emitting? then 1 else 0
  {
    hide Step, Need, FinishBlock;
    if d.Emitting? {
      AfterOutputSaving(d);
      SavingNeverDrops(EmitAll(d).1, b);
    } else if Need(d) != 0 && |b| >= Need(d) {
      StepSaving(d, BitsNat(b[..Need(d)]));
      SavingNeverDrops(Step(d, BitsNat(b[..Need(d)])), b[Need(d)..]);
    }
  }

  lemma AfterOutputSaving(d: Dec)
    requires Saving(d) && d.Emitting?
    ensures Saving(EmitAll(d).1) && !EmitAll(d).1.Emitting? && !Drops(d)
  {
  }

  /** SMALL: however input and space are divided over calls, a session at rest has done what one call does. */
  lemma SmallFragments(calls: seq<(bits, nat)>)
    requires Stuck(TheDecoder(), Session(TheDecoder(), Magic(true, 0), [], calls).1,
      Session(TheDecoder(), Magic(true, 0), [], calls).2)
    ensures Session(TheDecoder(), Magic(true, 0), [], calls) == Result(TheDecoder(), Magic(true, 0), Input(calls))
  {
    SavingNeverDrops(Magic(true, 0), Input(calls));
    hide Session, Result, Breaks, EndsInside;
    DecodingFragments(Magic(true, 0), calls);
  }

  lemma FailedStays(b: bits)
    ensures Result(TheDecoder(), Failed, b) == ([], Failed, b)
  {
  }

  /** A stream that is not refused has no block that breaks off. */
  lemma {:induction false} BreakingFails(d: Dec, b: bits)
    requires Breaks(TheDecoder(), d, b)
    ensures Result(TheDecoder(), d, b).1 == Failed
    decreases |b|, if d.Emitting? then 1 else 0
  {
    hide Step, Need, FinishBlock, Updates;
    if d.Emitting? {
      FailedStays(b);
      if !Drops(d) { BreakingFails(EmitAll(d).1, b); }
    } else {
      BreakingFails(Step(d, BitsNat(b[..Need(d)])), b[Need(d)..]);
    }
  }

  // FAST: exactly when a block breaks off.

  /** A block that breaks off has several bytes of output. */
  predicate Ample(d: Dec) {
    d.Emitting? && !d.pending.ok ==> |d.pending.out| >= 2
  }

  lemma {:induction false} MapNotEmitting(st: Stream, hd: Head, used16: seq<bool>, inUse: seq<bool>)
    ensures !NextInUse(st, hd, used16, inUse).Emitting?
    decreases 256 - |inUse|
  {
    if |inUse| < 256 && |used16| >= 16 && |inUse| % 16 == 0 && !used16[|inUse| / 16] {
      MapNotEmitting(st, hd, used16, inUse + seq(16, i => false));
    }
  }

  lemma EndAmple(st: Stream, hd: Head, v: seq<nat>)
    ensures Ample(EndBlock(st, hd, v))
  {
    if |v| <= 100000 * st.level && hd.orig < |v| {
      var l := Unmapped(hd.unseq, v);
      if !BlockOutputOf(l, hd.orig).ok { BrokenLong(Tape(l, hd.orig), |l|, 1); }
    }
  }

  lemma ProbeAmple(st: Stream, hd: Head, cd: Coding, um: Unmtfing, k: nat, zn: nat, zvec: nat)
    ensures Ample(ProbeSymbol(st, hd, cd, um, k, zn, zvec))
  {
    if um.Valid() { EndAmple(st, hd, EndRun(um).out); }
    hide EndBlock, HuffmanCodes.Check;
  }

  lemma StepAmple(d: Dec, v: nat)
    requires Ample(d)
    ensures Ample(Step(d, v))
  {
    hide UndoSelectors, ProbeSymbol, NextInUse, KeepLength, Append8;
    if Framing(d) {
      hide Step;
      FrameKeeps(d, v);
    } else {
      match d
      case LengthBit(st, hd, nGroups, cd, row, curr) => KeepSaving(st, hd, nGroups, cd, row, curr);
      case Used16(st, hd, used16) =>
        if |used16 + [v == 1]| >= 16 { MapNotEmitting(st, hd, used16 + [v == 1], []); }
      case InUse(st, hd, used16, inUse) => MapNotEmitting(st, hd, used16, inUse + [v == 1]);
      case Symbol(st, hd, cd, um, k) => ProbeAmple(st, hd, cd, um, k, MinLength(cd, k), v);
      case SymbolBit(st, hd, cd, um, k, zn, zvec) => ProbeAmple(st, hd, cd, um, k, zn + 1, 2 * zvec + v);
      case _ =>
    }
  }

  /**
   * The state after a call with space for one byte more than one big call reports: inside the block that breaks off.
   */
  lemma {:induction false} OneByteMore(d: Dec, b: bits)
    requires Ample(d) && Breaks(TheDecoder(), d, b)
    ensures var r := Result(TheDecoder(), d, b); var (out, e, rest) := Call(TheDecoder(), d, b, |r.0| + 1);
      |out| == |r.0| + 1 && Drops(e)
    decreases |b|, if d.Emitting? then 1 else 0
  {
    hide Step, Need, Emit, EmitAll;
    if d.Emitting? {
      if Drops(d) {
        FirstByte(d, b);
      } else {
        WholeOutput(d, b, |Result(TheDecoder(), d, b).0| + 1);
        OneByteMore(EmitAll(d).1, b);
      }
    } else {
      var n := Need(d);
      StepAmple(d, BitsNat(b[..n]));
      OneByteMore(Step(d, BitsNat(b[..n])), b[n..]);
    }
  }

  /** The first byte of a block that breaks off. */
  lemma FirstByte(d: Dec, b: bits)
    requires Drops(d) && Ample(d)
    ensures Result(TheDecoder(), d, b).0 == []
    ensures var (out, e, rest) := Call(TheDecoder(), d, b, 1); |out| == 1 && Drops(e)
  {
    hide Updates;
    assert Result(TheDecoder(), Failed, b) == ([], Failed, b);
  }

  /** With more space than there is output, a block that does not break off in FAST is output as a whole. */
  lemma WholeOutput(d: Dec, b: bits, avail: nat)
    requires d.Emitting? && !Drops(d) && |Result(TheDecoder(), d, b).0| < avail
    ensures var m, (out, e) := TheDecoder(), EmitAll(d);
      && !e.Emitting? && Ample(e) && |out| <= avail && Result(m, d, b) == Put(out, Result(m, e, b))
      && Call(m, d, b, avail) == Put(out, Call(m, e, b, avail - |out|)) && (Breaks(m, d, b) <==> Breaks(m, e, b))
  {
    hide FinishBlock, Updates, Step, Need;
    assert d.pending.out[|d.pending.out|..] == [];
  }

  /** Two calls that report more than one: the first ends inside the block that breaks off. */
  lemma FastDepends(d: Dec, b: bits) returns (calls: seq<(bits, nat)>)
    requires Ample(d) && Breaks(TheDecoder(), d, b)
    ensures Input(calls) == b && var s := Session(TheDecoder(), d, [], calls);
      Stuck(TheDecoder(), s.1, s.2) && s != Result(TheDecoder(), d, b)
  {
    OneByteMore(d, b);
    hide Result, Breaks, Call, Session, TheDecoder, Stuck, Input, Drops;
    var r := Result(TheDecoder(), d, b);
    var e := Call(TheDecoder(), d, b, |r.0| + 1).1;
    DroppedInCall(d, b, |r.0| + 1, r);
    calls := [(b, |r.0| + 1), ([], PendingOf(e))];
  }

  function PendingOf(d: Dec): nat {
    if d.Emitting? then |d.pending.out| else 0
  }

  lemma DroppedInCall(d: Dec, b: bits, avail: nat, r: Outcome<Dec>)
    requires Drops(Call(TheDecoder(), d, b, avail).1) && |Call(TheDecoder(), d, b, avail).0| > |r.0|
    ensures var e := Call(TheDecoder(), d, b, avail).1; var calls := [(b, avail), ([], PendingOf(e))];
      Input(calls) == b && var s := Session(TheDecoder(), d, [], calls); Stuck(TheDecoder(), s.1, s.2) && s != r
  {
    hide Call, Session, TheDecoder, Stuck, Input, Put;
    var (out, e, rest) := Call(TheDecoder(), d, b, avail);
    TwoCalls(d, b, avail, PendingOf(e));
    BrokenEnd(e, rest);
    Longer(out, rest, r);
  }

  lemma Longer(out: seq<byte>, rest: bits, r: Outcome<Dec>)
    requires |out| > |r.0|
    ensures Put(out, ([], Failed, rest)) != r && Put(out, ([], Failed, rest)).1 == Failed
      && Put(out, ([], Failed, rest)).2 == rest
  {
  }

  /** Two calls, the first with all the input. */
  lemma TwoCalls(d: Dec, b: bits, i: nat, j: nat)
    ensures var m := TheDecoder(); var r := Call(m, d, b, i);
      && Session(m, d, [], [(b, i)]) == r && Input([(b, i)]) == b
      && Session(m, d, [], [(b, i), ([], j)]) == Put(r.0, Call(m, r.1, r.2, j)) && Input([(b, i), ([], j)]) == b
  {
    hide Call;
    var m, one: seq<(bits, nat)>, two: seq<(bits, nat)> := TheDecoder(), [(b, i)], [(b, i), ([], j)];
    assert [] + b == b && b + [] == b && one[1..] == [];
    assert two[1..] == [([], j)] && two[1..][1..] == [];
    var r := Call(m, d, b, i);
    assert r.2 + [] == r.2;
    var q := Call(m, r.1, r.2, j);
    assert Session(m, r.1, r.2, two[1..]) == Put(q.0, ([], q.1, q.2));
    assert r.0 + [] == r.0 && q.0 + [] == q.0;
    assert Input(two[1..]) == [];
  }

  /** The call that finds the block broken off. */
  lemma BrokenEnd(d: Dec, b: bits)
    requires Drops(d)
    ensures Call(TheDecoder(), d, b, |d.pending.out|) == ([], Failed, b) && Stuck(TheDecoder(), Failed, b)
  {
    hide Updates, Step, FinishBlock;
    PutNone(Call(TheDecoder(), Failed, b, |d.pending.out|));
  }

  /**
   * Whether the bits `b` decode in the same way however they and the space for output are divided over calls: if and
   * only if no block breaks off, where SMALL never counts as breaking off.
   */
  lemma FragmentsAgree(small: bool, b: bits)
    ensures (forall calls: seq<(bits, nat)> {:trigger Session(TheDecoder(), Magic(small, 0), [], calls)} ::
               Input(calls) == b
               && Stuck(TheDecoder(), Session(TheDecoder(), Magic(small, 0), [], calls).1,
                 Session(TheDecoder(), Magic(small, 0), [], calls).2)
               ==> Session(TheDecoder(), Magic(small, 0), [], calls) == Result(TheDecoder(), Magic(small, 0), b))
            <==> !Breaks(TheDecoder(), Magic(small, 0), b)
    ensures small ==> !Breaks(TheDecoder(), Magic(small, 0), b)
  {
    if small { SavingNeverDrops(Magic(small, 0), b); }
    if Breaks(TheDecoder(), Magic(small, 0), b) {
      var calls := FastDepends(Magic(small, 0), b);
    } else {
      forall calls: seq<(bits, nat)> |
        Input(calls) == b
        && Stuck(TheDecoder(), Session(TheDecoder(), Magic(small, 0), [], calls).1,
          Session(TheDecoder(), Magic(small, 0), [], calls).2)
        ensures Session(TheDecoder(), Magic(small, 0), [], calls) == Result(TheDecoder(), Magic(small, 0), b)
      {
        DecodingFragments(Magic(small, 0), calls);
      }
    }
  }

  // The smallest such block: four equal bytes and no count.

  /**
   * `aaaa`: the byte read past the end is taken for the count, so that 101 bytes are written before the block breaks
   * off.
   */
  lemma FourAs(st: Stream, crc: word, orig: nat)
    requires orig < 4 && 1 <= st.level
    ensures EndBlock(st, Head(crc, orig, [97]), [0, 0, 0, 0])
      == Emitting(st, crc, Expanded(Repeat(97, 101), false), INITIAL)
  {
    hide Tape, Rest;
    var l := Unmapped([97], [0, 0, 0, 0]);
    assert l == [97, 97, 97, 97];
    AllAs(l, orig);
    RestOfAs(Tape(l, orig));
  }

  lemma RestOfAs(t: seq<byte>)
    requires t == [97, 97, 97, 97, 97, 97]
    ensures Rest(t, 4, 1) == Expanded(Repeat(97, 101), false)
  {
    assert NextRun(t, 4, 1) == OutState(97, 101, 6, 97);
    assert Repeat(97, 101) + [] == Repeat(97, 101);
  }

  lemma AllAs(l: seq<byte>, orig: nat)
    requires l == [97, 97, 97, 97] && orig < 4
    ensures Tape(l, orig) == [97, 97, 97, 97, 97, 97]
  {
    forall y | 0 <= y < |l| ensures InverseBwt.TInv(l)[y] < |l| { InverseBwt.TInvInverse(l, y); }
    forall i | 0 <= i < 6 ensures Tape(l, orig)[i] == 97 { InverseBwt.WalkMembers(InverseBwt.TInv(l), l, orig, 6, i); }
  }

  /**
   * FAST: one call with 200 bytes of space reports none of them, two calls with 100 report 100; SMALL reports 101 in
   * both.
   */
  lemma FourAsDiffer(level: nat, combined: word, crc: word, orig: nat)
    requires orig < 4 && 1 <= level
    ensures var d := EndBlock(Stream(false, level, combined), Head(crc, orig, [97]), [0, 0, 0, 0]);
      && Session(TheDecoder(), d, [], [([], 200)]) == ([], Failed, [])
      && Session(TheDecoder(), d, [], [([], 100), ([], 100)]) == (Repeat(97, 100), Failed, [])
    ensures var d := EndBlock(Stream(true, level, combined), Head(crc, orig, [97]), [0, 0, 0, 0]);
      && Session(TheDecoder(), d, [], [([], 200)]) == (Repeat(97, 101), Failed, [])
      && Session(TheDecoder(), d, [], [([], 100), ([], 100)]) == (Repeat(97, 101), Failed, [])
  {
    FourAs(Stream(false, level, combined), crc, orig);
    FourAs(Stream(true, level, combined), crc, orig);
    hide EndBlock, Session, TheDecoder;
    SessionsOfAs(Stream(false, level, combined), crc);
    SessionsOfAs(Stream(true, level, combined), crc);
  }

  /** A call on a block that breaks off, with no more input. */
  lemma CallBroken(d: Dec, avail: nat)
    requires d.Emitting? && !d.pending.ok
    ensures Call(TheDecoder(), d, [], avail) == (Emit(d, avail).0, Emit(d, avail).1, [])
  {
    var (out, e) := Emit(d, avail);
    assert out + [] == out;
  }

  lemma EmitAs(st: Stream, stored: word)
    ensures var d := Emitting(st, stored, Expanded(Repeat(97, 101), false), INITIAL); var (out, e) := Emit(d, 100);
      && Emit(d, 200) == (if st.small then Repeat(97, 101) else [], Failed)
      && out == Repeat(97, 100) && e.Emitting? && !e.pending.ok
      && Emit(e, 100) == (if st.small then Repeat(97, 1) else [], Failed)
  {
    hide Updates;
    assert Repeat(97, 101)[..100] == Repeat(97, 100) && Repeat(97, 101)[100..] == Repeat(97, 1);
  }

  lemma SessionsOfAs(st: Stream, stored: word)
    ensures var m, d := TheDecoder(), Emitting(st, stored, Expanded(Repeat(97, 101), false), INITIAL);
      && Session(m, d, [], [([], 200)]) == (if st.small then Repeat(97, 101) else [], Failed, [])
      && Session(m, d, [], [([], 100), ([], 100)])
        == (if st.small then Repeat(97, 101) else Repeat(97, 100), Failed, [])
  {
    hide Emit, Call, Session, TheDecoder;
    var d := Emitting(st, stored, Expanded(Repeat(97, 101), false), INITIAL);
    EmitAs(st, stored);
    CallBroken(d, 200);
    CallBroken(d, 100);
    CallBroken(Emit(d, 100).1, 100);
    TwoCalls(d, [], 200, 0);
    TwoCalls(d, [], 100, 100);
    assert Repeat(97, 100) + Repeat(97, 1) == Repeat(97, 101) && Repeat(97, 100) + [] == Repeat(97, 100);
  }
}
