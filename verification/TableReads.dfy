/** The parts of a block before its data: origin, byte map, selectors and coding tables. */
module TableReads {
  import opened Bits
  import opened Crc
  import opened RunLength
  import opened Mtf
  import opened HuffmanCodes
  import opened Resumable
  import opened Decoder
  import opened Format
  import opened FormatReads

  lemma ShlByte(a: nat)
    ensures Shl(a, 8) == 256 * a
  {
    assert Shl(a, 1) == 2 * a;
    assert Shl(a, 3) == 8 * a;
    assert Shl(a, 4) == 16 * a;
    assert Shl(a, 6) == 64 * a;
  }

  /** `v >> 8` and `v & 0xff` */
  lemma ByteParts(v: nat)
    ensures Shr(v, 8) == v / 256 && Low(v, 8) == v % 256
  {
    LowShr(v, 8);
    Pow2Consts();
    ShlByte(Shr(v, 8));
  }

  /** A word is written with its most significant bit first. */
  lemma WordIsBits(u: word)
    ensures WordBits(u) == NatBits(WIDTH, u)
  {
    SplitBits(24, 8, u);
    ByteParts(u);
    SplitBits(16, 8, u / 256);
    ByteParts(u / 256);
    SplitBits(8, 8, u / 256 / 256);
    ByteParts(u / 256 / 256);
    assert u / 256 / 256 == u / 0x1_0000 && u / 256 / 256 / 256 == u / 0x100_0000;
  }

  lemma {:induction false} LowShr(v: nat, n: nat)
    ensures v == Shl(Shr(v, n), n) + Low(v, n)
  {
    if n > 0 { LowShr(v / 2, n - 1); }
  }

  function OrigPart(v: nat, i: nat): nat {
    if i == 0 then 0 else if i == 1 then v / 0x1_0000 else if i == 2 then v / 256 else v
  }

  function OrigByte(v: nat, i: nat): nat {
    if i == 0 then v / 0x1_0000 else if i == 1 then v / 256 % 256 else v % 256
  }

  function OrigBytes(v: nat): (cs: seq<nat>)
    ensures |cs| == 3 && forall j :: 0 <= j < 3 ==> cs[j] == OrigByte(v, j)
  {
    seq(3, j requires 0 <= j < 3 => OrigByte(v, j))
  }

  lemma OrigBits(v: nat)
    ensures NatBits(24, v) == Chars(OrigBytes(v))
  {
    var cs := OrigBytes(v);
    SplitBits(16, 8, v);
    ByteParts(v);
    SplitBits(8, 8, v / 256);
    ByteParts(v / 256);
    assert v / 256 / 256 == v / 0x1_0000;
    assert CharsUpTo(cs, 1) == Char(cs[0]);
    assert CharsUpTo(cs, 2) == CharsUpTo(cs, 1) + Char(cs[1]);
  }

  lemma OrigNext(v: nat, i: nat)
    requires v < 0x100_0000 && i < 3
    ensures OrigByte(v, i) < 256 && OrigPart(v, i) * 256 + OrigByte(v, i) == OrigPart(v, i + 1)
  {
  }

  function OrigAt(st: Stream, crc: word, orig: nat, i: nat): Dec {
    if i < 3 then OrigPtr(st, crc, i, OrigPart(orig, i)) else Used16(st, Head(crc, orig, []), [])
  }

  lemma OrigStep(st: Stream, crc: word, orig: nat, i: nat)
    requires orig < 0x100_0000 && orig <= 10 + 100000 * st.level && i < 3
    ensures Steps(OrigAt(st, crc, orig, i), CHAR_WIDTH, OrigByte(orig, i), OrigAt(st, crc, orig, i + 1))
  {
    OrigNext(orig, i);
    ByteFits(OrigByte(orig, i));
  }

  lemma OrigReads(dec: Machine<Dec>, st: Stream, crc: word, orig: nat)
    requires IsDecoder(dec)
    requires orig < Pow2(24) && orig <= 10 + 100000 * st.level
    ensures Goes(dec, OrigPtr(st, crc, 0, 0), NatBits(ORIG_WIDTH, orig), Used16(st, Head(crc, orig, []), []))
  {
    Pow2Consts();
    OrigBits(orig);
    var at := seq(4, i requires 0 <= i => OrigAt(st, crc, orig, i));
    forall j {:trigger OrigBytes(orig)[j]} | 0 <= j < 3
      ensures Steps(at[j], CHAR_WIDTH, OrigBytes(orig)[j], at[j + 1]) {
      OrigStep(st, crc, orig, j);
    }
    CharsGo(dec, at, OrigBytes(orig), 3);
  }

  function Used16At(st: Stream, hd: Head, u: seq<bool>, i: nat): Dec
    requires i <= |u|
  {
    if i < 16 then Used16(st, hd, u[..i]) else NextInUse(st, hd, u, [])
  }

  lemma NotEmitting(st: Stream, hd: Head, u: seq<bool>, inUse: seq<bool>)
    ensures !NextInUse(st, hd, u, inUse).Emitting?
    decreases 256 - |inUse|
  {
  }

  lemma Used16Step(st: Stream, hd: Head, u: seq<bool>, i: nat)
    requires i < |u| == 16
    ensures Steps(Used16At(st, hd, u, i), 1, if u[i] then 1 else 0, Used16At(st, hd, u, i + 1))
  {
    hide NextInUse;
    var n := i + 1;
    assert u[..n] == u[..i] + [u[i]];
    assert n == 16 ==> u[..n] == u;
    OneBit();
    NotEmitting(st, hd, u, []);
  }

  lemma Used16Reads(dec: Machine<Dec>, st: Stream, hd: Head, u: seq<bool>)
    requires IsDecoder(dec)
    requires |u| == 16
    ensures Goes(dec, Used16(st, hd, []), u, NextInUse(st, hd, u, []))
  {
    var at := seq(17, i requires 0 <= i < 17 => Used16At(st, hd, u, i));
    forall j {:trigger u[j]} | 0 <= j < 16 ensures Steps(at[j], 1, if u[j] then 1 else 0, at[j + 1]) {
      Used16Step(st, hd, u, j);
    }
    assert u[..0] == [] && u[..16] == u;
    BitsGo(dec, at, u, 16);
  }

  /** Inside a used group the bits are read one by one. */
  lemma InUseStep(st: Stream, hd: Head, u: seq<bool>, p: seq<bool>, b: bool)
    requires |u| == 16 && |p| < 256 && (|p| % 16 != 0 || u[|p| / 16])
    ensures Steps(NextInUse(st, hd, u, p), 1, if b then 1 else 0, NextInUse(st, hd, u, p + [b]))
  {
    NextIs(st, hd, u, p);
    NotEmitting(st, hd, u, p + [b]);
    OneBit();
  }

  lemma GroupBits(dec: Machine<Dec>, st: Stream, hd: Head, u: seq<bool>, inUse: seq<bool>, i: nat)
    requires IsDecoder(dec)
    requires |inUse| == 256 && |u| == 16 && i < 16 && u[i]
    ensures Goes(dec, NextInUse(st, hd, u, inUse[..16 * i]), inUse[16 * i..16 * i + 16],
      NextInUse(st, hd, u, inUse[..16 * i + 16]))
  {
    hide NextInUse, Step, Need, Reads, Steps;
    var lo := 16 * i;
    var b, at := inUse[lo..lo + 16], seq(17, j requires 0 <= j < 17 => NextInUse(st, hd, u, inUse[..lo + j]));
    forall j {:trigger b[j]} | 0 <= j < 16 ensures Steps(at[j], 1, if b[j] then 1 else 0, at[j + 1]) {
      var n := lo + j;
      assert n / 16 == i;
      assert inUse[..n + 1] == inUse[..n] + [inUse[n]];
      InUseStep(st, hd, u, inUse[..n], inUse[n]);
    }
    NotEmitting(st, hd, u, inUse[..lo]);
    BitsGo(dec, at, b, 16);
    assert b[..16] == b;
  }

  lemma NextIs(st: Stream, hd: Head, u: seq<bool>, p: seq<bool>)
    requires |u| == 16 && |p| < 256 && (|p| % 16 != 0 || u[|p| / 16])
    ensures NextInUse(st, hd, u, p) == InUse(st, hd, u, p)
  {
  }

  lemma NextSkips(st: Stream, hd: Head, u: seq<bool>, inUse: seq<bool>, i: nat)
    requires |inUse| == 256 && u == Used16Of(inUse) && i < 16 && !u[i]
    ensures NextInUse(st, hd, u, inUse[..16 * i]) == NextInUse(st, hd, u, inUse[..16 * i + 16])
  {
    assert !GroupUsed(inUse, i);
    assert inUse[..16 * i + 16] == inUse[..16 * i] + seq(16, i => false);
    hide GroupUsed, Used16Of;
    SkipGroup(st, hd, u, inUse[..16 * i]);
  }

  lemma SkipGroup(st: Stream, hd: Head, u: seq<bool>, p: seq<bool>)
    requires |u| == 16 && |p| < 256 && |p| % 16 == 0 && !u[|p| / 16]
    ensures NextInUse(st, hd, u, p) == NextInUse(st, hd, u, p + seq(16, i => false))
  {
    hide SeqToUnseq;
  }

  lemma {:induction false} GroupsRead(dec: Machine<Dec>, st: Stream, hd: Head, inUse: seq<bool>, i: nat)
    requires IsDecoder(dec)
    requires |inUse| == 256 && i <= 16
    ensures Goes(dec, NextInUse(st, hd, Used16Of(inUse), []), GroupsUpTo(inUse, i),
      NextInUse(st, hd, Used16Of(inUse), inUse[..16 * i]))
  {
    var u := Used16Of(inUse);
    var d := NextInUse(st, hd, u, []);
    if i == 0 {
      NotEmitting(st, hd, u, []);
      assert inUse[..0] == [];
      GoesNothing(dec, d);
    } else {
      GroupsRead(dec, st, hd, inUse, i - 1);
      GroupReads(dec, st, hd, inUse, i - 1);
      Then(dec, d, GroupsUpTo(inUse, i - 1), NextInUse(st, hd, u, inUse[..16 * (i - 1)]), GroupBitsOf(inUse, i - 1),
           NextInUse(st, hd, u, inUse[..16 * i]));
    }
  }

  function GroupBitsOf(inUse: seq<bool>, i: nat): bits
    requires |inUse| == 256 && i < 16
  {
    if GroupUsed(inUse, i) then inUse[16 * i..16 * i + 16] else []
  }

  lemma GroupReads(dec: Machine<Dec>, st: Stream, hd: Head, inUse: seq<bool>, i: nat)
    requires IsDecoder(dec)
    requires |inUse| == 256 && i < 16
    ensures Goes(dec, NextInUse(st, hd, Used16Of(inUse), inUse[..16 * i]), GroupBitsOf(inUse, i),
                 NextInUse(st, hd, Used16Of(inUse), inUse[..16 * i + 16]))
  {
    var u := Used16Of(inUse);
    if u[i] {
      GroupBits(dec, st, hd, u, inUse, i);
    } else {
      NextSkips(st, hd, u, inUse, i);
      NotEmitting(st, hd, u, inUse[..16 * i]);
      GoesNothing(dec, NextInUse(st, hd, u, inUse[..16 * i]));
    }
  }

  lemma MapReads(dec: Machine<Dec>, st: Stream, hd: Head, inUse: seq<bool>)
    requires IsDecoder(dec)
    requires |inUse| == 256 && SeqToUnseq(inUse, 256) != []
    ensures Goes(dec, Used16(st, hd, []), MapBits(inUse), NumGroups(st, hd.(unseq := SeqToUnseq(inUse, 256))))
  {
    var u := Used16Of(inUse);
    Used16Reads(dec, st, hd, u);
    assert u[..16] == u;
    GroupsRead(dec, st, hd, inUse, 16);
    assert inUse[..256] == inUse;
    Then(dec, Used16(st, hd, []), u, NextInUse(st, hd, u, []), GroupsUpTo(inUse, 16),
      NumGroups(st, hd.(unseq := SeqToUnseq(inUse, 256))));
  }

  lemma SelectorFits(n: nat)
    ensures n < 8 ==> n < Pow2(3)
    ensures n < 0x8000 ==> n < Pow2(15)
    ensures n < 32 ==> n < Pow2(5)
  {
    Pow2Consts();
  }

  /** A unary number. */
  lemma {:induction false} OnesRead(dec: Machine<Dec>, st: Stream, hd: Head, g: nat, n: nat, mtfs: seq<nat>, j: nat)
    requires IsDecoder(dec)
    requires j < g
    ensures Goes(dec, Selector(st, hd, g, n, mtfs, 0), Ones(j), Selector(st, hd, g, n, mtfs, j))
  {
    var d := Selector(st, hd, g, n, mtfs, 0);
    if j == 0 {
      GoesNothing(dec, d);
    } else {
      hide Reads, IsDecoder;
      OnesRead(dec, st, hd, g, n, mtfs, j - 1);
      assert Ones(j) == Ones(j - 1) + [true];
      OneBit();
      ThenBit(dec, d, Ones(j - 1), Selector(st, hd, g, n, mtfs, j - 1), true, Selector(st, hd, g, n, mtfs, j));
    }
  }

  /** A unary number that names no table is refused. */
  lemma SelectorTooFar(dec: Machine<Dec>, st: Stream, hd: Head, g: nat, n: nat, mtfs: seq<nat>)
    requires IsDecoder(dec) && 0 < g
    ensures Goes(dec, Selector(st, hd, g, n, mtfs, 0), Ones(g), Failed)
  {
    OnesRead(dec, st, hd, g, n, mtfs, g - 1);
    assert Ones(g) == Ones(g - 1) + [true];
    OneBit();
    ThenBit(dec, Selector(st, hd, g, n, mtfs, 0), Ones(g - 1), Selector(st, hd, g, n, mtfs, g - 1), true, Failed);
  }

  /** Every selector kept names a table. */
  lemma {:induction false} SelectorsName(pos: seq<nat>, mtfs: seq<nat>, g: nat)
    requires forall i :: 0 <= i < |pos| ==> pos[i] < g
    ensures forall i :: 0 <= i < |UndoSelectors(pos, mtfs)| ==> UndoSelectors(pos, mtfs)[i] < g
    decreases |mtfs|
  {
    if mtfs != [] {
      if mtfs[0] >= |pos| { SelectorsName(pos, mtfs[1..], g); }
      else { SelectorsName(Front(pos, mtfs[0]), mtfs[1..], g); }
    }
  }

  function SelectorAt(st: Stream, hd: Head, g: nat, mtfs: seq<nat>, i: nat): Dec
    requires i <= |mtfs|
  {
    if i < |mtfs| then Selector(st, hd, g, |mtfs|, mtfs[..i], 0)
    else FirstLength(st, hd, g, Coding([], UndoSelectors(Identity(g), mtfs)))
  }

  lemma {:induction false} SelectorsRead(dec: Machine<Dec>, st: Stream, hd: Head, g: nat, mtfs: seq<nat>, i: nat)
    requires IsDecoder(dec)
    requires mtfs != [] && i <= |mtfs| <= MAX_SELECTORS && forall x :: 0 <= x < |mtfs| ==> mtfs[x] < g
    ensures Goes(dec, Selector(st, hd, g, |mtfs|, [], 0), SelectorsUpTo(mtfs, i), SelectorAt(st, hd, g, mtfs, i))
  {
    var d := Selector(st, hd, g, |mtfs|, [], 0);
    if i == 0 {
      assert mtfs[..0] == [];
      GoesNothing(dec, d);
    } else {
      var m, j, a := mtfs[..i - 1], mtfs[i - 1], SelectorsUpTo(mtfs, i - 1);
      assert mtfs[..i] == m + [j];
      assert i == |mtfs| ==> mtfs[..i] == mtfs;
      SelectorsRead(dec, st, hd, g, mtfs, i - 1);
      OnesRead(dec, st, hd, g, |mtfs|, m, j);
      Then(dec, d, a, SelectorAt(st, hd, g, mtfs, i - 1), Ones(j), Selector(st, hd, g, |mtfs|, m, j));
      OneBit();
      ThenBit(dec, d, a + Ones(j), Selector(st, hd, g, |mtfs|, m, j), false, SelectorAt(st, hd, g, mtfs, i));
    }
  }

  /** Undoing the move-to-front coding of the selectors gives them back. */
  lemma {:induction false} SelectorsUndone(pos: seq<nat>, sels: seq<nat>)
    requires forall i :: 0 <= i < |sels| ==> sels[i] in pos
    ensures UndoSelectors(pos, SelectorMtf(pos, sels)) == sels
    decreases |sels|
  {
    if sels != [] {
      var j := Position(pos, sels[0]);
      var mtfs := SelectorMtf(pos, sels);
      assert forall i :: 0 <= i < |sels[1..]| ==> sels[1..][i] in Front(pos, j) by {
        forall i | 0 <= i < |sels[1..]| ensures sels[1..][i] in Front(pos, j) {
          assert sels[1..][i] == sels[i + 1];
          FrontMembers(pos, j, sels[i + 1]);
        }
      }
      SelectorsUndone(Front(pos, j), sels[1..]);
      assert mtfs[1..] == SelectorMtf(Front(pos, j), sels[1..]);
    }
  }

  /** The current length moves to the one wanted, staying in range. */
  lemma {:induction false} DeltaReads(dec: Machine<Dec>, st: Stream, hd: Head, g: nat, cd: Coding, row: seq<nat>,
        curr: nat, target: nat)
    requires IsDecoder(dec)
    requires 1 <= curr <= LONGEST && 1 <= target <= LONGEST
    ensures Goes(dec, LengthBit(st, hd, g, cd, row, curr), Delta(curr, target), LengthBit(st, hd, g, cd, row, target))
    decreases if curr < target then target - curr else curr - target
  {
    hide Reads, IsDecoder;
    var d := LengthBit(st, hd, g, cd, row, curr);
    if curr == target {
      GoesNothing(dec, d);
    } else {
      var t := if curr < target then target - 1 else target + 1;
      DeltaReads(dec, st, hd, g, cd, row, curr, t);
      StepLength(dec, st, hd, g, cd, row, t, curr < target);
      Then(dec, d, Delta(curr, t), LengthBit(st, hd, g, cd, row, t), [true, !(curr < target)],
        LengthBit(st, hd, g, cd, row, target));
    }
  }

  lemma StepLength(dec: Machine<Dec>, st: Stream, hd: Head, g: nat, cd: Coding, row: seq<nat>, t: nat, up: bool)
    requires IsDecoder(dec)
    requires 1 <= t <= LONGEST && (up ==> t < LONGEST) && (!up ==> t > 1)
    ensures Goes(dec, LengthBit(st, hd, g, cd, row, t), [true, !up],
      LengthBit(st, hd, g, cd, row, if up then t + 1 else t - 1))
  {
    var d, e, f := LengthBit(st, hd, g, cd, row, t), LengthSign(st, hd, g, cd, row, t),
      LengthBit(st, hd, g, cd, row, if up then t + 1 else t - 1);
    OneBit();
    GoesNothing(dec, d);
    ThenBit(dec, d, [], d, true, e);
    assert [] + [true] == [true];
    ThenBit(dec, d, [true], e, !up, f);
    assert [true] + [!up] == [true, !up];
  }

  /** Where the decoder is before table `t`. */
  function TableAt(st: Stream, hd: Head, cd: Coding, t: nat): Dec
    requires t <= |cd.lens|
  {
    if t < |cd.lens| then FirstLength(st, hd, |cd.lens|, Coding(cd.lens[..t], cd.selectors))
    else NextSymbol(st, hd, cd, Start(256), 0)
  }

  /** Where it is before length `i` of table `t`. */
  function LengthAt(st: Stream, hd: Head, cd: Coding, t: nat, i: nat): Dec
    requires t < |cd.lens| && cd.lens[t] != [] && i <= |cd.lens[t]|
  {
    var row := cd.lens[t];
    if i < |row| then
      LengthBit(st, hd, |cd.lens|, Coding(cd.lens[..t], cd.selectors), row[..i], if i == 0 then row[0] else row[i - 1])
    else TableAt(st, hd, cd, t + 1)
  }

  lemma LengthKept(st: Stream, hd: Head, cd: Coding, t: nat, i: nat)
    requires t < |cd.lens| && |cd.lens[t]| == |hd.unseq| + 2 && i < |cd.lens[t]| && Lengths(cd.lens[t], 1, LONGEST)
    ensures KeepLength(st, hd, |cd.lens|, Coding(cd.lens[..t], cd.selectors), cd.lens[t][..i], cd.lens[t][i])
         == LengthAt(st, hd, cd, t, i + 1)
  {
    var row := cd.lens[t];
    assert row[..i] + [row[i]] == row[..i + 1];
    if i + 1 == |row| {
      assert row[..i + 1] == row;
      assert cd.lens[..t] + [row] == cd.lens[..t + 1];
      if t + 1 == |cd.lens| { assert cd.lens[..t + 1] == cd.lens; }
    }
  }

  lemma TableStarts(dec: Machine<Dec>, st: Stream, hd: Head, cd: Coding, t: nat)
    requires IsDecoder(dec)
    requires t < |cd.lens| && cd.lens[t] != [] && Lengths(cd.lens[t], 1, LONGEST)
    ensures Goes(dec, TableAt(st, hd, cd, t), NatBits(LENGTH_WIDTH, cd.lens[t][0]), LengthAt(st, hd, cd, t, 0))
  {
    var row := cd.lens[t];
    SelectorFits(row[0]);
    assert row[..0] == [];
    Field(dec, TableAt(st, hd, cd, t), LENGTH_WIDTH, row[0], LengthAt(st, hd, cd, t, 0));
  }

  /** One length: the steps towards it, then a zero bit. */
  lemma LengthReads(dec: Machine<Dec>, st: Stream, hd: Head, cd: Coding, t: nat, i: nat)
    requires IsDecoder(dec)
    requires t < |cd.lens| && |cd.lens[t]| == |hd.unseq| + 2 && i < |cd.lens[t]| && Lengths(cd.lens[t], 1, LONGEST)
    requires cd.selectors != []
    ensures var row := cd.lens[t];
      Goes(dec, LengthAt(st, hd, cd, t, i), Delta(if i == 0 then row[0] else row[i - 1], row[i]) + [false],
        LengthAt(st, hd, cd, t, i + 1))
  {
    var row, c := cd.lens[t], Coding(cd.lens[..t], cd.selectors);
    var prev := if i == 0 then row[0] else row[i - 1];
    DeltaReads(dec, st, hd, |cd.lens|, c, row[..i], prev, row[i]);
    LengthKept(st, hd, cd, t, i);
    OneBit();
    ThenBit(dec, LengthAt(st, hd, cd, t, i), Delta(prev, row[i]), LengthBit(st, hd, |cd.lens|, c, row[..i], row[i]),
      false,
            LengthAt(st, hd, cd, t, i + 1));
  }

  lemma {:induction false} RowReads(dec: Machine<Dec>, st: Stream, hd: Head, cd: Coding, t: nat, i: nat)
    requires IsDecoder(dec)
    requires t < |cd.lens| && |cd.lens[t]| == |hd.unseq| + 2 && i <= |cd.lens[t]| && Lengths(cd.lens[t], 1, LONGEST)
    requires cd.selectors != []
    ensures Goes(dec, TableAt(st, hd, cd, t), RowUpTo(cd.lens[t], i), LengthAt(st, hd, cd, t, i))
  {
    if i == 0 {
      TableStarts(dec, st, hd, cd, t);
    } else {
      var row := cd.lens[t];
      RowReads(dec, st, hd, cd, t, i - 1);
      LengthReads(dec, st, hd, cd, t, i - 1);
      var a, b := RowUpTo(row, i - 1), Delta(if i == 1 then row[0] else row[i - 2], row[i - 1]);
      Then(dec, TableAt(st, hd, cd, t), a, LengthAt(st, hd, cd, t, i - 1), b + [false], LengthAt(st, hd, cd, t, i));
      assert a + (b + [false]) == a + b + [false];
    }
  }

  /** The tables of a coding suit the byte map. */
  ghost predicate SuitedTables(hd: Head, cd: Coding) {
    && cd.selectors != [] && cd.lens != []
    && forall t :: 0 <= t < |cd.lens| ==>
      cd.lens[t] != [] && |cd.lens[t]| == |hd.unseq| + 2 && Lengths(cd.lens[t], 1, LONGEST)
  }

  lemma {:induction false} TablesRead(dec: Machine<Dec>, st: Stream, hd: Head, cd: Coding, t: nat)
    requires IsDecoder(dec)
    requires SuitedTables(hd, cd) && t <= |cd.lens|
    ensures Goes(dec, TableAt(st, hd, cd, 0), TablesUpTo(cd.lens, t), TableAt(st, hd, cd, t))
  {
    if t == 0 {
      GoesNothing(dec, TableAt(st, hd, cd, 0));
    } else {
      TablesRead(dec, st, hd, cd, t - 1);
      RowReads(dec, st, hd, cd, t - 1, |cd.lens[t - 1]|);
      Then(dec, TableAt(st, hd, cd, 0), TablesUpTo(cd.lens, t - 1), TableAt(st, hd, cd, t - 1),
           RowUpTo(cd.lens[t - 1], |cd.lens[t - 1]|), TableAt(st, hd, cd, t));
    }
  }

  /** Selectors and tables, from the number of groups to the first symbol. */
  lemma CodingReads(dec: Machine<Dec>, st: Stream, hd: Head, cd: Coding)
    requires IsDecoder(dec)
    requires SuitedTables(hd, cd) && 2 <= |cd.lens| <= 6 && 1 <= |cd.selectors| <= MAX_SELECTORS
    requires forall i :: 0 <= i < |cd.selectors| ==> cd.selectors[i] in Identity(|cd.lens|)
    ensures Goes(dec, NumGroups(st, hd), CodingBits(cd), Symbol(st, hd, cd, Start(256), 0))
  {
    var g, n, mtfs := |cd.lens|, |cd.selectors|, SelectorMtf(Identity(|cd.lens|), cd.selectors);
    var d := NumGroups(st, hd);
    GroupsCounted(dec, st, hd, g, n);
    SelectorsRead(dec, st, hd, g, mtfs, n);
    Then(dec, d, NatBits(GROUPS_WIDTH, g) + NatBits(SELECTORS_WIDTH, n), Selector(st, hd, g, n, [], 0),
      SelectorsUpTo(mtfs, n), SelectorAt(st, hd, g, mtfs, n));
    SelectorsUndone(Identity(g), cd.selectors);
    assert cd.lens[..0] == [];
    assert SelectorAt(st, hd, g, mtfs, n) == TableAt(st, hd, cd, 0);
    TablesRead(dec, st, hd, cd, g);
    Then(dec, d, NatBits(GROUPS_WIDTH, g) + NatBits(SELECTORS_WIDTH, n) + SelectorsUpTo(mtfs, n),
      TableAt(st, hd, cd, 0), TablesUpTo(cd.lens, g), TableAt(st, hd, cd, g));
  }

  lemma GroupsCounted(dec: Machine<Dec>, st: Stream, hd: Head, g: nat, n: nat)
    requires IsDecoder(dec)
    requires 2 <= g <= 6 && 1 <= n < 0x8000
    ensures Goes(dec, NumGroups(st, hd), NatBits(GROUPS_WIDTH, g) + NatBits(SELECTORS_WIDTH, n),
      Selector(st, hd, g, n, [], 0))
  {
    SelectorFits(g);
    SelectorFits(n);
    Field(dec, NumGroups(st, hd), GROUPS_WIDTH, g, NumSelectors(st, hd, g));
    ThenField(dec, NumGroups(st, hd), NatBits(GROUPS_WIDTH, g), NumSelectors(st, hd, g), SELECTORS_WIDTH, n,
      Selector(st, hd, g, n, [], 0));
  }
}
