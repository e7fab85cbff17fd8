/** `BZ2_decompress` up to the data of a block, and after the last block: one method for every kind of label. */
module BlockHead {
  import opened Bits
  import opened Crc
  import opened Mtf
  import opened HuffmanCodes
  import opened Decoder
  import opened BlockTables
  import opened BlockReader
  import RunLength
  import TableReads

  /** `s->state`; the numbered labels of one kind share a constructor. TABLES is passed on the way to BZ_X_MTF_1. */
  datatype Label =
    | MAGIC(i: nat) | BLKHDR(i: nat) | BCRC(i: nat) | RANDBIT | ORIGPTR(i: nat)
    | MAPPING_1 | MAPPING_2 | SELECTOR_1 | SELECTOR_2 | SELECTOR_3 | CODING_1 | CODING_2 | CODING_3 | TABLES
    | ENDHDR(i: nat) | CCRC(i: nat) | IDLE | ERROR | RANDOMISED | OVERRUN

  /** Where the second level of the map goes on. */
  lemma NextInUseIs(st: Stream, hd: Head, used16: seq<bool>, q: seq<bool>)
    requires |used16| == 16 && |q| <= 256
    ensures |q| < 256 && (|q| % 16 != 0 || used16[|q| / 16]) ==>
      NextInUse(st, hd, used16, q) == InUse(st, hd, used16, q)
    ensures |q| == 256 && SeqToUnseq(q, 256) == [] ==> NextInUse(st, hd, used16, q) == Failed
    ensures |q| == 256 && SeqToUnseq(q, 256) != [] ==>
      NextInUse(st, hd, used16, q) == NumGroups(st, hd.(unseq := SeqToUnseq(q, 256)))
  {
    hide SeqToUnseq;
  }

  lemma StepUsed16(st: Stream, hd: Head, u: seq<bool>, v: nat)
    ensures Step(Used16(st, hd, u), v) == if |u + [v == 1]| < 16 then Used16(st, hd, u + [v == 1])
      else NextInUse(st, hd, u + [v == 1], [])
  {
    hide NextInUse;
  }

  lemma StepInUse(st: Stream, hd: Head, u: seq<bool>, p: seq<bool>, v: nat)
    ensures Step(InUse(st, hd, u, p), v) == NextInUse(st, hd, u, p + [v == 1])
  {
    hide NextInUse;
  }

  /** Where a complete selector leads. */
  function KeptSelector(st: Stream, hd: Head, nGroups: nat, n: nat, m: seq<nat>): Dec {
    if |m| < n then Selector(st, hd, nGroups, n, m, 0)
    else FirstLength(st, hd, nGroups, Coding([], UndoSelectors(Identity(nGroups), m)))
  }

  lemma StepSelector(st: Stream, hd: Head, nGroups: nat, n: nat, mtfs: seq<nat>, j: nat, v: nat)
    ensures v == 1 ==> Step(Selector(st, hd, nGroups, n, mtfs, j), v)
                       == if j + 1 >= nGroups then Failed else Selector(st, hd, nGroups, n, mtfs, j + 1)
    ensures v != 1 ==> Step(Selector(st, hd, nGroups, n, mtfs, j), v)
                       == if |mtfs| >= MAX_SELECTORS then Overrun else KeptSelector(st, hd, nGroups, n, mtfs + [j])
  {
    hide UndoSelectors;
  }

  ghost predicate InRange(row: seq<nat>) {
    forall x {:trigger row[x]} :: 0 <= x < |row| ==> 1 <= row[x] <= LONGEST
  }

  ghost predicate AllInRange(rows: seq<seq<nat>>) {
    forall x {:trigger rows[x]} :: 0 <= x < |rows| ==> InRange(rows[x])
  }

  lemma StepLengthBit(st: Stream, hd: Head, nGroups: nat, cd: Coding, row: seq<nat>, curr: nat, v: nat)
    ensures Step(LengthBit(st, hd, nGroups, cd, row, curr), v) ==
      if v == 1 then LengthSign(st, hd, nGroups, cd, row, curr) else KeepLength(st, hd, nGroups, cd, row, curr)
  {
    hide KeepLength;
  }

  lemma KeepLengthIs(st: Stream, hd: Head, nGroups: nat, cd: Coding, row: seq<nat>, curr: nat)
    requires 1 <= curr <= LONGEST && cd.selectors != []
    ensures var r, rows := row + [curr], cd.lens + [row + [curr]];
      KeepLength(st, hd, nGroups, cd, row, curr) ==
        if |r| < |hd.unseq| + 2 then LengthBit(st, hd, nGroups, cd, r, curr)
        else if |rows| < nGroups then FirstLength(st, hd, nGroups, cd.(lens := rows))
        else Symbol(st, hd, cd.(lens := rows), Start(256), 0)
  {
  }

  lemma StepSign(st: Stream, hd: Head, nGroups: nat, cd: Coding, row: seq<nat>, curr: nat, v: nat)
    ensures var c := if v == 0 then curr + 1 else curr - 1;
      Step(LengthSign(st, hd, nGroups, cd, row, curr), v) ==
      if 1 <= c <= LONGEST then LengthBit(st, hd, nGroups, cd, row, c) else Failed
  {
    hide KeepLength;
  }

  lemma StepOrigPtr(st: Stream, crc: word, i: nat, orig: nat, v: nat)
    ensures var o := orig * 256 + v;
      Step(OrigPtr(st, crc, i, orig), v) ==
      if i < 2 then OrigPtr(st, crc, i + 1, o)
      else if o > 10 + 100000 * st.level then Failed
      else Used16(st, Head(crc, o, []), [])
  {
    hide KeepLength;
  }

  lemma StepBlockMagic(st: Stream, i: nat, v: nat)
    ensures Step(BlockMagic(st, i), v) ==
      if i == 0 && v == END_MAGIC[0] then EndMagic(st, 1)
      else if i >= 6 || v != BLOCK_MAGIC[i] then Failed
      else if i < 5 then BlockMagic(st, i + 1) else BlockCrc(st, 0, 0)
    ensures Step(EndMagic(st, i), v) ==
      if i >= 6 || v != END_MAGIC[i] then Failed else if i < 5 then EndMagic(st, i + 1) else StreamCrc(st, 0, 0)
  {
    hide KeepLength;
  }

  class HeadReader {
    const small: bool
    const used: ByteMap
    const sel: Selectors
    const lengths: Lengths
    ghost const repr: set<object>
    var state: Label
    var blockSize100k: nat
    var combined: word         // calculatedCombinedCRC
    var storedBlock: word      // storedBlockCRC
    var storedCombined: word   // storedCombinedCRC
    var origPtr: nat
    var nGroups: nat

    ghost predicate Apart() {
      && used in repr && used.inUse16 in repr && used.inUse in repr && used.seqToUnseq in repr
      && sel in repr && sel.selectorMtf in repr && sel.selector in repr && lengths in repr && lengths.len in repr
      && this !in repr && (used.seqToUnseq as object) != (sel.selectorMtf as object)
      && (used.seqToUnseq as object) != (sel.selector as object)
      && lengths.len != sel.selectorMtf && lengths.len != sel.selector
      && (lengths.len as object) != (used.seqToUnseq as object)
    }

    ghost predicate SelArrays() {
      sel.selectorMtf != sel.selector && sel.selectorMtf.Length == sel.selector.Length == MAX_SELECTORS
    }

    /** The byte map is made. */
    ghost predicate Mapped()
      reads this, repr
    {
      Apart() && used.Valid() && 1 <= used.nInUse && used.nInUse <= 256
    }

    /** The selectors are known. */
    ghost predicate Selected()
      reads this, repr
    {
      && Mapped() && SelArrays() && 2 <= nGroups <= 6 && 0 < sel.nSelectors <= MAX_SELECTORS
      && (forall x {:trigger sel.selector[x]} :: 0 <= x < sel.nSelectors ==> sel.selector[x] < nGroups)
      && lengths.Sized() && lengths.nGroups == nGroups && lengths.alphaSize == used.nInUse + 2
    }

    /** The lengths kept so far are in range. */
    ghost predicate Rowed()
      reads this, repr
    {
      && Selected() && lengths.t <= nGroups && lengths.i < lengths.alphaSize
      && AllInRange(lengths.Rows(lengths.t))
    }

    ghost predicate Valid()
      reads this, repr
    {
      && Apart() && SelArrays() && lengths.len.Length == 6 * ROW && used.Valid()
      && (!state.MAGIC? && !state.ERROR? ==> 1 <= blockSize100k <= 9)
      && match state
         case MAGIC(_) => combined == 0
         case MAPPING_1 => used.i < 16
         case MAPPING_2 => used.i < 16 && used.j < 16 && used.Filled(used.inUse[..16 * used.i + used.j])
         case SELECTOR_1 => Mapped()
         case SELECTOR_2 => Mapped() && 2 <= nGroups <= 6
         case SELECTOR_3 => Mapped() && 2 <= nGroups <= 6 && sel.Valid() && sel.nGroups == nGroups
         case CODING_1 => Rowed() && lengths.t < nGroups && lengths.i == 0
         case CODING_2 => Rowed() && lengths.t < nGroups && 1 <= lengths.curr <= LONGEST
           && InRange(lengths.Row(lengths.t, lengths.i))
         case CODING_3 => Rowed() && lengths.t < nGroups && 1 <= lengths.curr <= LONGEST
           && InRange(lengths.Row(lengths.t, lengths.i))
         case TABLES => Rowed() && lengths.t == nGroups
         case _ => true
    }

    function St(): Stream
      reads this
    {
      Stream(small, blockSize100k, combined)
    }

    /** What is known of the block, without and with the byte used. */
    function Hd(mapped: bool): Head
      reads this, used, used.seqToUnseq
    {
      Head(storedBlock, origPtr, if mapped && used.nInUse <= used.seqToUnseq.Length then used.seqToUnseq[..used.nInUse]
        else [])
    }

    ghost function Cd(): Coding
      reads this, repr
      requires Valid() && Rowed()
    {
      Coding(lengths.Rows(lengths.t), sel.selector[..sel.nSelectors])
    }

    /** The state of the decoder on values. */
    ghost function Now(): Dec
      reads this, repr
      requires Valid()
    {
      match state
      case MAGIC(i) => Magic(small, i)
      case BLKHDR(i) => BlockMagic(St(), i)
      case BCRC(i) => BlockCrc(St(), i, storedBlock)
      case RANDBIT => RandBit(St(), storedBlock)
      case ORIGPTR(i) => OrigPtr(St(), storedBlock, i, origPtr)
      case MAPPING_1 => Used16(St(), Hd(false), used.inUse16[..used.i])
      case MAPPING_2 => InUse(St(), Hd(false), used.inUse16[..], used.inUse[..16 * used.i + used.j])
      case SELECTOR_1 => NumGroups(St(), Hd(true))
      case SELECTOR_2 => NumSelectors(St(), Hd(true), nGroups)
      case SELECTOR_3 => Selector(St(), Hd(true), nGroups, sel.nSelectors, sel.selectorMtf[..sel.i], sel.j)
      case CODING_1 => FirstLength(St(), Hd(true), nGroups, Cd())
      case CODING_2 => LengthBit(St(), Hd(true), nGroups, Cd(), lengths.Row(lengths.t, lengths.i), lengths.curr)
      case CODING_3 => LengthSign(St(), Hd(true), nGroups, Cd(), lengths.Row(lengths.t, lengths.i), lengths.curr)
      case TABLES => Symbol(St(), Hd(true), Cd(), Start(256), 0)
      case ENDHDR(i) => EndMagic(St(), i)
      case CCRC(i) => StreamCrc(St(), i, storedCombined)
      case IDLE => Done
      case ERROR => Failed
      case RANDOMISED => Randomised
      case OVERRUN => Overrun
    }

    /** `BZ2_bzDecompressInit` */
    constructor (small: bool)
      ensures Valid() && Now() == Magic(small, 0) && fresh(repr) && this.small == small
    {
      var m := new ByteMap();
      var s := new Selectors();
      var l := new Lengths();
      this.small, used, sel, lengths := small, m, s, l;
      repr := {m as object, m.inUse16, m.inUse, m.seqToUnseq, s, s.selectorMtf, s.selector, l, l.len};
      state, blockSize100k, combined, storedBlock, storedCombined, origPtr, nGroups := MAGIC(0), 0, 0, 0, 0, 0, 0;
    }

    /** BZ_X_MAGIC_1 to 4 */
    method TakeMagic(v: nat)
      requires Valid() && state.MAGIC?
      modifies this
      ensures Valid() && Now() == Step(old(Now()), v)
    {
      hide NextInUse, KeepLength, ProbeSymbol;
      var i := state.i;
      if i < 3 {
        state := if v == HEADER[i] then MAGIC(i + 1) else ERROR;
      } else if HDR_0 + 1 <= v <= HDR_0 + 9 {
        blockSize100k, state := v - HDR_0, BLKHDR(0);
      } else {
        state := ERROR;
      }
    }

    /** BZ_X_BLKHDR_1 to 6 */
    method TakeBlockHeader(v: nat)
      requires Valid() && state.BLKHDR?
      modifies this
      ensures Valid() && Now() == Step(old(Now()), v)
    {
      hide Step, KeepLength;
      StepBlockMagic(St(), state.i, v);
      var i := state.i;
      if i == 0 && v == END_MAGIC[0] {
        state := ENDHDR(1);
      } else if i >= 6 || v != BLOCK_MAGIC[i] {
        state := ERROR;
      } else if i < 5 {
        state := BLKHDR(i + 1);
      } else {
        storedBlock, state := 0, BCRC(0);
      }
    }

    /** BZ_X_BCRC_1 to 4 */
    method TakeBlockCrc(v: nat)
      requires Valid() && state.BCRC?
      modifies this
      ensures Valid() && Now() == Step(old(Now()), v)
    {
      hide NextInUse, KeepLength, ProbeSymbol;
      storedBlock := Append8(storedBlock, v);
      state := if state.i < 3 then BCRC(state.i + 1) else RANDBIT;
    }

    /** BZ_X_RANDBIT; blocks randomised by old compressors are not modelled further */
    method TakeRandBit(v: nat)
      requires Valid() && state.RANDBIT?
      modifies this
      ensures Valid() && Now() == Step(old(Now()), v)
    {
      hide NextInUse, KeepLength, ProbeSymbol;
      origPtr := 0;
      state := if v == 0 then ORIGPTR(0) else RANDOMISED;
    }

    /** BZ_X_ORIGPTR_1 to 3 */
    method TakeOrigPtr(v: nat)
      requires Valid() && state.ORIGPTR?
      modifies this, used
      ensures Valid() && Now() == Step(old(Now()), v)
    {
      hide Step, KeepLength;
      StepOrigPtr(St(), storedBlock, state.i, origPtr, v);
      origPtr := origPtr * 256 + v;
      if state.i < 2 {
        state := ORIGPTR(state.i + 1);
      } else if origPtr > 10 + 100000 * blockSize100k {
        state := ERROR;
      } else {
        used.i, state := 0, MAPPING_1;
      }
    }

    /** BZ_X_ENDHDR_2 to 6 */
    method TakeEndHeader(v: nat)
      requires Valid() && state.ENDHDR?
      modifies this
      ensures Valid() && Now() == Step(old(Now()), v)
    {
      hide Step, KeepLength;
      StepBlockMagic(St(), state.i, v);
      var i := state.i;
      if i >= 6 || v != END_MAGIC[i] {
        state := ERROR;
      } else if i < 5 {
        state := ENDHDR(i + 1);
      } else {
        storedCombined, state := 0, CCRC(0);
      }
    }

    /** BZ_X_CCRC_1 to 4, and the comparison in `BZ2_bzDecompress` */
    method TakeStreamCrc(v: nat)
      requires Valid() && state.CCRC?
      modifies this
      ensures Valid() && Now() == Step(old(Now()), v)
    {
      hide NextInUse, KeepLength, ProbeSymbol;
      storedCombined := Append8(storedCombined, v);
      if state.i < 3 {
        state := CCRC(state.i + 1);
      } else {
        state := if storedCombined == combined then IDLE else ERROR;
      }
    }

    /** Between two groups of the byte map. */
    ghost predicate Mapping(q: seq<bool>)
      reads this, repr
    {
      && Apart() && SelArrays() && lengths.len.Length == 6 * ROW && used.Valid()
      && 1 <= blockSize100k <= 9 && used.Filled(q) && (used.i < 16 ==> used.j < 16) && (used.i == 16 ==> used.j == 0)
      && (used.i < 16 && used.j == 0 ==> used.inUse16[used.i])
    }

    /** The next bit of the map, or `makeMaps_d` after the last one. */
    method GoOn(ghost q: seq<bool>)
      requires Mapping(q)
      modifies this`state, used`nInUse, used.seqToUnseq
      ensures Valid() && Now() == NextInUse(St(), Hd(false), used.inUse16[..], q)
    {
      hide SeqToUnseq, NextInUse;
      NextInUseIs(St(), Hd(false), used.inUse16[..], q);
      if used.i < 16 {
        assert |q| / 16 == used.i && |q| % 16 == used.j;
        state := MAPPING_2;
      } else {
        assert q == used.inUse[..];
        used.MakeMaps();
        state := if used.nInUse == 0 then ERROR else SELECTOR_1;
      }
    }

    /** BZ_X_MAPPING_1 */
    method TakeMapping1(v: nat)
      requires Valid() && state.MAPPING_1?
      modifies this, repr
      ensures Valid() && Now() == Step(old(Now()), v)
    {
      hide Step, NextInUse;
      StepUsed16(St(), Hd(false), used.inUse16[..used.i], v);
      used.TakeUsed16(v);
      if used.i == 16 {
        assert used.inUse16[..16] == used.inUse16[..];
        ghost var q := used.StartGroups(St(), Hd(false));
        GoOn(q);
      }
    }

    /** BZ_X_MAPPING_2 */
    method TakeMapping2(v: nat)
      requires Valid() && state.MAPPING_2?
      modifies this, repr
      ensures Valid() && Now() == Step(old(Now()), v)
    {
      hide Step, NextInUse;
      ghost var p := used.inUse[..16 * used.i + used.j];
      StepInUse(St(), Hd(false), used.inUse16[..], p, v);
      ghost var q := used.TakeInUse(v, St(), Hd(false), p);
      GoOn(q);
    }

    /** BZ_X_SELECTOR_1 */
    method TakeGroups(v: nat)
      requires Valid() && state.SELECTOR_1?
      modifies this
      ensures Valid() && Now() == Step(old(Now()), v)
    {
      hide NextInUse, KeepLength, ProbeSymbol;
      nGroups := v;
      state := if 2 <= v <= 6 then SELECTOR_2 else ERROR;
    }

    /** BZ_X_SELECTOR_2 */
    method TakeSelectors(v: nat)
      requires Valid() && state.SELECTOR_2? && v < 0x8000
      modifies this, sel
      ensures Valid() && Now() == Step(old(Now()), v)
    {
      hide NextInUse, KeepLength, ProbeSymbol;
      if v >= 1 {
        sel.Begin(nGroups, v);
        assert sel.selectorMtf[..0] == [];
      }
      state := if v >= 1 then SELECTOR_3 else ERROR;
    }

    /** All selectors are read: undo their coding and go on to the lengths. */
    method StartLengths()
      requires Apart() && SelArrays() && Mapped() && lengths.len.Length == 6 * ROW && 1 <= blockSize100k <= 9
      requires 2 <= nGroups <= 6 && sel.nGroups == nGroups && 0 < sel.nSelectors <= MAX_SELECTORS
      requires forall x {:trigger sel.selectorMtf[x]} :: 0 <= x < sel.nSelectors ==> sel.selectorMtf[x] < nGroups
      modifies this`state, sel.selector, lengths
      ensures Valid() && Now() == FirstLength(St(), Hd(true), nGroups,
        Coding([], UndoSelectors(Identity(nGroups), sel.selectorMtf[..sel.nSelectors])))
    {
      hide UndoSelectors;
      ghost var mtfs := sel.selectorMtf[..sel.nSelectors];
      sel.Undo();
      TableReads.SelectorsName(Identity(nGroups), mtfs, nGroups);
      ghost var s := sel.selector[..sel.nSelectors];
      assert forall x {:trigger s[x]} :: 0 <= x < |s| ==> s[x] == sel.selector[x];
      lengths.Begin(used.nInUse + 2, nGroups);
      state := CODING_1;
    }

    /** BZ_X_SELECTOR_3; the C code checks only that the position names a group, not that there is a cell for it */
    method TakeSelectorBit(v: nat)
      requires Valid() && state.SELECTOR_3?
      modifies this, repr
      ensures Valid() && Now() == Step(old(Now()), v)
    {
      hide Step;
      StepSelector(St(), Hd(true), nGroups, sel.nSelectors, sel.selectorMtf[..sel.i], sel.j, v);
      if v == 1 {
        var ok := sel.TakeOne();
        if !ok { state := ERROR; }
      } else if sel.i >= MAX_SELECTORS {
        state := OVERRUN;
      } else {
        KeepPosition();
      }
    }

    /** A selector is complete. */
    method KeepPosition()
      requires Valid() && state.SELECTOR_3? && sel.i < MAX_SELECTORS
      modifies this, repr
      ensures Valid() && Now() == KeptSelector(old(St()), old(Hd(true)), old(nGroups), old(sel.nSelectors),
        old(sel.selectorMtf[..sel.i] + [sel.j]))
    {
      hide UndoSelectors;
      var all := sel.TakeZero();
      if all { StartLengths(); }
    }

    /** BZ_X_CODING_1 */
    method TakeFirstLength(v: nat)
      requires Valid() && state.CODING_1?
      modifies this, lengths
      ensures Valid() && Now() == Step(old(Now()), v)
    {
      hide NextInUse, KeepLength, ProbeSymbol, Lengths.Row, Lengths.Rows;
      lengths.curr := v;
      state := if 1 <= v <= LONGEST then CODING_2 else ERROR;
    }

    /** BZ_X_CODING_3 */
    method TakeSign(v: nat)
      requires Valid() && state.CODING_3?
      modifies this, lengths
      ensures Valid() && Now() == Step(old(Now()), v)
    {
      hide Step, KeepLength, Lengths.Row, Lengths.Rows;
      StepSign(St(), Hd(true), nGroups, Cd(), lengths.Row(lengths.t, lengths.i), lengths.curr, v);
      lengths.curr := if v == 0 then lengths.curr + 1 else lengths.curr - 1;
      state := if 1 <= lengths.curr <= LONGEST then CODING_2 else ERROR;
    }

    /** The length is known. */
    method KeepOne()
      requires Valid() && state.CODING_2?
      modifies this, lengths, lengths.len
      ensures Valid() && Now() == KeepLength(old(St()), old(Hd(true)), old(nGroups), old(Cd()),
        old(lengths.Row(lengths.t, lengths.i)), old(lengths.curr))
    {
      hide KeepLength, Lengths.Row, Lengths.Rows;
      KeepLengthIs(St(), Hd(true), nGroups, Cd(), lengths.Row(lengths.t, lengths.i), lengths.curr);
      var row := lengths.Keep();
      if row { state := if lengths.t < nGroups then CODING_1 else TABLES; }
    }

    /** BZ_X_CODING_2 */
    method TakeLengthBit(v: nat)
      requires Valid() && state.CODING_2?
      modifies this, lengths, lengths.len
      ensures Valid() && Now() == Step(old(Now()), v)
    {
      hide Step, KeepLength, Lengths.Row, Lengths.Rows;
      StepLengthBit(St(), Hd(true), nGroups, Cd(), lengths.Row(lengths.t, lengths.i), lengths.curr, v);
      if v == 1 { state := CODING_3; } else { KeepOne(); }
    }

    /** What the next `GET_BITS` asks for. */
    method Width() returns (n: nat)
      requires Valid() && !state.TABLES?
      ensures n == Need(Now()) && (n > 0 <==> Reads()) && (state.SELECTOR_2? ==> n == 15)
    {
      n := 1;
      match state {
        case MAGIC(_) => n := 8;
        case BLKHDR(_) => n := 8;
        case BCRC(_) => n := 8;
        case ORIGPTR(_) => n := 8;
        case ENDHDR(_) => n := 8;
        case CCRC(_) => n := 8;
        case SELECTOR_1 => n := 3;
        case SELECTOR_2 => n := 15;
        case CODING_1 => n := 5;
        case IDLE => n := 0;
        case ERROR => n := 0;
        case RANDOMISED => n := 0;
        case OVERRUN => n := 0;
        case _ =>
      }
    }

    predicate Reads()
      reads this
    {
      !state.TABLES? && !state.IDLE? && !state.ERROR? && !state.RANDOMISED? && !state.OVERRUN?
    }

    /** One `GET_BITS` and what follows up to the next. */
    method Take(v: nat)
      requires Valid() && Reads() && (state.SELECTOR_2? ==> v < 0x8000)
      modifies this, repr
      ensures Valid() && Now() == Step(old(Now()), v)
    {
      hide Step;
      match state {
        case MAGIC(_) => TakeMagic(v);
        case BLKHDR(_) => TakeBlockHeader(v);
        case BCRC(_) => TakeBlockCrc(v);
        case RANDBIT => TakeRandBit(v);
        case ORIGPTR(_) => TakeOrigPtr(v);
        case MAPPING_1 => TakeMapping1(v);
        case MAPPING_2 => TakeMapping2(v);
        case SELECTOR_1 => TakeGroups(v);
        case SELECTOR_2 => TakeSelectors(v);
        case SELECTOR_3 => TakeSelectorBit(v);
        case CODING_1 => TakeFirstLength(v);
        case CODING_2 => TakeLengthBit(v);
        case CODING_3 => TakeSign(v);
        case ENDHDR(_) => TakeEndHeader(v);
        case CCRC(_) => TakeStreamCrc(v);
      }
    }

    /** The end of a block: checksums, then the next block or a corrupt stream. */
    method NextBlock(crc: word, ghost pending: RunLength.Expanded)
      requires Valid() && state.TABLES?
      modifies this
      ensures Valid() && !state.TABLES? && Now() == FinishBlock(Emitting(old(St()), old(storedBlock), pending, crc))
    {
      if Finalise(crc) != storedBlock {
        state := ERROR;
      } else {
        combined := Combine(combined, storedBlock);
        state := BLKHDR(0);
      }
    }

    /** A corrupt block. */
    method Fail()
      requires Valid()
      modifies this
      ensures Valid() && !state.TABLES? && Now() == Failed
    {
      state := ERROR;
    }

    /** The lengths and selectors as values. */
    method Coded() returns (cd: Coding)
      requires Valid() && state.TABLES?
      ensures Now() == Symbol(St(), Hd(true), cd, Start(256), 0) && Suited(St(), Hd(true), cd)
    {
      var lens: seq<seq<nat>> := [];
      for t := 0 to nGroups
        invariant lens == lengths.Rows(t)
      {
        var row := [];
        for i := 0 to lengths.alphaSize
          invariant row == lengths.Row(t, i)
        {
          var n := lengths.At(t, i);
          row := row + [n];
        }
        lens := lens + [row];
      }
      cd := Coding(lens, sel.selector[..sel.nSelectors]);
    }
  }
}
