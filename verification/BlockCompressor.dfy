/** The compressor as a whole: blocks sorted, coded and written, and the driver that feeds it. */
module BlockCompressor {
  import opened Bits
  import opened Counting
  import opened Crc
  import opened Rotations
  import opened InverseBwt
  import opened RunLength
  import opened FallbackSort
  import opened Mtf
  import opened MtfEncoder
  import opened CodingTables
  import opened Collecting
  import opened BlockInput
  import opened Decoder
  import opened Format
  import opened RoundTrip

  /** `BZ2_blockSort`, with arrays as long as the block. */
  method SortBlock(arr2: array<nat>, nblock: nat) returns (eclass: array<nat>, ptr: array<nat>, origPtr: nat)
    requires 0 < nblock <= arr2.Length && nblock < Pow2(31)
    ensures fresh(eclass) && fresh(ptr) && eclass.Length == nblock == ptr.Length
    ensures Eclass8(eclass[..], nblock) == Eclass8(arr2[..], nblock)
    ensures SortsRotations(Eclass8(arr2[..], nblock), ptr[..]) && IsPerm(ptr[..], nblock) && origPtr < nblock
      && ptr[origPtr] == 0
  {
    hide Pow2;
    eclass := new nat[nblock](i requires 0 <= i < nblock reads arr2 requires nblock <= arr2.Length => arr2[i]);
    ptr := new nat[nblock](i => 0);
    var bhtab := new bool[BhBits(nblock)](i => false);
    ghost var b := Eclass8(arr2[..], nblock);
    assert Eclass8(eclass[..], nblock) == b;
    FallbackSort.FallbackSort(ptr, eclass, bhtab);
    origPtr := FindOrigPtr(ptr);
  }

  /** `arr1` seen as halfwords: what `ptr` holds becomes what `mtfv` will overwrite. */
  method Halfwords(ptr: array<nat>) returns (h: array<nat>)
    ensures fresh(h) && h.Length == 2 * ptr.Length && Points(h[..], ptr[..])
  {
    ghost var p := ptr[..];
    h := new nat[2 * ptr.Length](i => 0);
    for i := 0 to ptr.Length
      invariant ptr[..] == p
      invariant forall x {:trigger p[x]} :: 0 <= x < i ==>
        h[2 * x] == p[x] % 0x1_0000 && h[2 * x + 1] == p[x] / 0x1_0000
    {
      h[2 * i] := ptr[i] % 0x1_0000;
      h[2 * i + 1] := ptr[i] / 0x1_0000;
    }
    ghost var s := h[..];
    forall x | 0 <= x < |p| ensures Pointer(s, x) == p[x] {
      assert s[2 * x] == p[x] % 0x1_0000 && s[2 * x + 1] == p[x] / 0x1_0000;
    }
  }

  /** The bytes marked in use cover the last column. */
  lemma MarksCover(inUse: seq<bool>, b: seq<byte>, p: seq<int>)
    requires Marks(inUse, b) && InRange(p, |b|)
    ensures Covers(inUse, LastColumn(b, p))
  {
    var l := LastColumn(b, p);
    forall i | 0 <= i < |l| ensures 0 <= l[i] < 256 && inUse[l[i]] {
      assert l[i] in b;
    }
  }

  lemma {:induction false} FreqTotal(freq: seq<nat>, syms: seq<nat>, n: nat)
    requires Counted(freq, syms) && n <= 258
    ensures RowSum(freq, n) == Below(syms, n)
  {
    if n == 0 { BelowBounds(syms, 0, MaxPlus(syms)); } else {
      FreqTotal(freq, syms, n - 1);
      BelowStep(syms, n - 1);
    }
  }

  function MaxPlus(s: seq<nat>): (m: nat)
    ensures forall i :: 0 <= i < |s| ==> s[i] < m
  {
    if s == [] then 0 else var m := MaxPlus(s[..|s| - 1]); if s[|s| - 1] < m then m else s[|s| - 1] + 1
  }

  /** Every symbol is below the alphabet's size. */
  lemma SymbolsBelow(v: seq<nat>, nInUse: nat)
    requires Indices(v, nInUse)
    ensures Indices(Symbols(v, nInUse), nInUse + 2)
  {
    var syms := Symbols(v, nInUse);
    forall i | 0 <= i < |syms| ensures syms[i] < nInUse + 2 {
      if i < |syms| - 1 { assert syms[i] == syms[..|syms| - 1][i]; }
    }
  }

  /** What generating and coding the symbols of a sorted block gives. */
  ghost predicate SymbolsMade(syms: seq<nat>, cd: Coding, inUse: seq<bool>, l: seq<int>) {
    && Covers(inUse, l) && syms == Symbols(Ranks(inUse, l), UsedCount(inUse)) && Indices(syms, UsedCount(inUse) + 2)
    && GoodCoding(cd, UsedCount(inUse) + 2, |syms|) && |cd.selectors| == (|syms| + 49) / 50
    && |cd.lens| == Groups(|syms|)
  }

  /** `generateMTFValues` and `sendMTFValues_compute` */
  method CodeSymbols(eclass: array<nat>, ptr: array<nat>, inUse: seq<bool>, nblock: nat)
    returns (syms: seq<nat>, cd: Coding)
    requires 0 < nblock == eclass.Length == ptr.Length <= 900000 && IsPerm(ptr[..], nblock)
    requires Marks(inUse, Eclass8(eclass[..], nblock))
    ensures SymbolsMade(syms, cd, inUse, LastColumn(Eclass8(eclass[..], nblock), ptr[..]))
  {
    ghost var b, p := Eclass8(eclass[..], nblock), ptr[..];
    ghost var l := LastColumn(b, p);
    MarksCover(inUse, b, p);
    ghost var v := Ranks(inUse, l);
    var h := Halfwords(ptr);
    var nMTF, nInUse, mtfFreq := GenerateMTFValues(h, eclass, inUse, nblock, p, v);
    syms := h[..nMTF];
    SymbolsBelow(v, nInUse);
    UsedFew(inUse, 256);
    FreqTotal(mtfFreq[..], syms, nInUse + 2);
    BelowBounds(syms, 0, nInUse + 2);
    ghost var rounds, starts;
    cd, rounds, starts := ComputeTables(h, nMTF, mtfFreq, nInUse + 2, syms);
  }

  lemma {:induction false} UsedFew(inUse: seq<bool>, n: nat)
    requires n <= |inUse|
    ensures Rank(inUse, n) <= n
  {
    if n > 0 { UsedFew(inUse, n - 1); }
  }

  lemma PartsWritable(b: Block, l: seq<int>)
    requires SymbolsMade(b.syms, b.cd, b.inUse, l) && b.orig < 900000 && |b.inUse| == 256
    ensures Writable(b)
  {
    SeqToUnseqCount(b.inUse, 256);
    Pow2Consts();
  }

  lemma PartsCompress(m: Made, level: nat)
    requires GoodRuns(m.runs) && m.runs != [] && Flatten(m.runs) != [] && |Flatten(m.runs)| <= 100000 * level
    requires Marks(m.b.inUse, Flatten(m.runs)) && SortsRotations(Flatten(m.runs), m.p) && m.b.orig < |m.p|
      && m.p[m.b.orig] == 0
    requires SymbolsMade(m.b.syms, m.b.cd, m.b.inUse, LastColumn(Flatten(m.runs), m.p)) && BitsStand(m)
    requires m.data == Unrolled(m.runs) && m.b.crc == Crc.BlockCrc(m.data)
    ensures WellMade(m, level)
  {
    assert OrderSorts(m);
    assert SymbolsStand(m);
    CompressesIs(m, level);
  }

  /** The parts of a compressed block are well made. */
  lemma PartsWellMade(b: Block, runs: seq<Run>, p: seq<int>, level: nat) returns (m: Made)
    requires 1 <= level <= 9 && GoodRuns(runs) && runs != [] && |Flatten(runs)| <= 100000 * level
      && Marks(b.inUse, Flatten(runs))
    requires Flatten(runs) != [] && SortsRotations(Flatten(runs), p) && b.orig < |p| && p[b.orig] == 0
    requires b.crc == Crc.BlockCrc(Unrolled(runs)) && SymbolsMade(b.syms, b.cd, b.inUse, LastColumn(Flatten(runs), p))
    ensures WellMade(m, level) && m.b == b && m.runs == runs && m.data == Unrolled(runs)
  {
    PartsWritable(b, LastColumn(Flatten(runs), p));
    m := MadeOf(b, runs, p);
    PartsCompress(m, level);
  }

  ghost function MadeOf(b: Block, runs: seq<Run>, p: seq<int>): (m: Made)
    requires Writable(b)
    ensures BitsStand(m)
  {
    Made(b, runs, p, BlockBits(b), Unrolled(runs))
  }

  /** `BZ2_compressBlock_compute`, given what `nblock`, `block`, `inUse` and `blockCRC` hold. */
  method CompressBlockCompute(arr2: array<nat>, nblock: nat, inUse: seq<bool>, blockCRC: word, ghost runs: seq<Run>,
        ghost level: nat)
    returns (b: Block, ghost m: Made)
    requires 1 <= level <= 9 && 0 < nblock <= arr2.Length && nblock <= 100000 * level
    requires GoodRuns(runs) && Eclass8(arr2[..], nblock) == Flatten(runs) && Marks(inUse, Flatten(runs))
    requires blockCRC == Updates(INITIAL, Unrolled(runs))
    ensures WellMade(m, level) && m.b == b && m.runs == runs && m.data == Unrolled(runs)
      && |b.cd.selectors| == (|b.syms| + 49) / 50
  {
    hide SortsRotations, WellMade, Unrolled, SymbolsMade, IsPerm, GoodRuns, Marks;
    SmallEnough(nblock);
    var eclass, ptr, origPtr := SortBlock(arr2, nblock);
    ghost var p := ptr[..];
    var syms, cd := CodeSymbols(eclass, ptr, inUse, nblock);
    b := Block(Finalise(blockCRC), origPtr, inUse, cd, syms);
    m := PartsWellMade(b, runs, p, level);
  }

  lemma SmallEnough(n: nat)
    requires n <= 900000
    ensures n < Pow2(31)
  {
    Pow2Consts();
    Pow2Mono(24, 31);
  }
}
