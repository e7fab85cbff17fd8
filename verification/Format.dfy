/** The compressed stream as bits, in the order in which the compressor writes them. */
module Format {
  import opened Bits
  import opened Crc
  import opened Mtf
  import opened HuffmanCodes
  import opened Decoder

  /** The width of a character. */
  const CHAR_WIDTH := 8

  /** `bsPutUChar` */
  function Char(c: nat): bits {
    NatBits(CHAR_WIDTH, c)
  }

  /** `bsPutUInt32` */
  function WordBits(u: word): bits {
    Char(u / 0x100_0000) + Char(u / 0x1_0000 % 256) + Char(u / 256 % 256) + Char(u % 256)
  }

  /** Bytes through `bsPutUChar`. */
  function CharsUpTo(s: seq<nat>, i: nat): bits
    requires i <= |s|
  {
    if i == 0 then [] else CharsUpTo(s, i - 1) + Char(s[i - 1])
  }

  function Chars(s: seq<nat>): bits {
    CharsUpTo(s, |s|)
  }

  // The magic numbers as functions, so that their bits are not worked out wherever they are mentioned.

  function HeaderMagic(): (cs: seq<nat>)
    ensures |cs| == 3
  {
    HEADER
  }

  function BlockStart(): (cs: seq<nat>)
    ensures |cs| == 6
  {
    BLOCK_MAGIC
  }

  function StreamEnd(): (cs: seq<nat>)
    ensures |cs| == 6
  {
    END_MAGIC
  }

  function HeaderBits(level: nat): bits {
    Chars(HeaderMagic()) + Char(HDR_0 + level)
  }

  // Widths of the other fields.

  const ORIG_WIDTH := 24

  const GROUPS_WIDTH := 3

  const SELECTORS_WIDTH := 15

  const LENGTH_WIDTH := 5

  /** Whether any byte of group `i` of sixteen is in use. */
  predicate GroupUsed(inUse: seq<bool>, i: nat)
    requires 16 * i + 16 <= |inUse|
  {
    exists j :: 16 * i <= j < 16 * i + 16 && inUse[j]
  }

  function Used16Of(inUse: seq<bool>): (u: seq<bool>)
    requires |inUse| == 256
    ensures |u| == 16 && forall i :: 0 <= i < 16 ==> u[i] == GroupUsed(inUse, i)
  {
    seq(16, i requires 0 <= i < 16 => GroupUsed(inUse, i))
  }

  /** The bits of the used groups below `i`. */
  function GroupsUpTo(inUse: seq<bool>, i: nat): bits
    requires |inUse| == 256 && i <= 16
  {
    if i == 0 then []
    else GroupsUpTo(inUse, i - 1) + (if GroupUsed(inUse, i - 1) then inUse[16 * (i - 1)..16 * i] else [])
  }

  function MapBits(inUse: seq<bool>): bits
    requires |inUse| == 256
  {
    Used16Of(inUse) + GroupsUpTo(inUse, 16)
  }

  function Ones(n: nat): (b: bits)
    ensures |b| == n && forall i :: 0 <= i < n ==> b[i]
  {
    seq(n, i => true)
  }

  /** The selectors in unary. */
  function SelectorsUpTo(mtfs: seq<nat>, i: nat): bits
    requires i <= |mtfs|
  {
    if i == 0 then [] else SelectorsUpTo(mtfs, i - 1) + Ones(mtfs[i - 1]) + [false]
  }

  /** The move-to-front positions of the selectors. */
  function SelectorMtf(pos: seq<nat>, sels: seq<nat>): (mtfs: seq<nat>)
    requires forall i :: 0 <= i < |sels| ==> sels[i] in pos
    ensures |mtfs| == |sels| && forall i :: 0 <= i < |mtfs| ==> mtfs[i] < |pos|
    decreases |sels|
  {
    if sels == [] then []
    else
      var j := Position(pos, sels[0]);
      assert forall i :: 0 <= i < |sels[1..]| ==> sels[1..][i] in Front(pos, j) by {
        forall i | 0 <= i < |sels[1..]| ensures sels[1..][i] in Front(pos, j) {
          assert sels[1..][i] == sels[i + 1];
          FrontMembers(pos, j, sels[i + 1]);
        }
      }
      [j] + SelectorMtf(Front(pos, j), sels[1..])
  }

  /** Steps of the current code length towards the one wanted. */
  function Delta(curr: nat, target: nat): bits
    decreases if curr < target then target - curr else curr - target
  {
    if curr == target then []
    else if curr < target then Delta(curr, target - 1) + [true, false]
    else Delta(curr, target + 1) + [true, true]
  }

  function RowUpTo(row: seq<nat>, i: nat): bits
    requires i <= |row| && row != []
  {
    if i == 0 then NatBits(LENGTH_WIDTH, row[0])
    else RowUpTo(row, i - 1) + Delta(if i == 1 then row[0] else row[i - 2], row[i - 1]) + [false]
  }

  function TablesUpTo(lens: seq<seq<nat>>, t: nat): bits
    requires t <= |lens| && forall x :: 0 <= x < |lens| ==> lens[x] != []
  {
    if t == 0 then [] else TablesUpTo(lens, t - 1) + RowUpTo(lens[t - 1], |lens[t - 1]|)
  }

  /** The coding tables chosen for a block, and for each fifty symbols which one. */
  ghost predicate GoodCoding(cd: Coding, alphaSize: nat, nMTF: nat) {
    && 2 <= |cd.lens| <= 6 && 1 <= |cd.selectors| <= MAX_SELECTORS && nMTF <= GROUP_SIZE * |cd.selectors|
    && (forall t :: 0 <= t < |cd.lens| ==> GoodTable(cd.lens[t], alphaSize))
    && (forall i :: 0 <= i < |cd.selectors| ==> cd.selectors[i] < |cd.lens|)
  }

  ghost predicate GoodTable(lens: seq<nat>, alphaSize: nat) {
    |lens| == alphaSize > 0 && Lengths(lens, 1, LONGEST) && Fits(lens, MaxOf(lens))
  }

  function CodeBits(lens: seq<nat>, s: nat): bits
    requires s < |lens|
  {
    NatBits(lens[s], Code(lens, s))
  }

  /** The bits of symbol number `k`. */
  function SymbolBits(cd: Coding, k: nat, s: nat): bits {
    if s < |TableOf(cd, k)| then CodeBits(TableOf(cd, k), s) else []
  }

  /** What each symbol is written as. */
  function Pieces(cd: Coding, syms: seq<nat>): (ps: seq<bits>)
    ensures |ps| == |syms| && forall k {:trigger ps[k]} :: 0 <= k < |syms| ==> ps[k] == SymbolBits(cd, k, syms[k])
  {
    seq(|syms|, k requires 0 <= k < |syms| => SymbolBits(cd, k, syms[k]))
  }

  /** Pieces `lo..hi` one after another. */
  function Joined(ps: seq<bits>, lo: nat, hi: nat): bits
    requires lo <= hi <= |ps|
  {
    if hi == lo then [] else Joined(ps, lo, hi - 1) + ps[hi - 1]
  }

  /** The data of a block. */
  function DataBits(cd: Coding, syms: seq<nat>): bits {
    Joined(Pieces(cd, syms), 0, |syms|)
  }

  /** A block ready to be written. */
  datatype Block = Block(crc: word, orig: nat, inUse: seq<bool>, cd: Coding, syms: seq<nat>)

  ghost predicate Writable(b: Block) {
    && |b.inUse| == 256 && b.orig < Pow2(24) && b.syms != []
    && GoodCoding(b.cd, |SeqToUnseq(b.inUse, 256)| + 2, |b.syms|)
    && forall i :: 0 <= i < |b.syms| ==> b.syms[i] < |SeqToUnseq(b.inUse, 256)| + 2
  }

  function CodingBits(cd: Coding): bits
    requires (forall x :: 0 <= x < |cd.lens| ==> cd.lens[x] != [])
    requires forall i :: 0 <= i < |cd.selectors| ==> cd.selectors[i] in Identity(|cd.lens|)
  {
    var mtfs := SelectorMtf(Identity(|cd.lens|), cd.selectors);
    NatBits(GROUPS_WIDTH, |cd.lens|) + NatBits(SELECTORS_WIDTH, |cd.selectors|) + SelectorsUpTo(mtfs, |mtfs|)
      + TablesUpTo(cd.lens, |cd.lens|)
  }

  lemma InIdentity(sels: seq<nat>, n: nat)
    requires forall i :: 0 <= i < |sels| ==> sels[i] < n
    ensures forall i :: 0 <= i < |sels| ==> sels[i] in Identity(n)
  {
    forall i | 0 <= i < |sels| ensures sels[i] in Identity(n) { assert Identity(n)[sels[i]] == sels[i]; }
  }

  /** Everything of a block before its data. */
  function BlockHeadBits(b: Block): bits
    requires Writable(b)
  {
    InIdentity(b.cd.selectors, |b.cd.lens|);
    Chars(BlockStart()) + WordBits(b.crc) + [false] + NatBits(ORIG_WIDTH, b.orig) + MapBits(b.inUse) + CodingBits(b.cd)
  }

  function BlockBits(b: Block): bits
    requires Writable(b)
  {
    BlockHeadBits(b) + DataBits(b.cd, b.syms)
  }

  function TrailerBits(combined: word): bits {
    Chars(StreamEnd()) + WordBits(combined)
  }
}
