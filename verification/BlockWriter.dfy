/** `sendMTFValues_save` and `BZ2_compressBlock_save`: writing a block bit by bit. */
module BlockWriter {
  import opened Bits
  import opened BitIO
  import opened Crc
  import opened Mtf
  import opened HuffmanCodes
  import opened Decoder
  import opened Format
  import opened FormatReads
  import opened TableReads

  /** `bsPutUChar` */
  method PutChar(bw: BitWriter, c: nat)
    requires bw.Valid() && c < 256
    modifies bw
    ensures bw.Valid() && bw.Stream() == old(bw.Stream()) + Char(c)
  {
    ByteFits(c);
    bw.Write(8, c);
  }

  /** `bsPutUChar` for each of `s`. */
  method PutChars(bw: BitWriter, s: seq<nat>)
    requires bw.Valid() && forall i :: 0 <= i < |s| ==> s[i] < 256
    modifies bw
    ensures bw.Valid() && bw.Stream() == old(bw.Stream()) + Chars(s)
  {
    ghost var b := bw.Stream();
    assert b + [] == b;
    for i := 0 to |s|
      invariant bw.Valid() && bw.Stream() == b + CharsUpTo(s, i)
    {
      PutChar(bw, s[i]);
      Append(b, CharsUpTo(s, i), Char(s[i]));
    }
  }

  lemma Append(b: bits, x: bits, y: bits)
    ensures b + x + y == b + (x + y)
  {
  }

  /** `bsPutUInt32` */
  method PutWord(bw: BitWriter, u: word)
    requires bw.Valid()
    modifies bw
    ensures bw.Valid() && bw.Stream() == old(bw.Stream()) + WordBits(u)
  {
    WordChars(u);
    PutChars(bw, WordBytes(u));
  }

  /** One bit. */
  method PutBit(bw: BitWriter, bit: bool)
    requires bw.Valid()
    modifies bw
    ensures bw.Valid() && bw.Stream() == old(bw.Stream()) + [bit]
  {
    OneBit();
    if bit { bw.Write(1, 1); } else { bw.Write(1, 0); }
  }

  /** The groups of sixteen byte values that have any in use. */
  method FindGroups(inUse: seq<bool>) returns (used16: seq<bool>)
    requires |inUse| == 256
    ensures used16 == Used16Of(inUse)
  {
    used16 := [];
    for i := 0 to 16
      invariant |used16| == i && forall x :: 0 <= x < i ==> used16[x] == GroupUsed(inUse, x)
    {
      var any := false;
      for j := 0 to 16
        invariant any <==> exists k :: 16 * i <= k < 16 * i + j && inUse[k]
      {
        if inUse[i * 16 + j] { any := true; }
      }
      used16 := used16 + [any];
    }
  }

  /** The mapping table. */
  lemma GroupsNext(inUse: seq<bool>, i: nat)
    requires |inUse| == 256 && i < 16
    ensures GroupsUpTo(inUse, i + 1) ==
      if Used16Of(inUse)[i] then GroupsUpTo(inUse, i) + inUse[16 * i..16 * i + 16] else GroupsUpTo(inUse, i)
  {
  }

  method PutGroupMap(bw: BitWriter, inUse: seq<bool>, i: nat, used: bool, ghost c: bits)
    requires bw.Valid() && |inUse| == 256 && i < 16 && used == GroupUsed(inUse, i)
    requires bw.Stream() == c + GroupsUpTo(inUse, i)
    modifies bw
    ensures bw.Valid() && bw.Stream() == c + GroupsUpTo(inUse, i + 1)
  {
    GroupsNext(inUse, i);
    hide GroupsUpTo, GroupUsed;
    if used {
      PutBits(bw, inUse, 16 * i, 16);
      Append(c, GroupsUpTo(inUse, i), inUse[16 * i..16 * i + 16]);
    }
  }

  method PutMap(bw: BitWriter, inUse: seq<bool>)
    requires bw.Valid() && |inUse| == 256
    modifies bw
    ensures bw.Valid() && bw.Stream() == old(bw.Stream()) + MapBits(inUse)
  {
    assert GroupsUpTo(inUse, 0) == [];
    hide GroupsUpTo, GroupUsed;
    ghost var b := bw.Stream();
    var used16 := FindGroups(inUse);
    PutBits(bw, used16, 0, 16);
    assert used16[0..16] == used16;
    ghost var c := bw.Stream();
    assert c + [] == c;
    for i := 0 to 16
      invariant bw.Valid() && bw.Stream() == c + GroupsUpTo(inUse, i)
    {
      PutGroupMap(bw, inUse, i, used16[i], c);
    }
    Append(b, Used16Of(inUse), GroupsUpTo(inUse, 16));
  }

  /** `n` bits from `lo`, one at a time. */
  method PutBits(bw: BitWriter, s: seq<bool>, lo: nat, n: nat)
    requires bw.Valid() && lo + n <= |s|
    modifies bw
    ensures bw.Valid() && bw.Stream() == old(bw.Stream()) + s[lo..lo + n]
  {
    ghost var b := bw.Stream();
    assert b + s[lo..lo] == b;
    for j := 0 to n
      invariant bw.Valid() && bw.Stream() == b + s[lo..lo + j]
    {
      PutBit(bw, s[lo + j]);
      assert b + s[lo..lo + j] + [s[lo + j]] == b + s[lo..lo + j + 1];
    }
  }

  /** The search that moves a selector to the front of `pos`. */
  method FrontSelector(pos: seq<nat>, sel: nat) returns (j: nat, next: seq<nat>)
    requires sel in pos
    ensures j == Position(pos, sel) && next == Front(pos, j)
  {
    j := 0;
    next := pos;
    var tmp := next[0];
    while sel != tmp
      invariant j < |pos| == |next| && tmp == pos[j] && forall k :: 0 <= k < j ==> pos[k] != sel
      invariant forall k {:trigger next[k]} :: 1 <= k < |pos| ==> next[k] == if k <= j then pos[k - 1] else pos[k]
      decreases |pos| - j
    {
      j := j + 1;
      tmp, next := next[j], next[j := tmp];
    }
    next := next[0 := tmp];
    AtPosition(pos, sel, j);
  }

  lemma {:induction false} AtPosition(list: seq<nat>, c: nat, j: nat)
    requires j < |list| && list[j] == c && forall k :: 0 <= k < j ==> list[k] != c
    ensures c in list && Position(list, c) == j
  {
    if list[0] != c { AtPosition(list[1..], c, j - 1); }
  }

  /** `selectorMtf`, which has room for all of them: assertion 3003 */
  method ComputeSelectorMtf(sels: seq<nat>, nGroups: nat) returns (selectorMtf: array<nat>)
    requires |sels| <= MAX_SELECTORS && forall i :: 0 <= i < |sels| ==> sels[i] in Identity(nGroups)
    ensures selectorMtf.Length == MAX_SELECTORS && selectorMtf[..|sels|] == SelectorMtf(Identity(nGroups), sels)
      && fresh(selectorMtf)
  {
    var pos := Identity(nGroups);
    selectorMtf := new nat[MAX_SELECTORS];
    assert sels[0..] == sels;
    for i := 0 to |sels|
      invariant AllIn(sels[i..], pos)
      invariant selectorMtf[..i] + SelectorMtf(pos, sels[i..]) == SelectorMtf(Identity(nGroups), sels)
    {
      pos := PlaceSelector(selectorMtf, i, sels, pos, SelectorMtf(Identity(nGroups), sels));
    }
    assert sels[|sels|..] == [] && selectorMtf[..|sels|] + [] == selectorMtf[..|sels|];
  }

  ghost predicate AllIn(s: seq<nat>, pos: seq<nat>) {
    forall k :: 0 <= k < |s| ==> s[k] in pos
  }

  /** One of them. */
  method PlaceSelector(selectorMtf: array<nat>, i: nat, sels: seq<nat>, pos: seq<nat>, ghost all: seq<nat>)
    returns (next: seq<nat>)
    requires i < |sels| <= selectorMtf.Length && AllIn(sels[i..], pos)
      && selectorMtf[..i] + SelectorMtf(pos, sels[i..]) == all
    modifies selectorMtf
    ensures AllIn(sels[i + 1..], next) && selectorMtf[..i + 1] + SelectorMtf(next, sels[i + 1..]) == all
  {
    ghost var done := selectorMtf[..i];
    assert sels[i..][0] == sels[i] && sels[i..][1..] == sels[i + 1..];
    var j;
    j, next := FrontSelector(pos, sels[i]);
    FrontKeeps(pos, j, sels[i + 1..], sels[i..]);
    Shift(done, j, SelectorMtf(next, sels[i + 1..]));
    selectorMtf[i] := j;
    assert selectorMtf[..i + 1] == done + [j];
  }

  lemma Shift(a: seq<nat>, j: nat, b: seq<nat>)
    ensures a + ([j] + b) == (a + [j]) + b
  {
  }

  lemma FrontKeeps(pos: seq<nat>, j: nat, s: seq<nat>, whole: seq<nat>)
    requires j < |pos| && |whole| == |s| + 1 && s == whole[1..] && forall k :: 0 <= k < |whole| ==> whole[k] in pos
    ensures forall k :: 0 <= k < |s| ==> s[k] in Front(pos, j)
  {
    forall k | 0 <= k < |s| ensures s[k] in Front(pos, j) {
      assert s[k] == whole[k + 1];
      FrontMembers(pos, j, s[k]);
    }
  }

  /** The selectors in unary. */
  method PutSelectors(bw: BitWriter, mtfs: seq<nat>)
    requires bw.Valid()
    modifies bw
    ensures bw.Valid() && bw.Stream() == old(bw.Stream()) + SelectorsUpTo(mtfs, |mtfs|)
  {
    ghost var b := bw.Stream();
    assert b + [] == b;
    for i := 0 to |mtfs|
      invariant bw.Valid() && bw.Stream() == b + SelectorsUpTo(mtfs, i)
    {
      PutBits(bw, Ones(mtfs[i]), 0, mtfs[i]);
      assert Ones(mtfs[i])[0..mtfs[i]] == Ones(mtfs[i]);
      PutBit(bw, false);
      assert b + SelectorsUpTo(mtfs, i) + Ones(mtfs[i]) + [false] == b + SelectorsUpTo(mtfs, i + 1);
    }
  }

  /** Two-bit steps up or down to the length wanted. */
  method PutDelta(bw: BitWriter, curr0: nat, target: nat)
    requires bw.Valid()
    modifies bw
    ensures bw.Valid() && bw.Stream() == old(bw.Stream()) + Delta(curr0, target)
  {
    ghost var b := bw.Stream();
    var curr := curr0;
    assert b + [] == b;
    while curr < target
      invariant bw.Valid() && (curr == curr0 || curr <= target) && curr >= curr0
        && bw.Stream() == b + Delta(curr0, curr)
    {
      PutTwo(bw, false);
      Append(b, Delta(curr0, curr), [true, false]);
      curr := curr + 1;
    }
    while curr > target
      invariant if curr0 <= target then curr == target else target <= curr <= curr0
      invariant bw.Valid() && bw.Stream() == b + Delta(curr0, curr)
    {
      PutTwo(bw, true);
      Append(b, Delta(curr0, curr), [true, true]);
      curr := curr - 1;
    }
  }

  /** `bsW(s,2,2)` or `bsW(s,2,3)` */
  method PutTwo(bw: BitWriter, down: bool)
    requires bw.Valid()
    modifies bw
    ensures bw.Valid() && bw.Stream() == old(bw.Stream()) + [true, down]
  {
    TwoBits();
    if down { bw.Write(2, 3); } else { bw.Write(2, 2); }
  }

  lemma TwoBits()
    ensures NatBits(2, 2) == [true, false] && NatBits(2, 3) == [true, true] && Pow2(2) == 4
  {
    OneBit();
    assert NatBits(2, 2) == NatBits(1, 1) + [false];
    assert NatBits(2, 3) == NatBits(1, 1) + [true];
  }

  /** The steps to a length, then a zero bit. */
  method PutLength(bw: BitWriter, curr: nat, target: nat)
    requires bw.Valid()
    modifies bw
    ensures bw.Valid() && bw.Stream() == old(bw.Stream()) + (Delta(curr, target) + [false])
  {
    ghost var b := bw.Stream();
    PutDelta(bw, curr, target);
    PutBit(bw, false);
    Append(b, Delta(curr, target), [false]);
  }

  lemma RowNext(b: bits, row: seq<nat>, i: nat)
    requires i < |row|
    ensures b + RowUpTo(row, i) + (Delta(if i == 0 then row[0] else row[i - 1], row[i]) + [false])
      == b + RowUpTo(row, i + 1)
  {
    var x, y := RowUpTo(row, i), Delta(if i == 0 then row[0] else row[i - 1], row[i]);
    assert b + x + (y + [false]) == b + (x + y + [false]);
  }

  method PutFirstLength(bw: BitWriter, row: seq<nat>)
    requires bw.Valid() && Lengths(row, 1, LONGEST)
    modifies bw
    ensures row != [] && bw.Valid() && bw.Stream() == old(bw.Stream()) + RowUpTo(row, 0)
  {
    SelectorFits(row[0]);
    bw.Write(LENGTH_WIDTH, row[0]);
  }

  /** One coding table. */
  method PutRow(bw: BitWriter, row: seq<nat>)
    requires bw.Valid() && Lengths(row, 1, LONGEST)
    modifies bw
    ensures bw.Valid() && bw.Stream() == old(bw.Stream()) + RowUpTo(row, |row|)
  {
    ghost var b := bw.Stream();
    PutFirstLength(bw, row);
    var curr := row[0];
    for i := 0 to |row|
      invariant bw.Valid() && bw.Stream() == b + RowUpTo(row, i)
      invariant curr == if i == 0 then row[0] else row[i - 1]
    {
      PutLength(bw, curr, row[i]);
      RowNext(b, row, i);
      curr := row[i];
    }
  }

  method PutTables(bw: BitWriter, lens: seq<seq<nat>>)
    requires bw.Valid() && forall t :: 0 <= t < |lens| ==> lens[t] != [] && Lengths(lens[t], 1, LONGEST)
    modifies bw
    ensures bw.Valid() && bw.Stream() == old(bw.Stream()) + TablesUpTo(lens, |lens|)
  {
    ghost var b := bw.Stream();
    assert b + [] == b;
    for t := 0 to |lens|
      invariant bw.Valid() && bw.Stream() == b + TablesUpTo(lens, t)
    {
      PutRow(bw, lens[t]);
      Append(b, TablesUpTo(lens, t), RowUpTo(lens[t], |lens[t]|));
    }
  }

  /** The codes of all tables. */
  ghost predicate CodesOf(codes: seq<seq<nat>>, lens: seq<seq<nat>>) {
    && |codes| == |lens|
    && forall t {:trigger codes[t]} :: 0 <= t < |lens| ==>
         |codes[t]| == |lens[t]| && forall s :: 0 <= s < |lens[t]| ==> codes[t][s] == Code(lens[t], s)
  }

  /** Assigns the codes of every table; assertions 3004 and 3005 hold of the lengths. */
  method AssignAll(lens: seq<seq<nat>>) returns (codes: seq<seq<nat>>)
    requires forall t :: 0 <= t < |lens| ==> lens[t] != [] && Lengths(lens[t], 1, LONGEST)
    ensures CodesOf(codes, lens)
  {
    codes := [];
    for t := 0 to |lens|
      invariant |codes| == t
      invariant forall x {:trigger codes[x]} :: 0 <= x < t ==>
        |codes[x]| == |lens[x]| && forall s :: 0 <= s < |lens[x]| ==> codes[x][s] == Code(lens[x], s)
    {
      var row := lens[t];
      var length := new nat[|row|](i requires 0 <= i < |row| => row[i]);
      assert length[..] == row;
      var minLen, maxLen := FindBounds(row);
      var code := AssignCodes(length, minLen, maxLen, |row|);
      codes := codes + [code[..]];
    }
  }

  /** The loop that finds the shortest and longest length of a table. */
  method FindBounds(row: seq<nat>) returns (minLen: nat, maxLen: nat)
    requires Lengths(row, 1, LONGEST)
    ensures Lengths(row, minLen, maxLen) && minLen in row && maxLen in row
  {
    minLen, maxLen := 32, 0;
    for i := 0 to |row|
      invariant forall x :: 0 <= x < i ==> minLen <= row[x] <= maxLen
      invariant if i == 0 then minLen == 32 && maxLen == 0 else minLen in row && maxLen in row
    {
      assert row[i] in row && 1 <= row[i] <= LONGEST;
      if row[i] > maxLen { maxLen := row[i]; }
      if row[i] < minLen { minLen := row[i]; }
    }
  }

  lemma {:induction false} JoinedSplit(ps: seq<bits>, lo: nat, mid: nat, hi: nat)
    requires lo <= mid <= hi <= |ps|
    ensures Joined(ps, lo, mid) + Joined(ps, mid, hi) == Joined(ps, lo, hi)
  {
    if hi == mid {
      assert Joined(ps, lo, mid) + [] == Joined(ps, lo, mid);
    } else {
      JoinedSplit(ps, lo, mid, hi - 1);
      Append(Joined(ps, lo, mid), Joined(ps, mid, hi - 1), ps[hi - 1]);
    }
  }

  // What it takes to write the symbols, one by one.

  ghost predicate Provides(cd: Coding, codes: seq<seq<nat>>, alphaSize: nat, syms: seq<nat>, ps: seq<bits>, i: nat) {
    if i == 0 then GoodCoding(cd, alphaSize, |syms|)
    else if i == 1 then CodesOf(codes, cd.lens) && Indices(syms, alphaSize)
    else if i == 2 then ps == Pieces(cd, syms)
    else |ps| == |syms|
  }

  const PROVISIONS := 4

  /** The first `n` of them. */
  ghost predicate ProvidesFirst(cd: Coding, codes: seq<seq<nat>>, alphaSize: nat, syms: seq<nat>, ps: seq<bits>,
        n: nat)
  {
    n == 0 || (ProvidesFirst(cd, codes, alphaSize, syms, ps, n - 1) && Provides(cd, codes, alphaSize, syms, ps, n - 1))
  }

  /** Every symbol has a code to be written with, which gives the pieces `ps`. */
  ghost predicate CodesProvided(cd: Coding, codes: seq<seq<nat>>, alphaSize: nat, syms: seq<nat>, ps: seq<bits>) {
    ProvidesFirst(cd, codes, alphaSize, syms, ps, PROVISIONS)
  }

  lemma AllCodedIs(cd: Coding, codes: seq<seq<nat>>, alphaSize: nat, syms: seq<nat>, ps: seq<bits>)
    ensures CodesProvided(cd, codes, alphaSize, syms, ps)
            <==> GoodCoding(cd, alphaSize, |syms|) && CodesOf(codes, cd.lens) && Indices(syms, alphaSize)
                 && ps == Pieces(cd, syms)
  {
    assert ProvidesFirst(cd, codes, alphaSize, syms, ps, 0);
    assert ProvidesFirst(cd, codes, alphaSize, syms, ps, 1) <==> Provides(cd, codes, alphaSize, syms, ps, 0);
    assert ProvidesFirst(cd, codes, alphaSize, syms, ps, 2) <==>
      ProvidesFirst(cd, codes, alphaSize, syms, ps, 1) && Provides(cd, codes, alphaSize, syms, ps, 1);
    assert ProvidesFirst(cd, codes, alphaSize, syms, ps, 3) <==>
      ProvidesFirst(cd, codes, alphaSize, syms, ps, 2) && Provides(cd, codes, alphaSize, syms, ps, 2);
  }

  /** `bsW` of one symbol's code. */
  method PutSymbol(bw: BitWriter, mtfv: seq<nat>, i: nat, cd: Coding, codes: seq<seq<nat>>, t: nat,
        ghost alphaSize: nat, ghost ps: seq<bits>)
    requires bw.Valid() && i < |mtfv| == |ps| && CodesProvided(cd, codes, alphaSize, mtfv, ps)
    requires i / 50 < |cd.selectors| && t == cd.selectors[i / 50]
    modifies bw
    ensures bw.Valid() && bw.Stream() == old(bw.Stream()) + ps[i] && bw.bsLive == LiveBits(|bw.Stream()|, |ps[i]|)
  {
    AllCodedIs(cd, codes, alphaSize, mtfv, ps);
    var s := mtfv[i];
    ghost var lens := cd.lens[t];
    assert GoodTable(lens, alphaSize);
    CodeFits(lens, MaxOf(lens), s);
    assert codes[t][s] == Code(lens, s);
    assert ps[i] == SymbolBits(cd, i, s);
    bw.Write(cd.lens[t][s], codes[t][s]);
  }

  lemma GroupOf(q: nat, i: nat)
    requires 50 * q <= i < 50 * q + 50
    ensures i / 50 == q
  {
  }

  method PutGroupSymbol(bw: BitWriter, mtfv: seq<nat>, i: nat, cd: Coding, codes: seq<seq<nat>>, q: nat,
        ghost alphaSize: nat, ghost ps: seq<bits>)
    requires bw.Valid() && i < |mtfv| == |ps| && CodesProvided(cd, codes, alphaSize, mtfv, ps)
    requires 50 * q <= i < 50 * q + 50 && q < |cd.selectors|
    modifies bw
    ensures bw.Valid() && bw.Stream() == old(bw.Stream()) + ps[i] && bw.bsLive == LiveBits(|bw.Stream()|, |ps[i]|)
  {
    GroupOf(q, i);
    PutSymbol(bw, mtfv, i, cd, codes, cd.selectors[q], alphaSize, ps);
  }

  /** The symbols of one group. */
  method PutGroup(bw: BitWriter, mtfv: seq<nat>, cd: Coding, codes: seq<seq<nat>>, q: nat, gs: nat, next: nat,
        ghost alphaSize: nat, ghost ps: seq<bits>)
    requires bw.Valid() && gs <= next <= |mtfv| == |ps| && CodesProvided(cd, codes, alphaSize, mtfv, ps)
    requires 50 * q <= gs && next <= 50 * q + 50 && q < |cd.selectors|
    modifies bw
    ensures bw.Valid() && bw.Stream() == old(bw.Stream()) + Joined(ps, gs, next)
    ensures gs < next ==> bw.bsLive == LiveBits(|bw.Stream()|, |ps[next - 1]|)
  {
    ghost var b := bw.Stream();
    assert b + [] == b;
    for i := gs to next
      invariant bw.Valid() && bw.Stream() == b + Joined(ps, gs, i)
      invariant gs < i ==> bw.bsLive == LiveBits(|bw.Stream()|, |ps[i - 1]|)
    {
      PutGroupSymbol(bw, mtfv, i, cd, codes, q, alphaSize, ps);
      Append(b, Joined(ps, gs, i), ps[i]);
    }
  }

  /** `gs` is where group number `k` of `n` symbols starts. */
  predicate GroupStarts(n: nat, k: nat, gs: nat) {
    gs <= n && (gs == 50 * k || (gs == n && k == (n + 49) / 50))
  }

  lemma GroupEnds(n: nat, k: nat, gs: nat)
    requires GroupStarts(n, k, gs) && gs < n
    ensures gs == 50 * k && k < (n + 49) / 50
    ensures GroupStarts(n, k + 1, if gs + 50 < n then gs + 50 else n)
  {
  }

  /** The length of the last code of a block. */
  function TailOf(cd: Coding, syms: seq<nat>): nat
    requires syms != []
  {
    |SymbolBits(cd, |syms| - 1, syms[|syms| - 1])|
  }

  /** The block data proper; assertions 3006 and 3007 hold. */
  method PutData(bw: BitWriter, mtfv: seq<nat>, cd: Coding, codes: seq<seq<nat>>, ghost alphaSize: nat)
    requires bw.Valid() && CodesProvided(cd, codes, alphaSize, mtfv, Pieces(cd, mtfv))
      && |cd.selectors| == (|mtfv| + 49) / 50
    modifies bw
    ensures bw.Valid() && bw.Stream() == old(bw.Stream()) + DataBits(cd, mtfv)
    ensures mtfv != [] ==> bw.bsLive == LiveBits(|bw.Stream()|, TailOf(cd, mtfv))
  {
    PutPieces(bw, mtfv, cd, codes, alphaSize, Pieces(cd, mtfv));
  }

  method PutPieces(bw: BitWriter, mtfv: seq<nat>, cd: Coding, codes: seq<seq<nat>>, ghost alphaSize: nat,
        ghost ps: seq<bits>)
    requires bw.Valid() && |ps| == |mtfv| && CodesProvided(cd, codes, alphaSize, mtfv, ps)
    requires |cd.selectors| == (|mtfv| + 49) / 50
    modifies bw
    ensures bw.Valid() && bw.Stream() == old(bw.Stream()) + Joined(ps, 0, |ps|)
    ensures ps != [] ==> bw.bsLive == LiveBits(|bw.Stream()|, |ps[|ps| - 1]|)
  {
    ghost var b := bw.Stream();
    assert b + [] == b;
    var selCtr, gs := 0, 0;
    while true
      invariant GroupStarts(|mtfv|, selCtr, gs)
      invariant bw.Valid() && bw.Stream() == b + Joined(ps, 0, gs)
      invariant 0 < gs ==> bw.bsLive == LiveBits(|bw.Stream()|, |ps[gs - 1]|)
      decreases |mtfv| - gs
    {
      if gs >= |mtfv| { break; }
      GroupEnds(|mtfv|, selCtr, gs);
      var ge := gs + 50 - 1;
      if ge >= |mtfv| { ge := |mtfv| - 1; }
      var next := ge + 1;
      PutGroup(bw, mtfv, cd, codes, selCtr, gs, next, alphaSize, ps);
      JoinedSplit(ps, 0, gs, next);
      Append(b, Joined(ps, 0, gs), Joined(ps, gs, next));
      gs := next;
      selCtr := selCtr + 1;
    }
  }

  /** Selectors and coding tables. */
  method PutCoding(bw: BitWriter, cd: Coding, ghost alphaSize: nat, ghost nMTF: nat)
    requires bw.Valid() && GoodCoding(cd, alphaSize, nMTF)
    requires forall i :: 0 <= i < |cd.selectors| ==> cd.selectors[i] in Identity(|cd.lens|)
    requires forall t :: 0 <= t < |cd.lens| ==> cd.lens[t] != [] && Lengths(cd.lens[t], 1, LONGEST)
    modifies bw
    ensures bw.Valid() && bw.Stream() == old(bw.Stream()) + CodingBits(cd)
  {
    ghost var b := bw.Stream();
    var g, n := |cd.lens|, |cd.selectors|;
    var selectorMtf := ComputeSelectorMtf(cd.selectors, g);
    var mtfs := selectorMtf[..n];
    SelectorFits(g);
    SelectorFits(n);
    bw.Write(GROUPS_WIDTH, g);
    bw.Write(SELECTORS_WIDTH, n);
    PutSelectors(bw, mtfs);
    PutTables(bw, cd.lens);
    Join4(b, NatBits(GROUPS_WIDTH, g), NatBits(SELECTORS_WIDTH, n), SelectorsUpTo(mtfs, n), TablesUpTo(cd.lens, g));
  }

  lemma Join4(b: bits, w: bits, x: bits, y: bits, z: bits)
    ensures b + w + x + y + z == b + (w + x + y + z)
  {
  }

  /** Everything of a block before its data. */
  method PutBlockHead(bw: BitWriter, b: Block)
    requires bw.Valid() && Writable(b)
    modifies bw
    ensures bw.Valid() && bw.Stream() == old(bw.Stream()) + BlockHeadBits(b)
  {
    ghost var s, alphaSize := bw.Stream(), |SeqToUnseq(b.inUse, 256)| + 2;
    InIdentity(b.cd.selectors, |b.cd.lens|);
    TablesGood(b.cd, alphaSize, |b.syms|);
    PutChars(bw, BlockStart());
    PutWord(bw, b.crc);
    PutBit(bw, false);
    bw.Write(ORIG_WIDTH, b.orig);
    PutMap(bw, b.inUse);
    PutCoding(bw, b.cd, alphaSize, |b.syms|);
    Join6(s, Chars(BlockStart()), WordBits(b.crc), [false], NatBits(ORIG_WIDTH, b.orig), MapBits(b.inUse),
      CodingBits(b.cd));
  }

  lemma Join6(b: bits, u: bits, v: bits, w: bits, x: bits, y: bits, z: bits)
    ensures b + u + v + w + x + y + z == b + (u + v + w + x + y + z)
  {
  }

  lemma TablesGood(cd: Coding, alphaSize: nat, nMTF: nat)
    requires GoodCoding(cd, alphaSize, nMTF)
    ensures forall t :: 0 <= t < |cd.lens| ==> cd.lens[t] != [] && Lengths(cd.lens[t], 1, LONGEST)
  {
    forall t | 0 <= t < |cd.lens| ensures cd.lens[t] != [] && Lengths(cd.lens[t], 1, LONGEST) {
      assert GoodTable(cd.lens[t], alphaSize);
    }
  }

  /** The block part of `BZ2_compressBlock_save`. */
  method PutBlock(bw: BitWriter, b: Block)
    requires bw.Valid() && Writable(b) && |b.cd.selectors| == (|b.syms| + 49) / 50
    modifies bw
    ensures bw.Valid() && bw.Stream() == old(bw.Stream()) + BlockBits(b)
      && bw.bsLive == LiveBits(|bw.Stream()|, TailOf(b.cd, b.syms))
  {
    hide Pieces, DataBits, BlockHeadBits, GoodCoding, CodesProvided, SeqToUnseq;
    ghost var s, alphaSize := bw.Stream(), |SeqToUnseq(b.inUse, 256)| + 2;
    PutBlockHead(bw, b);
    TablesGood(b.cd, alphaSize, |b.syms|);
    var codes := AssignAll(b.cd.lens);
    AllCodedIs(b.cd, codes, alphaSize, b.syms, Pieces(b.cd, b.syms));
    PutData(bw, b.syms, b.cd, codes, alphaSize);
    Append(s, BlockHeadBits(b), DataBits(b.cd, b.syms));
  }

  /** A magic number and a checksum. */
  method PutMagic(bw: BitWriter, magic: seq<byte>, crc: word)
    requires bw.Valid()
    modifies bw
    ensures bw.Valid() && bw.Stream() == old(bw.Stream()) + (Chars(magic) + WordBits(crc))
  {
    ghost var s := bw.Stream();
    PutChars(bw, magic);
    PutWord(bw, crc);
    Append(s, Chars(magic), WordBits(crc));
  }

  /** The stream header. */
  method PutHeaderBits(bw: BitWriter, level: nat)
    requires bw.Valid() && 1 <= level <= 9
    modifies bw
    ensures bw.Valid() && bw.Stream() == old(bw.Stream()) + HeaderBits(level)
  {
    hide Chars, Char, CharsUpTo, NatBits;
    PutStart(bw, HeaderMagic(), HDR_0 + level);
  }

  /** A magic number and one more character. */
  method PutStart(bw: BitWriter, magic: seq<byte>, c: byte)
    requires bw.Valid()
    modifies bw
    ensures bw.Valid() && bw.Stream() == old(bw.Stream()) + (Chars(magic) + Char(c))
  {
    ghost var s := bw.Stream();
    PutChars(bw, magic);
    PutChar(bw, c);
    Append(s, Chars(magic), Char(c));
  }
}
