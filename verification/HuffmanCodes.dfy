/** Canonical Huffman codes: assignment, decoding tables and the decoding loop that inverts it. */
module HuffmanCodes {
  import opened Bits
  import opened Counting
  import opened InverseBwt

  const MAX_CODE_LEN := 23
  const LONGEST := 20

  ghost predicate Lengths(lens: seq<nat>, lo: nat, hi: nat) {
    lens != [] && forall i :: 0 <= i < |lens| ==> lo <= lens[i] <= hi
  }

  /** The first code of length `n`: `vec` when the loops of both sides reach that length. */
  function First(lens: seq<nat>, n: nat): nat {
    if n == 0 then 0 else 2 * (First(lens, n - 1) + Count(lens, n - 1))
  }

  function Code(lens: seq<nat>, s: nat): nat
    requires s < |lens|
  {
    First(lens, lens[s]) + Count(lens[..s], lens[s])
  }

  /** The space used by codes of length at most `n`, in units of codes of length `n`. */
  function Used(lens: seq<nat>, n: nat): nat {
    if lens == [] then 0
    else Used(lens[..|lens| - 1], n) + (if lens[|lens| - 1] <= n then Shl(1, n - lens[|lens| - 1]) else 0)
  }

  lemma {:induction false} UsedNext(lens: seq<nat>, n: nat)
    ensures Used(lens, n + 1) == 2 * Used(lens, n) + Count(lens, n + 1)
  {
    if lens != [] { UsedNext(lens[..|lens| - 1], n); }
  }

  lemma {:induction false} UsedZero(lens: seq<nat>)
    ensures Used(lens, 0) == Count(lens, 0)
  {
    if lens != [] { UsedZero(lens[..|lens| - 1]); }
  }

  lemma {:induction false} FirstUsed(lens: seq<nat>, n: nat)
    ensures First(lens, n) + Count(lens, n) == Used(lens, n)
  {
    if n == 0 { UsedZero(lens); } else {
      FirstUsed(lens, n - 1);
      UsedNext(lens, n - 1);
    }
  }

  /** The Kraft inequality. */
  ghost predicate Fits(lens: seq<nat>, maxLen: nat) {
    Used(lens, maxLen) <= Shl(1, maxLen)
  }

  /** It holds at every shorter length too. */
  lemma {:induction false} FitsBelow(lens: seq<nat>, n: nat, maxLen: nat)
    requires Fits(lens, maxLen) && n <= maxLen
    ensures Used(lens, n) <= Shl(1, n)
    decreases maxLen - n
  {
    if n < maxLen {
      FitsBelow(lens, n + 1, maxLen);
      UsedNext(lens, n);
    }
  }

  /** Codes fit their lengths. */
  lemma CodeFits(lens: seq<nat>, maxLen: nat, s: nat)
    requires Fits(lens, maxLen) && s < |lens| && lens[s] <= maxLen
    ensures Code(lens, s) < Pow2(lens[s])
  {
    CountBefore(lens, s);
    FirstUsed(lens, lens[s]);
    FitsBelow(lens, lens[s], maxLen);
    ShlPow2(lens[s]);
  }

  lemma {:induction false} FirstGrows(lens: seq<nat>, m: nat, n: nat)
    requires m < n
    ensures First(lens, n) >= Shl(First(lens, m) + Count(lens, m), n - m)
  {
    if m + 1 < n { FirstGrows(lens, m, n - 1); }
  }

  lemma {:induction false} ShrShl(v: nat, n: nat)
    ensures Shr(Shl(v, n), n) == v
  {
    if n > 0 {
      assert Shl(v, n) / 2 == Shl(v, n - 1);
      ShrShl(v, n - 1);
    }
  }

  lemma {:induction false} ShrMono(a: nat, b: nat, n: nat)
    requires a <= b
    ensures Shr(a, n) <= Shr(b, n)
  {
    if n > 0 { ShrMono(a / 2, b / 2, n - 1); }
  }

  /** The first `m` bits of a longer code lie past every code of length `m`. */
  lemma PrefixPast(lens: seq<nat>, s: nat, m: nat)
    requires s < |lens| && m < lens[s]
    ensures Shr(Code(lens, s), lens[s] - m) >= First(lens, m) + Count(lens, m)
  {
    FirstGrows(lens, m, lens[s]);
    var v := First(lens, m) + Count(lens, m);
    ShrShl(v, lens[s] - m);
    ShrMono(Shl(v, lens[s] - m), Code(lens, s), lens[s] - m);
  }

  /** No code begins another. */
  lemma PrefixFree(lens: seq<nat>, s: nat, t: nat)
    requires s < |lens| && t < |lens| && s != t && lens[s] <= lens[t]
    ensures Shr(Code(lens, t), lens[t] - lens[s]) != Code(lens, s)
  {
    if lens[s] < lens[t] {
      PrefixPast(lens, t, lens[s]);
      CountBefore(lens, s);
    } else if s < t {
      CountPrefix(lens, s, t, lens[s]);
    } else {
      CountPrefix(lens, t, s, lens[s]);
    }
  }

  /** `BZ2_hbAssignCodes` */
  method AssignCodes(length: array<nat>, minLen: nat, maxLen: nat, alphaSize: nat) returns (code: array<nat>)
    requires alphaSize == length.Length && Lengths(length[..], minLen, maxLen)
    ensures fresh(code) && code.Length == alphaSize && forall s :: 0 <= s < alphaSize ==> code[s] == Code(length[..], s)
  {
    ghost var lens := length[..];
    code := new nat[alphaSize](i => 0);
    var vec := 0;
    NoneShorter(lens, minLen, maxLen, minLen);
    for n := minLen to maxLen + 1
      invariant vec == First(lens, n)
      invariant forall s {:trigger code[s]} :: 0 <= s < alphaSize && lens[s] < n ==> code[s] == Code(lens, s)
    {
      for i := 0 to alphaSize
        invariant vec == First(lens, n) + Count(lens[..i], n)
        invariant forall s {:trigger code[s]} :: 0 <= s < alphaSize && (lens[s] < n || (lens[s] == n && s < i)) ==>
          code[s] == Code(lens, s)
      {
        assert lens[..i + 1][..i] == lens[..i];
        if length[i] == n {
          code[i] := vec;
          vec := vec + 1;
        }
      }
      assert lens[..alphaSize] == lens;
      vec := 2 * vec;
    }
  }

  /** Lengths that do not occur shift nothing in. */
  lemma {:induction false} NoneShorter(lens: seq<nat>, minLen: nat, maxLen: nat, n: nat)
    requires Lengths(lens, minLen, maxLen) && n <= minLen
    ensures First(lens, n) == 0
  {
    if n > 0 {
      NoneShorter(lens, minLen, maxLen, n - 1);
      CountPositive(lens, n - 1);
    }
  }

  /** `limit` */
  function Limit(lens: seq<nat>, minLen: nat, maxLen: nat, n: nat): int {
    if minLen <= n <= maxLen then First(lens, n) + Count(lens, n) - 1 else 0
  }

  /** `base` */
  function Base(lens: seq<nat>, minLen: nat, maxLen: nat, n: nat): int {
    if minLen < n <= maxLen then First(lens, n) - Below(lens, n) else Below(lens, n)
  }

  /** What `BZ2_hbCreateDecodeTables` stores. */
  ghost predicate Tables(lens: seq<nat>, minLen: nat, maxLen: nat, limit: seq<int>, base: seq<int>, perm: seq<nat>) {
    && |limit| == |base| == MAX_CODE_LEN && |lens| <= |perm| && perm[..|lens|] == TInv(lens)
    && (forall n {:trigger limit[n]} :: 0 <= n < MAX_CODE_LEN ==> limit[n] == Limit(lens, minLen, maxLen, n))
    && (forall n {:trigger base[n]} :: 0 <= n < MAX_CODE_LEN ==> base[n] == Base(lens, minLen, maxLen, n))
  }

  /** One probe of the decoding loop. */
  datatype Probe = More | Found(sym: nat) | Bad

  /** `zvec <= gLimit[zn]`, and then the symbol `gPerm[zvec - gBase[zn]]`. */
  function Check(lens: seq<nat>, minLen: nat, maxLen: nat, zn: nat, zvec: nat): Probe {
    if zn > LONGEST then Bad
    else if zvec > Limit(lens, minLen, maxLen, zn) then More
    else
      var i := zvec - Base(lens, minLen, maxLen, zn);
      if 0 <= i < |lens| then Found(TInv(lens)[i]) else Bad
  }

  /** The shortest and longest lengths, as the decoder finds them. */
  ghost predicate Bounds(lens: seq<nat>, minLen: nat, maxLen: nat) {
    Lengths(lens, minLen, maxLen) && minLen in lens && maxLen in lens && 1 <= minLen && maxLen <= LONGEST
  }

  /** `zn` bits were read, and every probe before asked for more. */
  ghost predicate Reached(lens: seq<nat>, minLen: nat, maxLen: nat, zn: nat, zvec: nat) {
    minLen <= zn && (zn > minLen ==> zvec / 2 > Limit(lens, minLen, maxLen, zn - 1) && zn - 1 <= LONGEST)
  }

  lemma LimitBeforeEnd(lens: seq<nat>, minLen: nat, maxLen: nat)
    requires Bounds(lens, minLen, maxLen)
    ensures Limit(lens, minLen, maxLen, maxLen) >= 0 && Limit(lens, minLen, maxLen, minLen) >= 0
  {
    CountPositive(lens, maxLen);
    CountPositive(lens, minLen);
  }

  /** A probe that succeeds finds an entry of the table that was filled in, for any lengths at all. */
  lemma {:induction false} NoStaleEntry(lens: seq<nat>, minLen: nat, maxLen: nat, zn: nat, zvec: nat)
    requires Bounds(lens, minLen, maxLen) && Reached(lens, minLen, maxLen, zn, zvec)
    requires maxLen < zn ==> zvec > 0
    requires zn <= LONGEST && zvec <= Limit(lens, minLen, maxLen, zn)
    ensures 0 <= zvec - Base(lens, minLen, maxLen, zn) < |lens|
  {
    BelowBounds(lens, minLen, maxLen + 1);
    BelowStep(lens, zn);
    if zn <= maxLen {
      BelowMono(lens, zn + 1, maxLen + 1);
      if zn > minLen {
        assert First(lens, zn) == 2 * (Limit(lens, minLen, maxLen, zn - 1) + 1);
      } else {
        NoneShorter(lens, minLen, maxLen, minLen);
      }
    }
  }

  /** Past the longest code the probes go on failing until the length limit stops them. */
  lemma PastEnd(lens: seq<nat>, minLen: nat, maxLen: nat, zn: nat, zvec: nat, bit: nat)
    requires Bounds(lens, minLen, maxLen) && zvec > Limit(lens, minLen, maxLen, zn)
    ensures maxLen <= zn ==> 2 * zvec + bit > 0
  {
    LimitBeforeEnd(lens, minLen, maxLen);
  }

  /** Only symbols of the table are found. */
  lemma FoundBelow(lens: seq<nat>, minLen: nat, maxLen: nat, zn: nat, zvec: nat)
    ensures var p := Check(lens, minLen, maxLen, zn, zvec); p.Found? ==> p.sym < |lens|
  {
    var i := zvec - Base(lens, minLen, maxLen, zn);
    if 0 <= i < |lens| { TInvInverse(lens, i); }
  }

  /** The probes of a code being read: more bits up to its length, then its symbol. */
  lemma CheckCode(lens: seq<nat>, minLen: nat, maxLen: nat, s: nat, m: nat)
    requires Bounds(lens, minLen, maxLen) && s < |lens| && minLen <= m <= lens[s]
    ensures Check(lens, minLen, maxLen, m, Shr(Code(lens, s), lens[s] - m)) == if m < lens[s] then More else Found(s)
  {
    if m < lens[s] {
      PrefixPast(lens, s, m);
    } else {
      CountBefore(lens, s);
      LFRange(lens, s);
      if m == minLen {
        NoneShorter(lens, minLen, maxLen, minLen);
        BelowBounds(lens, minLen, maxLen + 1);
      }
      TInvInverse(lens, LF(lens, s));
      if TInv(lens)[LF(lens, s)] != s { LFInjective(lens, TInv(lens)[LF(lens, s)], s); }
    }
  }

  /** Reading bit by bit from a state of the loop. */
  function ReadCode(lens: seq<nat>, minLen: nat, maxLen: nat, zn: nat, zvec: nat, b: bits): (Probe, bits)
    decreases |b|
  {
    var c := Check(lens, minLen, maxLen, zn, zvec);
    if c != More || b == [] then (c, b)
    else ReadCode(lens, minLen, maxLen, zn + 1, 2 * zvec + (if b[0] then 1 else 0), b[1..])
  }

  lemma ShrSplit(w: nat, v: nat, m: nat)
    requires m < w
    ensures Shr(v, w - m - 1) == 2 * Shr(v, w - m) + (if NatBits(w, v)[m] then 1 else 0)
  {
    ShrBits(w, v, w - m - 1);
    assert NatBits(m + 1, Shr(v, w - m - 1))[m] == NatBits(w, v)[m];
    ShrHalf(v, w - m - 1);
  }

  lemma {:induction false} ShrHalf(v: nat, n: nat)
    ensures Shr(v, n + 1) == Shr(v, n) / 2
  {
    if n > 0 { ShrHalf(v / 2, n - 1); }
  }

  lemma {:induction false} ReadRest(lens: seq<nat>, minLen: nat, maxLen: nat, s: nat, m: nat, rest: bits)
    requires Bounds(lens, minLen, maxLen) && s < |lens| && minLen <= m <= lens[s]
    ensures var b := NatBits(lens[s], Code(lens, s));
      ReadCode(lens, minLen, maxLen, m, Shr(Code(lens, s), lens[s] - m), b[m..] + rest) == (Found(s), rest)
    decreases lens[s] - m
  {
    var b, c := NatBits(lens[s], Code(lens, s)), Code(lens, s);
    CheckCode(lens, minLen, maxLen, s, m);
    if m < lens[s] {
      ReadRest(lens, minLen, maxLen, s, m + 1, rest);
      ShrSplit(lens[s], c, m);
      assert (b[m..] + rest)[1..] == b[m + 1..] + rest;
    } else {
      assert b[m..] + rest == rest;
    }
  }

  /** The canonical inverse: reading the code of `s` consumes exactly its bits and returns `s`. */
  lemma ReadAssigned(lens: seq<nat>, minLen: nat, maxLen: nat, s: nat, rest: bits)
    requires Bounds(lens, minLen, maxLen) && Fits(lens, maxLen) && s < |lens|
    ensures var b := NatBits(lens[s], Code(lens, s));
      ReadCode(lens, minLen, maxLen, minLen, BitsNat(b[..minLen]), b[minLen..] + rest) == (Found(s), rest)
  {
    var b, c, d := NatBits(lens[s], Code(lens, s)), Code(lens, s), lens[s] - minLen;
    ReadRest(lens, minLen, maxLen, s, minLen, rest);
    CodeFits(lens, maxLen, s);
    ShrBits(lens[s], c, d);
    ShrBound(c, d, minLen);
    NatOfNatBits(minLen, Shr(c, d));
  }

  /** The symbols of length `i`, in order. */
  method FillLength(perm: array<nat>, length: array<nat>, i: nat, alphaSize: nat, pp0: nat) returns (pp: nat)
    requires perm != length && alphaSize == length.Length
    requires Filled(length[..], perm[..], i, 0) && pp0 == Below(length[..], i)
    modifies perm
    ensures Filled(length[..], perm[..], i + 1, 0) && pp == Below(length[..], i + 1)
  {
    ghost var lens := length[..];
    BelowStep(lens, i);
    pp := pp0;
    for j := 0 to alphaSize
      invariant pp == Below(lens, i) + Count(lens[..j], i) && length[..] == lens && Filled(lens, perm[..], i, j)
    {
      FillNext(lens, perm[..], i, j);
      if length[j] == i {
        perm[pp] := j;
        pp := pp + 1;
      }
    }
    assert lens[..alphaSize] == lens;
    FillLevel(lens, perm[..], i);
  }

  /** The first part of `BZ2_hbCreateDecodeTables`: symbols in the order of their codes. */
  method FillPerm(perm: array<nat>, length: array<nat>, minLen: nat, maxLen: nat, alphaSize: nat)
    requires perm != length && alphaSize == length.Length <= perm.Length && Lengths(length[..], minLen, maxLen)
    modifies perm
    ensures perm[..alphaSize] == TInv(length[..])
  {
    ghost var lens := length[..];
    var pp := 0;
    BelowBounds(lens, minLen, maxLen + 1);
    for i := minLen to maxLen + 1
      invariant pp == Below(lens, i) && length[..] == lens && Filled(lens, perm[..], i, 0)
    {
      pp := FillLength(perm, length, i, alphaSize, pp);
    }
    forall y | 0 <= y < alphaSize ensures perm[y] == TInv(lens)[y] {
      TInvInverse(lens, y);
      assert lens[TInv(lens)[y]] <= maxLen;
    }
  }

  /** The symbols before symbol `j` of length `i` are in place. */
  ghost predicate Filled(lens: seq<nat>, perm: seq<nat>, i: nat, j: nat) {
    |lens| <= |perm| && forall x {:trigger lens[x]} :: 0 <= x < |lens| && (lens[x] < i || (lens[x] == i && x < j)) ==>
      LF(lens, x) < |perm| && perm[LF(lens, x)] == x
  }

  lemma FillNext(lens: seq<nat>, perm: seq<nat>, i: nat, j: nat)
    requires Filled(lens, perm, i, j) && j < |lens|
    ensures Count(lens[..j + 1], i) == Count(lens[..j], i) + (if lens[j] == i then 1 else 0)
    ensures lens[j] == i ==> LF(lens, j) < |perm| && Filled(lens, perm[LF(lens, j) := j], i, j + 1)
    ensures lens[j] != i ==> Filled(lens, perm, i, j + 1)
  {
    assert lens[..j + 1][..j] == lens[..j];
    LFRange(lens, j);
    if lens[j] == i {
      forall x | 0 <= x < |lens| && (lens[x] < i || (lens[x] == i && x < j + 1)) ensures
        LF(lens, x) < |perm| && perm[LF(lens, j) := j][LF(lens, x)] == x
      {
        if x != j { LFInjective(lens, x, j); }
      }
    }
  }

  lemma FillLevel(lens: seq<nat>, perm: seq<nat>, i: nat)
    requires Filled(lens, perm, i, |lens|)
    ensures Filled(lens, perm, i + 1, 0)
  {
  }

  /** `base[length[i]+1]++` and the running sums: how many symbols have shorter codes. */
  method SumBase(base: array<int>, length: array<nat>, alphaSize: nat)
    requires base.Length == MAX_CODE_LEN && alphaSize == length.Length && Lengths(length[..], 1, LONGEST)
    requires (base as object) != (length as object)
    modifies base
    ensures forall n {:trigger base[n]} :: 0 <= n < MAX_CODE_LEN ==> base[n] == Below(length[..], n)
  {
    ghost var lens := length[..];
    for i := 0 to MAX_CODE_LEN
      invariant forall n {:trigger base[n]} :: 0 <= n < i ==> base[n] == 0
    {
      base[i] := 0;
    }
    for i := 0 to alphaSize
      invariant length[..] == lens
      invariant base[0] == 0 && forall n {:trigger base[n]} :: 1 <= n < MAX_CODE_LEN ==>
        base[n] == Count(lens[..i], n - 1)
    {
      assert lens[..i + 1][..i] == lens[..i];
      base[length[i] + 1] := base[length[i] + 1] + 1;
    }
    assert lens[..alphaSize] == lens;
    BelowBounds(lens, 0, LONGEST + 1);
    for i := 1 to MAX_CODE_LEN
      invariant length[..] == lens
      invariant forall n {:trigger base[n]} :: 0 <= n < i ==> base[n] == Below(lens, n)
      invariant forall n {:trigger base[n]} :: i <= n < MAX_CODE_LEN ==> base[n] == Count(lens, n - 1)
    {
      BelowStep(lens, i - 1);
      base[i] := base[i] + base[i - 1];
    }
  }

  /** The last part: the limits, and the bases turned into offsets. */
  method SetLimits(limit: array<int>, base: array<int>, minLen: nat, maxLen: nat, ghost lens: seq<nat>)
    requires limit != base && limit.Length == base.Length == MAX_CODE_LEN && Bounds(lens, minLen, maxLen)
    requires forall n {:trigger base[n]} :: 0 <= n < MAX_CODE_LEN ==> base[n] == Below(lens, n)
    modifies limit, base
    ensures forall n {:trigger limit[n]} :: 0 <= n < MAX_CODE_LEN ==> limit[n] == Limit(lens, minLen, maxLen, n)
    ensures forall n {:trigger base[n]} :: 0 <= n < MAX_CODE_LEN ==> base[n] == Base(lens, minLen, maxLen, n)
  {
    ghost var b := base[..];
    for i := 0 to MAX_CODE_LEN
      invariant base[..] == b && forall n {:trigger limit[n]} :: 0 <= n < i ==> limit[n] == 0
    {
      limit[i] := 0;
    }
    var vec := 0;
    NoneShorter(lens, minLen, maxLen, minLen);
    for i := minLen to maxLen + 1
      invariant vec == First(lens, i) && base[..] == b
      invariant forall n {:trigger limit[n]} :: 0 <= n < MAX_CODE_LEN ==>
        limit[n] == if n < i then Limit(lens, minLen, maxLen, n) else 0
    {
      BelowStep(lens, i);
      assert base[i + 1] == b[i + 1] && base[i] == b[i];
      vec := vec + (base[i + 1] - base[i]);
      limit[i] := vec - 1;
      vec := 2 * vec;
    }
    ghost var l := limit[..];
    for i := minLen + 1 to maxLen + 1
      invariant limit[..] == l
      invariant forall n {:trigger base[n]} :: 0 <= n < MAX_CODE_LEN ==>
        base[n] == if n < i then Base(lens, minLen, maxLen, n) else Below(lens, n)
    {
      assert limit[i - 1] == l[i - 1];
      base[i] := (limit[i - 1] + 1) * 2 - base[i];
    }
  }

  /** `BZ2_hbCreateDecodeTables` */
  method CreateDecodeTables(limit: array<int>, base: array<int>, perm: array<nat>, length: array<nat>,
        minLen: nat, maxLen: nat, alphaSize: nat)
    requires limit != base && perm != length && {limit as object, base as object} !! {perm as object, length as object}
    requires limit.Length == base.Length == MAX_CODE_LEN && alphaSize == length.Length <= perm.Length
    requires Bounds(length[..], minLen, maxLen)
    modifies limit, base, perm
    ensures Tables(length[..], minLen, maxLen, limit[..], base[..], perm[..])
  {
    ghost var lens := length[..];
    FillPerm(perm, length, minLen, maxLen, alphaSize);
    ghost var p := perm[..];
    assert p[..alphaSize] == TInv(lens);
    SumBase(base, length, alphaSize);
    SetLimits(limit, base, minLen, maxLen, lens);
    assert perm[..] == p;
  }

  /** A probe of the arrays is a probe of the lengths they were built from. */
  method Probing(limit: array<int>, base: array<int>, perm: array<nat>, zn: nat, zvec: nat,
        ghost lens: seq<nat>, ghost minLen: nat, ghost maxLen: nat)
    returns (p: Probe)
    requires Bounds(lens, minLen, maxLen) && Tables(lens, minLen, maxLen, limit[..], base[..], perm[..])
    requires Reached(lens, minLen, maxLen, zn, zvec) && (maxLen < zn ==> zvec > 0) && zn <= LONGEST + 1
    ensures p == Check(lens, minLen, maxLen, zn, zvec)
  {
    if zn > LONGEST { return Bad; }
    ghost var l, b, q := limit[..], base[..], perm[..];
    assert l[zn] == Limit(lens, minLen, maxLen, zn) && b[zn] == Base(lens, minLen, maxLen, zn);
    if zvec > limit[zn] { return More; }
    NoStaleEntry(lens, minLen, maxLen, zn, zvec);
    var i := zvec - base[zn];
    if i < 0 || i >= perm.Length { return Bad; }
    assert q[i] == q[..|lens|][i];
    return Found(perm[i]);
  }
}
