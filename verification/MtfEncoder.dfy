/** `generateMTFValues`: the symbols of a sorted block, written over the sort pointers as they are consumed. */
module MtfEncoder {
  import opened Bits
  import opened Counting
  import opened Mtf
  import opened InverseBwt
  import opened FallbackSort

  /** How many byte values below `c` are in use. */
  function Rank(inUse: seq<bool>, c: nat): (r: nat)
    requires c <= |inUse|
    ensures r <= c
  {
    if c == 0 then 0 else Rank(inUse, c - 1) + (if inUse[c - 1] then 1 else 0)
  }

  lemma {:induction false} RankMono(inUse: seq<bool>, c: nat, d: nat)
    requires c <= d <= |inUse|
    ensures Rank(inUse, c) <= Rank(inUse, d)
    ensures c < d && inUse[c] ==> Rank(inUse, c) < Rank(inUse, d)
  {
    if c < d { RankMono(inUse, c, d - 1); }
  }

  /** `nInUse` */
  function UsedCount(inUse: seq<bool>): nat {
    Rank(inUse, |inUse|)
  }

  /** Every byte of the block is marked in use. */
  ghost predicate Covers(inUse: seq<bool>, l: seq<int>) {
    |inUse| == 256 && forall i :: 0 <= i < |l| ==> 0 <= l[i] < 256 && inUse[l[i]]
  }

  /** The elements of `l` as ranks among the used bytes. */
  function Ranks(inUse: seq<bool>, l: seq<int>): (v: seq<nat>)
    requires Covers(inUse, l)
    ensures |v| == |l| && Indices(v, UsedCount(inUse))
    ensures forall i {:trigger v[i]} :: 0 <= i < |l| ==> v[i] == Rank(inUse, l[i])
  {
    forall i | 0 <= i < |l| ensures Rank(inUse, l[i]) < UsedCount(inUse) { RankMono(inUse, l[i], 256); }
    seq(|l|, i requires 0 <= i < |l| => Rank(inUse, l[i]))
  }

  ghost predicate Maps(u: seq<nat>, inUse: seq<bool>) {
    |u| == |inUse| == 256 && forall c {:trigger u[c]} :: 0 <= c < 256 && inUse[c] ==> u[c] == Rank(inUse, c)
  }

  /** `makeMaps_e` */
  method MakeMaps(inUse: seq<bool>) returns (unseqToSeq: array<nat>, nInUse: nat)
    requires |inUse| == 256
    ensures fresh(unseqToSeq) && Maps(unseqToSeq[..], inUse) && nInUse == UsedCount(inUse)
  {
    unseqToSeq := new nat[256](i => 0);
    nInUse := 0;
    for i := 0 to 256
      invariant nInUse == Rank(inUse, i)
      invariant forall c {:trigger unseqToSeq[c]} :: 0 <= c < i && inUse[c] ==> unseqToSeq[c] == Rank(inUse, c)
    {
      if inUse[i] {
        unseqToSeq[i] := nInUse;
        nInUse := nInUse + 1;
      }
    }
  }

  /** `mtfFreq` counts the symbols written. */
  ghost predicate Counted(freq: seq<nat>, syms: seq<nat>) {
    |freq| == 258 && forall s {:trigger freq[s]} :: 0 <= s < 258 ==> freq[s] == Count(syms, s)
  }

  lemma CountedNext(freq: seq<nat>, syms: seq<nat>, s: nat)
    requires Counted(freq, syms) && s < 258
    ensures Counted(freq[s := freq[s] + 1], syms + [s])
  {
    assert (syms + [s])[..|syms|] == syms;
  }

  /** The halfword `ptr[i]` occupies two cells of `h`; the symbols occupy one each. */
  function Pointer(h: seq<nat>, i: nat): nat
    requires 2 * i + 1 < |h|
  {
    h[2 * i] + 0x1_0000 * h[2 * i + 1]
  }

  /** `mtfv[wr] = sym; wr++; mtfFreq[sym]++;` */
  method Put(h: array<nat>, freq: array<nat>, wr: nat, sym: nat)
    requires h != freq && wr < h.Length && sym < 258 && Counted(freq[..], h[..wr])
    modifies h, freq
    ensures h[..wr + 1] == old(h[..wr]) + [sym] && h[wr + 1..] == old(h[wr + 1..])
    ensures Counted(freq[..], h[..wr + 1])
  {
    CountedNext(freq[..], h[..wr], sym);
    h[wr] := sym;
    freq[sym] := freq[sym] + 1;
    assert h[..wr + 1] == old(h[..wr]) + [sym];
  }

  /** The loop that writes `zPend` zeros as digits. */
  method PutZeros(h: array<nat>, freq: array<nat>, wr0: nat, zPend0: nat) returns (wr: nat)
    requires h != freq && zPend0 > 0 && wr0 + zPend0 <= h.Length && Counted(freq[..], h[..wr0])
    modifies h, freq
    ensures wr == wr0 + |ZeroRun(zPend0)| && h[..wr] == old(h[..wr0]) + ZeroRun(zPend0)
    ensures h[wr..] == old(h[wr..]) && Counted(freq[..], h[..wr])
  {
    ghost var syms, h0 := h[..wr0], h[..];
    var zPend := zPend0 - 1;
    wr := wr0;
    while true
      invariant zPend >= 0 && wr0 <= wr && wr + zPend + 1 <= wr0 + zPend0 && Counted(freq[..], h[..wr])
      invariant h[..wr] + Digits(zPend) == syms + ZeroRun(zPend0) && h[wr..] == h0[wr..]
      decreases zPend
    {
      ghost var before := h[..wr];
      Put(h, freq, wr, zPend % 2);
      wr := wr + 1;
      if zPend < 2 { break; }
      assert before + ([zPend % 2] + Digits((zPend - 2) / 2)) == h[..wr] + Digits((zPend - 2) / 2);
      zPend := (zPend - 2) / 2;
    }
  }

  /** The search that shifts the list along as it goes. */
  method MoveToFront(yy: array<nat>, n: nat, c: nat) returns (j: nat)
    requires n <= yy.Length && c in yy[..n] && yy[0] != c
    modifies yy
    ensures j == Position(old(yy[..n]), c) && yy[..n] == Front(old(yy[..n]), j)
  {
    ghost var y := yy[..n];
    var rtmp := yy[1];
    yy[1] := yy[0];
    j := 1;
    while c != rtmp
      invariant 1 <= j < n && rtmp == y[j] && forall k :: 0 <= k < j ==> y[k] != c
      invariant yy[0] == y[0] && forall k {:trigger yy[k]} :: 1 <= k < n ==> yy[k] == if k <= j then y[k - 1] else y[k]
      decreases n - j
    {
      j := j + 1;
      rtmp, yy[j] := yy[j], rtmp;
    }
    yy[0] := rtmp;
    PositionIs(y, c, j);
  }

  lemma {:induction false} PositionIs(list: seq<nat>, c: nat, j: nat)
    requires j < |list| && list[j] == c && forall k :: 0 <= k < j ==> list[k] != c
    ensures c in list && Position(list, c) == j
  {
    if list[0] != c { PositionIs(list[1..], c, j - 1); }
  }

  /** The loop variables after the first `i` elements. */
  ghost predicate Progress(v: seq<nat>, i: nat, nInUse: nat, h: seq<nat>, wr: nat, zPend: nat, yy: seq<nat>,
        freq: seq<nat>)
  {
    && Indices(v, nInUse) && i <= |v| && wr + zPend <= i && wr <= |h| && nInUse <= |yy|
    && Counted(freq, h[..wr]) && EncodeAll(v[..i], nInUse) == Mtfing(yy[..nInUse], zPend, h[..wr])
  }

  lemma EncodeNext(v: seq<nat>, i: nat, nInUse: nat)
    requires Indices(v, nInUse) && i < |v|
    ensures v[i] in EncodeAll(v[..i], nInUse).yy
    ensures EncodeAll(v[..i + 1], nInUse) == Encode(EncodeAll(v[..i], nInUse), v[i])
  {
    assert v[..i + 1][..i] == v[..i];
  }

  /** The element `ll_i`. */
  method PutCoded(h: array<nat>, freq: array<nat>, yy: array<nat>, nInUse: nat, wr0: nat, zPend0: nat, c: nat,
        ghost s: Mtfing)
    returns (wr: nat, zPend: nat)
    requires h != freq && h != yy && freq != yy && wr0 + zPend0 < h.Length && nInUse <= 256 == yy.Length
    requires s == Mtfing(yy[..nInUse], zPend0, h[..wr0]) && c in s.yy && Counted(freq[..], h[..wr0])
    modifies h, freq, yy
    ensures wr + zPend <= wr0 + zPend0 + 1 && wr0 <= wr && Counted(freq[..], h[..wr])
    ensures Encode(s, c) == Mtfing(yy[..nInUse], zPend, h[..wr]) && h[wr..] == old(h[wr..])
  {
    if yy[0] == c {
      wr, zPend := wr0, zPend0 + 1;
    } else {
      wr := wr0;
      ghost var h0 := h[..];
      if zPend0 > 0 { wr := PutZeros(h, freq, wr, zPend0); }
      assert h[..wr] == s.out + ZeroRun(zPend0) && h[wr..] == h0[wr..];
      var j := MoveToFront(yy, nInUse, c);
      Put(h, freq, wr, j + 1);
      assert s.out + ZeroRun(zPend0) + [j + 1] == s.out + Added(s, c);
      wr, zPend := wr + 1, 0;
    }
  }

  /** One round of the main loop. */
  method PutElement(h: array<nat>, freq: array<nat>, yy: array<nat>, nInUse: nat, wr0: nat, zPend0: nat, c: nat,
        ghost v: seq<nat>, ghost i: nat)
    returns (wr: nat, zPend: nat)
    requires h != freq && h != yy && freq != yy && nInUse <= 256 == yy.Length && i < h.Length
    requires Progress(v, i, nInUse, h[..], wr0, zPend0, yy[..], freq[..]) && i < |v| && c == v[i]
    modifies h, freq, yy
    ensures Progress(v, i + 1, nInUse, h[..], wr, zPend, yy[..], freq[..])
    ensures wr0 <= wr && h[wr..] == old(h[wr..])
  {
    EncodeNext(v, i, nInUse);
    wr, zPend := PutCoded(h, freq, yy, nInUse, wr0, zPend0, c, EncodeAll(v[..i], nInUse));
  }

  /** After the loop: the last zeros and the end-of-block symbol. */
  method PutEnd(h: array<nat>, freq: array<nat>, nInUse: nat, wr0: nat, zPend: nat, ghost v: seq<nat>,
        ghost yy: seq<nat>)
    returns (wr: nat)
    requires h != freq && nInUse <= 256 && |v| < h.Length
    requires Progress(v, |v|, nInUse, h[..], wr0, zPend, yy, freq[..])
    modifies h, freq
    ensures wr <= |v| + 1 && wr <= h.Length && h[..wr] == Symbols(v, nInUse) && Counted(freq[..], h[..wr])
  {
    assert v[..|v|] == v;
    assert Symbols(v, nInUse) == h[..wr0] + ZeroRun(zPend) + [nInUse + 1];
    wr := wr0;
    if zPend > 0 { wr := PutZeros(h, freq, wr, zPend); }
    assert h[..wr] == old(h[..wr0]) + ZeroRun(zPend);
    Put(h, freq, wr, nInUse + 1);
    wr := wr + 1;
  }

  /** `ptr` in the first `2 * n` cells. */
  ghost predicate Points(h: seq<nat>, p: seq<int>) {
    2 * |p| <= |h| && forall i :: 0 <= i < |p| ==> Pointer(h, i) == p[i]
  }

  lemma Unread(h: seq<nat>, h0: seq<nat>, wr: nat, i: nat)
    requires wr <= 2 * i && 2 * i + 1 < |h| == |h0| && h[wr..] == h0[wr..]
    ensures Pointer(h, i) == Pointer(h0, i)
  {
    assert h[wr..][2 * i - wr] == h0[2 * i] && h[wr..][2 * i + 1 - wr] == h0[2 * i + 1];
  }

  /** `v` lists the ranks of the last column of the block in `a`, sorted by `p`. */
  ghost predicate Sources(a: seq<nat>, p: seq<int>, inUse: seq<bool>, v: seq<nat>) {
    && 0 < |p| <= |a| && IsPerm(p, |p|) && Covers(inUse, LastColumn(Eclass8(a, |p|), p))
    && v == Ranks(inUse, LastColumn(Eclass8(a, |p|), p))
  }

  /** `unseqToSeq[block[j]]` for the position `j` before `ptr[i]`. */
  method ReadElement(h: array<nat>, arr2: array<nat>, unseqToSeq: array<nat>, nblock: nat, i: nat,
        ghost p: seq<int>, ghost inUse: seq<bool>, ghost v: seq<nat>)
    returns (c: nat)
    requires Sources(arr2[..], p, inUse, v) && |p| == nblock && i < nblock && 2 * i + 1 < h.Length
    requires Pointer(h[..], i) == p[i] && Maps(unseqToSeq[..], inUse)
    ensures c == v[i]
  {
    ghost var l := LastColumn(Eclass8(arr2[..], nblock), p);
    var q: int := h[2 * i] + 0x1_0000 * h[2 * i + 1];
    var j := if q == 0 then nblock - 1 else q - 1;
    assert l[i] == ByteOf(arr2[j / 4], j % 4);
    c := unseqToSeq[ByteOf(arr2[j / 4], j % 4)];
  }

  /** The main loop. */
  method PutAll(h: array<nat>, arr2: array<nat>, unseqToSeq: array<nat>, freq: array<nat>, yy: array<nat>,
        nInUse: nat, nblock: nat, ghost p: seq<int>, ghost inUse: seq<bool>, ghost v: seq<nat>)
    returns (wr: nat, zPend: nat)
    requires h != freq && h != yy && freq != yy && h != arr2 && freq != arr2 && yy != arr2
    requires h != unseqToSeq && freq != unseqToSeq && yy != unseqToSeq && nInUse <= 256 == yy.Length
    requires Sources(arr2[..], p, inUse, v) && |p| == nblock && Points(h[..], p) && Maps(unseqToSeq[..], inUse)
    requires Progress(v, 0, nInUse, h[..], 0, 0, yy[..], freq[..])
    modifies h, freq, yy
    ensures Progress(v, |v|, nInUse, h[..], wr, zPend, yy[..], freq[..])
  {
    ghost var h0, u, a := h[..], unseqToSeq[..], arr2[..];
    wr, zPend := 0, 0;
    for i := 0 to nblock
      invariant Progress(v, i, nInUse, h[..], wr, zPend, yy[..], freq[..])
      invariant h[wr..] == h0[wr..] && unseqToSeq[..] == u && arr2[..] == a
    {
      Unread(h[..], h0, wr, i);
      var c := ReadElement(h, arr2, unseqToSeq, nblock, i, p, inUse, v);
      ghost var wr0 := wr;
      wr, zPend := PutElement(h, freq, yy, nInUse, wr, zPend, c, v, i);
      assert h0[wr0..][wr - wr0..] == h0[wr..];
    }
  }

  /**
   * `generateMTFValues`: `h` is the memory that `ptr` and `mtfv` share, `arr2` holds the block. Writing never
   * overtakes reading, so the result is that of coding the last column kept elsewhere.
   */
  method GenerateMTFValues(h: array<nat>, arr2: array<nat>, inUse: seq<bool>, nblock: nat, ghost p: seq<int>,
        ghost v: seq<nat>)
    returns (nMTF: nat, nInUse: nat, mtfFreq: array<nat>)
    requires h != arr2 && Sources(arr2[..], p, inUse, v) && |p| == nblock && Points(h[..], p)
    modifies h
    ensures nInUse == UsedCount(inUse) && fresh(mtfFreq)
    ensures nMTF <= nblock + 1 && nMTF <= h.Length && h[..nMTF] == Symbols(v, nInUse)
    ensures Counted(mtfFreq[..], h[..nMTF])
  {
    var unseqToSeq;
    unseqToSeq, nInUse := MakeMaps(inUse);
    mtfFreq := new nat[258](i => 0);
    var yy := new nat[256](i requires i >= 0 => i);
    ProgressStart(v, nInUse, h[..], yy[..], mtfFreq[..]);
    var wr, zPend := PutAll(h, arr2, unseqToSeq, mtfFreq, yy, nInUse, nblock, p, inUse, v);
    nMTF := PutEnd(h, mtfFreq, nInUse, wr, zPend, v, yy[..]);
  }

  lemma ProgressStart(v: seq<nat>, nInUse: nat, h: seq<nat>, yy: seq<nat>, freq: seq<nat>)
    requires Indices(v, nInUse) && nInUse <= |yy| == 256 && forall i :: 0 <= i < 256 ==> yy[i] == i
    requires |freq| == 258 && forall i :: 0 <= i < 258 ==> freq[i] == 0
    ensures Progress(v, 0, nInUse, h, 0, 0, yy, freq)
  {
    assert v[..0] == [] && h[..0] == [];
    assert yy[..nInUse] == Identity(nInUse);
  }
}
